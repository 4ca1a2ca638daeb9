/** The periodic scheduler: named subscriptions, each with an interval, the instant it last ran
    and an enabled flag, checked on every tick with a drift tolerance. Ticks arrive as calls
    with an integer instant; the worker and animation-frame transport that produces them is
    reduced to a log of the messages posted to the worker. */
module PrecisionTimer {
  import opened Wrappers
  import opened Seqs

  /** A subscription; `callback` is an opaque token for the function to call. */
  datatype Subscription = Subscription(id: string, callback: nat, interval: int, lastExecution: int, enabled: bool)

  datatype Config = Config(targetInterval: int, maxDrift: int, correctionThreshold: int, useBrowserTimer: bool)

  /** The constructor's `Partial<config>`. */
  datatype ConfigPatch = ConfigPatch(targetInterval: Option<int>, maxDrift: Option<int>,
                                     correctionThreshold: Option<int>, useBrowserTimer: Option<bool>)

  /** Target 1000 ms, tolerance 5 ms, correction threshold 10 ms, worker preferred. */
  const DefaultConfig: Config := Config(1000, 5, 10, false)

  function MergeConfig(c: Config, p: ConfigPatch): (r: Config)
    ensures r.targetInterval == p.targetInterval.GetOr(c.targetInterval)
    ensures r.maxDrift == p.maxDrift.GetOr(c.maxDrift)
    ensures r.correctionThreshold == p.correctionThreshold.GetOr(c.correctionThreshold)
    ensures r.useBrowserTimer == p.useBrowserTimer.GetOr(c.useBrowserTimer)
  {
    Config(p.targetInterval.GetOr(c.targetInterval), p.maxDrift.GetOr(c.maxDrift),
           p.correctionThreshold.GetOr(c.correctionThreshold), p.useBrowserTimer.GetOr(c.useBrowserTimer))
  }

  datatype WorkerMessage = StartMessage(interval: int) | StopMessage | Terminate

  datatype Stats = Stats(isRunning: bool, activeTimers: nat, totalTimers: nat, drift: int,
                         usingWorker: bool, config: Config)

  /** The due check of `handleTick`: enabled, and at least `interval - maxDrift` since the
      last run. */
  predicate Due(e: Subscription, t: int, maxDrift: int) {
    e.enabled && t - e.lastExecution >= e.interval - maxDrift
  }

  /** A subscription after one tick at `t`: a due callback that returns records `t`; one that
      throws keeps its old instant. */
  function AfterTick(e: Subscription, t: int, maxDrift: int, throws: bool): (r: Subscription)
    ensures r.(lastExecution := e.lastExecution) == e && r.id == e.id
    ensures r.lastExecution == if Due(e, t, maxDrift) && !throws then t else e.lastExecution
  {
    if Due(e, t, maxDrift) && !throws then e.(lastExecution := t) else e
  }

  /** The registry after one tick: every entry updated as by `AfterTick`, none added or lost. */
  function TickAll(m: map<string, Subscription>, t: int, maxDrift: int, throws: set<string>): (r: map<string, Subscription>)
    ensures r.Keys == m.Keys
    ensures forall k :: k in m ==> r[k] == AfterTick(m[k], t, maxDrift, k in throws)
  {
    map k | k in m :: AfterTick(m[k], t, maxDrift, k in throws)
  }

  /** Holds of the registered ids that are due at `t`. */
  function DueIn(m: map<string, Subscription>, t: int, maxDrift: int): string -> bool {
    k => k in m && Due(m[k], t, maxDrift)
  }

  function IsEnabledIn(m: map<string, Subscription>): string -> bool {
    k => k in m && m[k].enabled
  }

  /** A tick either runs no callback twice, nor one that is not due: the ids it runs are the
      due ids in registration order. */
  lemma DueIdsAreDue(order: seq<string>, m: map<string, Subscription>, t: int, maxDrift: int)
    ensures forall k :: k in Filter(order, DueIn(m, t, maxDrift)) <==> k in order && k in m && Due(m[k], t, maxDrift)
    ensures Distinct(order) ==> Distinct(Filter(order, DueIn(m, t, maxDrift)))
  {
    forall k ensures k in Filter(order, DueIn(m, t, maxDrift)) <==> k in order && k in m && Due(m[k], t, maxDrift) {
      FilterMember(order, DueIn(m, t, maxDrift), k);
    }
    if Distinct(order) {
      FilterKeepsDistinct(order, DueIn(m, t, maxDrift));
    }
  }

  /** After `forceSync` at `now`, an enabled subscription is due on every tick from `now` on,
      as long as the drift tolerance is not negative. */
  lemma ForceSyncMakesDue(e: Subscription, now: int, t: int, maxDrift: int)
    requires e.enabled && t >= now && maxDrift >= 0
    ensures Due(e.(lastExecution := now - e.interval), t, maxDrift)
  {}

  /** A callback that ran at `t` is due again at `t + d` exactly when `d` reaches its interval
      less the tolerance; one that threw stays due. */
  lemma TickRearms(e: Subscription, t: int, d: int, maxDrift: int, throws: bool)
    requires Due(e, t, maxDrift)
    ensures !throws ==> (Due(AfterTick(e, t, maxDrift, throws), t + d, maxDrift) <==> d >= e.interval - maxDrift)
    ensures throws && d >= 0 ==> Due(AfterTick(e, t, maxDrift, throws), t + d, maxDrift)
  {}

  /** The registry part-way through a tick: the entries of the first `i` ids of `ids` have been
      ticked, the rest are as they were. */
  function TickPrefix(m0: map<string, Subscription>, ids: seq<string>, i: int, t: int, maxDrift: int,
                      throws: set<string>): (r: map<string, Subscription>)
    requires 0 <= i <= |ids|
    ensures r.Keys == m0.Keys
  {
    map k | k in m0 :: if k in ids[..i] then AfterTick(m0[k], t, maxDrift, k in throws) else m0[k]
  }

  /** One step of the tick loop: the entry of the next id is still the one from before the
      tick, and ticking it updates just that entry as by `AfterTick`. */
  lemma TickPrefixStep(m0: map<string, Subscription>, ids: seq<string>, i: int, t: int, maxDrift: int,
                       throws: set<string>)
    requires 0 <= i < |ids| && Distinct(ids) && ids[i] in m0
    ensures ids[i] in TickPrefix(m0, ids, i, t, maxDrift, throws)
    ensures TickPrefix(m0, ids, i, t, maxDrift, throws)[ids[i]] == m0[ids[i]]
    ensures TickPrefix(m0, ids, i + 1, t, maxDrift, throws)
         == if Due(m0[ids[i]], t, maxDrift) && ids[i] !in throws
            then TickPrefix(m0, ids, i, t, maxDrift, throws)[ids[i] := m0[ids[i]].(lastExecution := t)]
            else TickPrefix(m0, ids, i, t, maxDrift, throws)
  {
    var id := ids[i];
    DistinctNotInPrefix(ids, i);
    assert ids[..i + 1] == ids[..i] + [id];
    var before, after := TickPrefix(m0, ids, i, t, maxDrift, throws), TickPrefix(m0, ids, i + 1, t, maxDrift, throws);
    var expected := if Due(m0[id], t, maxDrift) && id !in throws then before[id := m0[id].(lastExecution := t)] else before;
    forall k | k in m0
      ensures after[k] == expected[k]
    {
      assert k in ids[..i + 1] <==> k in ids[..i] || k == id;
    }
    assert after == expected;
  }

  /** The ids run so far grow by the next id exactly when it is due. */
  lemma RanStep(m0: map<string, Subscription>, ids: seq<string>, i: int, t: int, maxDrift: int)
    requires 0 <= i < |ids| && ids[i] in m0
    ensures Filter(ids[..i + 1], DueIn(m0, t, maxDrift))
         == Filter(ids[..i], DueIn(m0, t, maxDrift)) + if Due(m0[ids[i]], t, maxDrift) then [ids[i]] else []
  {
    assert ids[..i + 1] == ids[..i] + [ids[i]];
    FilterConcat(ids[..i], [ids[i]], DueIn(m0, t, maxDrift));
  }

  /** Once every id has been ticked, the registry is `TickAll` of the one before the tick. */
  lemma TickDone(m0: map<string, Subscription>, ids: seq<string>, t: int, maxDrift: int, throws: set<string>)
    requires forall k :: k in m0 ==> k in ids
    ensures TickPrefix(m0, ids, |ids|, t, maxDrift, throws) == TickAll(m0, t, maxDrift, throws)
  {
    assert ids[..|ids|] == ids;
  }

  /** The registry's shape: the order lists each registered id once, and every entry carries
      its own id. */
  ghost predicate Registry(order: seq<string>, m: map<string, Subscription>) {
    && Distinct(order)
    && (forall k :: k in order <==> k in m)
    && (forall k :: k in m ==> m[k].id == k)
  }

  /** Ticking and syncing keep the registry's shape. */
  lemma UpdatesKeepRegistry(order: seq<string>, m: map<string, Subscription>, t: int, maxDrift: int, throws: set<string>)
    requires Registry(order, m)
    ensures Registry(order, TickAll(m, t, maxDrift, throws)) && Registry(order, SyncAll(m, t))
  {
  }

  /** The loop of `handleTick` over the registry `m0`, visited in the registration order `ids`:
      returns the registry afterwards and the ids whose callbacks ran. */
  method RunDue(m0: map<string, Subscription>, ids: seq<string>, t: int, maxDrift: int, throws: set<string>)
      returns (m: map<string, Subscription>, ran: seq<string>)
    requires Distinct(ids) && forall k :: k in ids <==> k in m0
    ensures m == TickAll(m0, t, maxDrift, throws)
    ensures ran == Filter(ids, DueIn(m0, t, maxDrift))
  {
    m := m0;
    ran := [];
    var i := 0;
    assert m == TickPrefix(m0, ids, 0, t, maxDrift, throws);
    while i < |ids|
      invariant 0 <= i <= |ids|
      invariant m == TickPrefix(m0, ids, i, t, maxDrift, throws)
      invariant ran == Filter(ids[..i], DueIn(m0, t, maxDrift))
    {
      var id := ids[i];
      TickPrefixStep(m0, ids, i, t, maxDrift, throws);
      RanStep(m0, ids, i, t, maxDrift);
      var e := m[id];
      var timeSinceLastExecution := t - e.lastExecution;
      var due := e.enabled && timeSinceLastExecution >= e.interval - maxDrift;
      if due {
        ran := ran + [id];
      }
      if due && id !in throws {
        m := m[id := e.(lastExecution := t)];
      }
      i := i + 1;
    }
    TickDone(m0, ids, t, maxDrift, throws);
    assert ids[..|ids|] == ids;
  }

  /** A subscription after `forceSync` at `now`: an enabled one is back-dated by its interval,
      so that the next tick runs it; a disabled one is left alone. */
  function Synced(e: Subscription, now: int): (r: Subscription)
    ensures r.(lastExecution := e.lastExecution) == e && r.id == e.id
    ensures e.enabled ==> now - r.lastExecution == e.interval
    ensures !e.enabled ==> r == e
  {
    if e.enabled then e.(lastExecution := now - e.interval) else e
  }

  function SyncAll(m: map<string, Subscription>, now: int): (r: map<string, Subscription>)
    ensures r.Keys == m.Keys
    ensures forall k :: k in m ==> r[k] == Synced(m[k], now)
  {
    map k | k in m :: Synced(m[k], now)
  }

  /** After `forceSync` at `now`, every enabled subscription is due on every tick from `now`
      on, whatever its interval, as long as the tolerance is not negative. */
  lemma {:induction false} SyncMakesDue(m: map<string, Subscription>, now: int, t: int, maxDrift: int)
    requires t >= now && maxDrift >= 0
    ensures forall k :: k in m && m[k].enabled ==> Due(SyncAll(m, now)[k], t, maxDrift)
    ensures forall k :: k in m && !m[k].enabled ==> !Due(SyncAll(m, now)[k], t, maxDrift)
  {
    forall k | k in m && m[k].enabled
      ensures Due(SyncAll(m, now)[k], t, maxDrift)
    {
      ForceSyncMakesDue(m[k], now, t, maxDrift);
    }
  }

  /** The registry part-way through `forceSync`: the first `i` ids of `ids` synced. */
  function SyncPrefix(m0: map<string, Subscription>, ids: seq<string>, i: int, now: int): (r: map<string, Subscription>)
    requires 0 <= i <= |ids|
    ensures r.Keys == m0.Keys
  {
    map k | k in m0 :: if k in ids[..i] then Synced(m0[k], now) else m0[k]
  }

  lemma SyncPrefixStep(m0: map<string, Subscription>, ids: seq<string>, i: int, now: int)
    requires 0 <= i < |ids| && Distinct(ids) && ids[i] in m0
    ensures ids[i] in SyncPrefix(m0, ids, i, now) && SyncPrefix(m0, ids, i, now)[ids[i]] == m0[ids[i]]
    ensures SyncPrefix(m0, ids, i + 1, now)
         == if m0[ids[i]].enabled
            then SyncPrefix(m0, ids, i, now)[ids[i] := m0[ids[i]].(lastExecution := now - m0[ids[i]].interval)]
            else SyncPrefix(m0, ids, i, now)
  {
    var id := ids[i];
    DistinctNotInPrefix(ids, i);
    assert ids[..i + 1] == ids[..i] + [id];
    var before, after := SyncPrefix(m0, ids, i, now), SyncPrefix(m0, ids, i + 1, now);
    var expected := if m0[id].enabled then before[id := m0[id].(lastExecution := now - m0[id].interval)] else before;
    forall k | k in m0
      ensures after[k] == expected[k]
    {
      assert k in ids[..i + 1] <==> k in ids[..i] || k == id;
    }
    assert after == expected;
  }

  lemma SyncDone(m0: map<string, Subscription>, ids: seq<string>, now: int)
    requires forall k :: k in m0 ==> k in ids
    ensures SyncPrefix(m0, ids, |ids|, now) == SyncAll(m0, now)
  {
    assert ids[..|ids|] == ids;
  }

  /** The loop of `forceSync` over the registry `m0` in the registration order `ids`. */
  method SyncLoop(m0: map<string, Subscription>, ids: seq<string>, now: int) returns (m: map<string, Subscription>)
    requires Distinct(ids) && forall k :: k in ids <==> k in m0
    ensures m == SyncAll(m0, now)
  {
    m := m0;
    var i := 0;
    assert m == SyncPrefix(m0, ids, 0, now);
    while i < |ids|
      invariant 0 <= i <= |ids|
      invariant m == SyncPrefix(m0, ids, i, now)
    {
      var id := ids[i];
      SyncPrefixStep(m0, ids, i, now);
      if m[id].enabled {
        m := m[id := m[id].(lastExecution := now - m[id].interval)];
      }
      i := i + 1;
    }
    SyncDone(m0, ids, now);
  }

  class PrecisionTimer {
    /** The keys of the `callbacks` map in insertion order (the order `forEach` visits). */
    var order: seq<string>
    var entries: map<string, Subscription>
    var isRunning: bool
    var lastTime: int
    var performanceStartTime: int
    var drift: int
    var config: Config
    /** `workerTimer !== null` */
    var usingWorker: bool
    /** Messages posted to the worker, oldest first. */
    var posted: seq<WorkerMessage>

    ghost predicate Valid()
      reads this
    {
      Registry(order, entries)
    }

    /** `new PrecisionTimer(options)` at performance time `perfNow`; `workerAvailable` is whether
        the worker could be created. Without it the timer falls back to the main thread. */
    constructor(options: ConfigPatch, workerAvailable: bool, perfNow: int)
      ensures Valid() && order == [] && entries == map[] && !isRunning
      ensures drift == 0 && lastTime == 0 && performanceStartTime == perfNow && posted == []
      ensures usingWorker == workerAvailable
      ensures config == if workerAvailable then MergeConfig(DefaultConfig, options)
                        else MergeConfig(DefaultConfig, options).(useBrowserTimer := true)
    {
      order := [];
      entries := map[];
      isRunning := false;
      lastTime := 0;
      performanceStartTime := perfNow;
      drift := 0;
      posted := [];
      var c := MergeConfig(DefaultConfig, options);
      if workerAvailable {
        usingWorker := true;
        config := c;
      } else {
        usingWorker := false;
        config := c.(useBrowserTimer := true);
      }
    }

    /** The worker's `onerror`: drop it and fall back to main-thread ticks. */
    method WorkerFailed()
      modifies this
      ensures !usingWorker && config == old(config).(useBrowserTimer := true)
      ensures order == old(order) && entries == old(entries) && isRunning == old(isRunning)
      ensures drift == old(drift) && lastTime == old(lastTime) && posted == old(posted)
      ensures performanceStartTime == old(performanceStartTime)
    {
      usingWorker := false;
      config := config.(useBrowserTimer := true);
    }

    /** `handleTick(t, workerDrift)`: runs, in registration order, every enabled callback that
        is due; `throws` is the set of ids whose callbacks throw. The ids run are returned. */
    method HandleTick(t: int, workerDrift: int, throws: set<string>) returns (ran: seq<string>)
      requires Valid()
      modifies this
      ensures Valid() && drift == workerDrift
      ensures ran == Filter(order, DueIn(old(entries), t, config.maxDrift))
      ensures entries == TickAll(old(entries), t, config.maxDrift, throws)
      ensures order == old(order) && config == old(config) && isRunning == old(isRunning)
      ensures lastTime == old(lastTime) && usingWorker == old(usingWorker) && posted == old(posted)
      ensures performanceStartTime == old(performanceStartTime)
    {
      drift := workerDrift;
      UpdatesKeepRegistry(order, entries, t, config.maxDrift, throws);
      entries, ran := RunDue(entries, order, t, config.maxDrift, throws);
    }

    /** `addTimer(id, callback, interval)` at `now`: registers the id, or replaces its entry in
        place, with the interval, `lastExecution = now` and enabled. */
    method AddTimer(id: string, callback: nat, interval: int, now: int)
      requires Valid()
      modifies this
      ensures Valid()
      ensures entries == old(entries)[id := Subscription(id, callback, interval, now, true)]
      ensures order == if id in old(entries) then old(order) else old(order) + [id]
      ensures config == old(config) && isRunning == old(isRunning) && drift == old(drift)
      ensures lastTime == old(lastTime) && usingWorker == old(usingWorker) && posted == old(posted)
      ensures performanceStartTime == old(performanceStartTime)
    {
      if id !in entries {
        order := order + [id];
      }
      entries := entries[id := Subscription(id, callback, interval, now, true)];
    }

    /** `removeTimer(id)`: the entry goes, the other entries keep their order; an unknown id
        changes nothing. */
    method RemoveTimer(id: string)
      requires Valid()
      modifies this
      ensures Valid()
      ensures entries == old(entries) - {id} && order == Filter(old(order), NotKey(id))
      ensures id !in old(entries) ==> entries == old(entries) && order == old(order)
      ensures config == old(config) && isRunning == old(isRunning) && drift == old(drift)
      ensures lastTime == old(lastTime) && usingWorker == old(usingWorker) && posted == old(posted)
      ensures performanceStartTime == old(performanceStartTime)
    {
      forall k ensures k in Filter(order, NotKey(id)) <==> k in order && k != id {
        FilterMember(order, NotKey(id), k);
      }
      FilterKeepsDistinct(order, NotKey(id));
      if id !in entries {
        FilterAll(order, NotKey(id));
        assert entries - {id} == entries;
      }
      order := Filter(order, NotKey(id));
      entries := entries - {id};
    }

    /** `enableTimer(id)` at `now`: enable and restart the interval from now; unknown ids are
        ignored. */
    method EnableTimer(id: string, now: int)
      requires Valid()
      modifies this
      ensures Valid() && order == old(order)
      ensures entries == if id in old(entries) then old(entries)[id := old(entries)[id].(enabled := true, lastExecution := now)] else old(entries)
      ensures config == old(config) && isRunning == old(isRunning) && drift == old(drift)
      ensures lastTime == old(lastTime) && usingWorker == old(usingWorker) && posted == old(posted)
      ensures performanceStartTime == old(performanceStartTime)
    {
      if id in entries {
        entries := entries[id := entries[id].(enabled := true, lastExecution := now)];
      }
    }

    /** `disableTimer(id)`: only the enabled flag changes; unknown ids are ignored. */
    method DisableTimer(id: string)
      requires Valid()
      modifies this
      ensures Valid() && order == old(order)
      ensures entries == if id in old(entries) then old(entries)[id := old(entries)[id].(enabled := false)] else old(entries)
      ensures config == old(config) && isRunning == old(isRunning) && drift == old(drift)
      ensures lastTime == old(lastTime) && usingWorker == old(usingWorker) && posted == old(posted)
      ensures performanceStartTime == old(performanceStartTime)
    {
      if id in entries {
        entries := entries[id := entries[id].(enabled := false)];
      }
    }

    /** `start()` at performance time `perfNow` and wall-clock `now`: nothing while running;
        otherwise mark running and either post START to the worker or run the first
        main-thread tick at once (elapsed time 0, hence drift 0). */
    method Start(perfNow: int, now: int, throws: set<string>) returns (ran: seq<string>)
      requires Valid()
      modifies this
      ensures Valid() && isRunning && order == old(order) && config == old(config)
      ensures old(isRunning) ==>
        && entries == old(entries) && ran == [] && posted == old(posted)
        && lastTime == old(lastTime) && drift == old(drift) && performanceStartTime == old(performanceStartTime)
      ensures !old(isRunning) ==> performanceStartTime == perfNow && lastTime == perfNow
      ensures !old(isRunning) && usingWorker ==>
        && posted == old(posted) + [StartMessage(config.targetInterval)]
        && entries == old(entries) && ran == [] && drift == old(drift)
      ensures !old(isRunning) && !usingWorker ==>
        && posted == old(posted) && drift == 0
        && ran == Filter(order, DueIn(old(entries), now, config.maxDrift))
        && entries == TickAll(old(entries), now, config.maxDrift, throws)
      ensures usingWorker == old(usingWorker)
    {
      ran := [];
      if isRunning {
        return;
      }
      isRunning := true;
      lastTime := perfNow;
      performanceStartTime := lastTime;
      if usingWorker {
        posted := posted + [StartMessage(config.targetInterval)];
      } else {
        ran := HandleTick(now, 0, throws);
      }
    }

    /** `stop()`: not running; the worker is told to stop. */
    method Stop()
      modifies this
      ensures !isRunning && posted == if usingWorker then old(posted) + [StopMessage] else old(posted)
      ensures order == old(order) && entries == old(entries) && config == old(config)
      ensures drift == old(drift) && lastTime == old(lastTime) && usingWorker == old(usingWorker)
      ensures performanceStartTime == old(performanceStartTime)
    {
      isRunning := false;
      if usingWorker {
        posted := posted + [StopMessage];
      }
    }

    /** `getStats()` */
    function GetStats(): (s: Stats)
      requires Valid()
      reads this
      ensures s.totalTimers == |entries| && s.activeTimers <= s.totalTimers
      ensures s.activeTimers == |Filter(order, IsEnabledIn(entries))|
      ensures s.isRunning == isRunning && s.drift == drift && s.usingWorker == usingWorker && s.config == config
    {
      DistinctCard(order);
      assert (set x | x in order) == entries.Keys;
      Stats(isRunning, |Filter(order, IsEnabledIn(entries))|, |entries|, drift, usingWorker, config)
    }

    /** `forceSync()` at `now`: every enabled entry gets `lastExecution = now - interval`, so it
        is due on the next tick; disabled entries are untouched. */
    method ForceSync(now: int)
      requires Valid()
      modifies this
      ensures Valid() && order == old(order) && entries == SyncAll(old(entries), now)
      ensures config == old(config) && isRunning == old(isRunning) && drift == old(drift)
      ensures lastTime == old(lastTime) && usingWorker == old(usingWorker) && posted == old(posted)
      ensures performanceStartTime == old(performanceStartTime)
    {
      UpdatesKeepRegistry(order, entries, now, 0, {});
      entries := SyncLoop(entries, order, now);
    }

    /** `dispose()`: stop, forget every entry, terminate the worker. */
    method Dispose()
      modifies this
      ensures Valid() && !isRunning && !usingWorker && entries == map[] && order == []
      ensures posted == if old(usingWorker) then old(posted) + [StopMessage, Terminate] else old(posted)
      ensures config == old(config) && drift == old(drift) && lastTime == old(lastTime)
    {
      Stop();
      entries := map[];
      order := [];
      if usingWorker {
        posted := posted + [Terminate];
        usingWorker := false;
      }
    }
  }
}
