/** The script of the timing worker: it holds a copy of the alarm list, ticks once a second
    while running, and reports the alarms of the current minute. Messages posted back to the
    page are collected in a log; `Date.now()` is a parameter. */
module TimeWorker {
  import opened Seqs
  import opened Wrappers
  import opened AlarmModel
  import TimeUtils

  /** `checkAlarms(currentTime)`: the ids, in list order, of the active alarms not already
      ringing whose time falls in the same minute as `currentTime`. */
  function CheckAlarms(alarms: seq<Alarm>, currentTime: int): (r: seq<string>)
    ensures |r| <= |alarms|
    decreases |alarms|
  {
    if alarms == [] then []
    else
      var a := alarms[0];
      var hit := a.isActive && !a.isRinging && TimeUtils.ZeroSeconds(a.time) == TimeUtils.ZeroSeconds(currentTime);
      (if hit then [a.id] else []) + CheckAlarms(alarms[1..], currentTime)
  }

  /** The worker selects exactly the alarms the store's own minute check would start ringing. */
  lemma {:induction false} CheckAlarmsIsStoreTrigger(alarms: seq<Alarm>, currentTime: int)
    ensures CheckAlarms(alarms, currentTime) == TriggeredIds(alarms, currentTime)
    decreases |alarms|
  {
    if alarms != [] {
      CheckAlarmsIsStoreTrigger(alarms[1..], currentTime);
      var f := ShouldTriggerAt(currentTime);
      IdsConcat(if f(alarms[0]) then [alarms[0]] else [], Filter(alarms[1..], f));
    }
  }

  /** An id is reported exactly when some alarm with that id is due this minute. */
  lemma CheckAlarmsMember(alarms: seq<Alarm>, currentTime: int, k: string)
    ensures k in CheckAlarms(alarms, currentTime) <==>
      exists a :: a in alarms && ShouldTrigger(a, currentTime) && a.id == k
  {
    CheckAlarmsIsStoreTrigger(alarms, currentTime);
    var due := Filter(alarms, ShouldTriggerAt(currentTime));
    IdsMember(due, k);
    forall a ensures a in due <==> a in alarms && ShouldTrigger(a, currentTime) {
      FilterMember(alarms, ShouldTriggerAt(currentTime), a);
    }
  }

  // ---------------------------------------------------------------------------------------
  // Messages

  datatype Request = Start | Stop | Sync(alarms: Option<seq<Alarm>>) | CheckAlarmsRequest

  datatype Response =
    | Tick(currentTime: int, triggered: Option<seq<string>>)
    | AlarmTriggered(currentTime: int, triggeredIds: seq<string>)
    | TimeSync(currentTime: int, triggeredIds: seq<string>)

  /** The messages one `tick()` posts: always a TICK carrying the due ids, or nothing when
      there are none; and an ALARM_TRIGGERED after it exactly when some alarm is due. */
  function TickMessages(alarms: seq<Alarm>, now: int): (r: seq<Response>)
    ensures 1 <= |r| <= 2 && r[0].Tick? && r[0].currentTime == now
    ensures r[0].triggered.None? <==> CheckAlarms(alarms, now) == []
    ensures r[0].triggered.Some? ==> r[0].triggered.value == CheckAlarms(alarms, now)
    ensures |r| == 2 <==> CheckAlarms(alarms, now) != []
    ensures |r| == 2 ==> r[1] == AlarmTriggered(now, CheckAlarms(alarms, now))
  {
    var ids := CheckAlarms(alarms, now);
    [Tick(now, if |ids| > 0 then Some(ids) else None)] + if |ids| > 0 then [AlarmTriggered(now, ids)] else []
  }

  /** A tick reports an alarm as triggered exactly when the store would start it ringing. */
  lemma TickReportsDueAlarms(alarms: seq<Alarm>, now: int, k: string)
    ensures (exists m :: m in TickMessages(alarms, now) && m.AlarmTriggered? && k in m.triggeredIds) <==>
      exists a :: a in alarms && ShouldTrigger(a, now) && a.id == k
  {
    CheckAlarmsMember(alarms, now, k);
    var r := TickMessages(alarms, now);
    if exists m :: m in r && m.AlarmTriggered? && k in m.triggeredIds {
      var m :| m in r && m.AlarmTriggered? && k in m.triggeredIds;
      assert m == r[1];
    }
    if exists a :: a in alarms && ShouldTrigger(a, now) && a.id == k {
      assert r[1] in r;
    }
  }

  /** The worker's globals: the interval, the alarm copy and the running flag. */
  class WorkerScript {
    /** `intervalId !== null` */
    var intervalSet: bool
    var alarms: seq<Alarm>
    var isRunning: bool
    var posted: seq<Response>

    /** The running flag and the interval come and go together. */
    ghost predicate Valid()
      reads this
    {
      isRunning == intervalSet
    }

    constructor ()
      ensures Valid() && !intervalSet && alarms == [] && !isRunning && posted == []
    {
      intervalSet, alarms, isRunning, posted := false, [], false, [];
    }

    /** `tick()` */
    method DoTick(now: int)
      modifies this
      ensures posted == old(posted) + TickMessages(alarms, now)
      ensures intervalSet == old(intervalSet) && alarms == old(alarms) && isRunning == old(isRunning)
    {
      var triggeredAlarms := CheckAlarms(alarms, now);
      posted := posted + [Tick(now, if |triggeredAlarms| > 0 then Some(triggeredAlarms) else None)];
      if |triggeredAlarms| > 0 {
        posted := posted + [AlarmTriggered(now, triggeredAlarms)];
      }
    }

    /** START: only when not running, start the interval and tick at once. */
    method OnStart(now: int)
      requires Valid()
      modifies this
      ensures Valid() && isRunning && alarms == old(alarms)
      ensures posted == old(posted) + if old(isRunning) then [] else TickMessages(alarms, now)
    {
      if !isRunning {
        isRunning := true;
        intervalSet := true;
        DoTick(now);
      }
    }

    /** STOP: only when an interval is set, clear it and stop running. */
    method OnStop()
      requires Valid()
      modifies this
      ensures Valid() && !isRunning && !intervalSet
      ensures alarms == old(alarms) && posted == old(posted)
    {
      if intervalSet {
        intervalSet := false;
        isRunning := false;
      }
    }

    /** SYNC: the alarm copy is replaced wholesale (a missing list is an empty one), and a
        running worker checks it at once. */
    method OnSync(list: Option<seq<Alarm>>, now: int)
      requires Valid()
      modifies this
      ensures Valid() && isRunning == old(isRunning) && intervalSet == old(intervalSet)
      ensures alarms == list.GetOr([])
      ensures posted == old(posted) + if isRunning then TickMessages(alarms, now) else []
    {
      alarms := if list.Some? then list.value else [];
      if isRunning {
        DoTick(now);
      }
    }

    /** CHECK_ALARMS: answer with the current time and the due ids, even when there are none. */
    method OnCheckAlarms(now: int)
      modifies this
      ensures posted == old(posted) + [TimeSync(now, CheckAlarms(alarms, now))]
      ensures intervalSet == old(intervalSet) && alarms == old(alarms) && isRunning == old(isRunning)
    {
      var triggeredAlarms := CheckAlarms(alarms, now);
      posted := posted + [TimeSync(now, triggeredAlarms)];
    }

    /** `self.onmessage` */
    method Handle(msg: Request, now: int)
      requires Valid()
      modifies this
      ensures Valid()
      ensures msg.Start? ==> isRunning && posted == old(posted) + (if old(isRunning) then [] else TickMessages(alarms, now))
      ensures msg.Stop? ==> !isRunning && posted == old(posted)
      ensures msg.Sync? ==> (alarms == msg.alarms.GetOr([]) && isRunning == old(isRunning)
        && posted == old(posted) + (if isRunning then TickMessages(alarms, now) else []))
      ensures msg.CheckAlarmsRequest? ==> (isRunning == old(isRunning)
        && posted == old(posted) + [TimeSync(now, CheckAlarms(alarms, now))])
      ensures !msg.Sync? ==> alarms == old(alarms)
    {
      match msg {
        case Start => OnStart(now);
        case Stop => OnStop();
        case Sync(list) => OnSync(list, now);
        case CheckAlarmsRequest => OnCheckAlarms(now);
      }
    }

    /** The interval fires: one tick, while it is set. */
    method IntervalFires(now: int)
      requires Valid()
      modifies this
      ensures Valid() && isRunning == old(isRunning) && alarms == old(alarms)
      ensures posted == old(posted) + if intervalSet then TickMessages(alarms, now) else []
    {
      if intervalSet {
        DoTick(now);
      }
    }
  }
}
