/** The ringing hook of the alarm page. It keeps the set of alarm ids it has started ringing
    for and the browser notification shown for each, reconciles both with the store's ringing
    alarms whenever the alarm list changes, and stops or snoozes alarms on request. The audio
    engine, the notification API and the store stay outside: what the hook asks of them is
    recorded in logs (sounds to play, stop requests, notifications shown and closed, store
    actions called). */
module AlarmSound {
  import opened Seqs
  import opened Wrappers
  import opened AlarmModel
  import opened AlarmStore

  /** The store actions the hook calls. */
  datatype StoreCall = SetRingingOff(id: string) | StopAllAlarmsCall | SnoozeAlarmCall(id: string)

  predicate Rings(a: Alarm) {
    a.isRinging
  }

  /** `alarms.filter(alarm => alarm.isRinging)` */
  function RingingAlarms(alarms: seq<Alarm>): seq<Alarm> {
    Filter(alarms, Rings)
  }

  /** The ids of the ringing alarms (`currentRingingIds`). */
  function RingingIds(alarms: seq<Alarm>): seq<string> {
    Ids(RingingAlarms(alarms))
  }

  lemma RingingIdsMember(alarms: seq<Alarm>, k: string)
    ensures k in RingingIds(alarms) <==> exists a :: a in alarms && a.isRinging && a.id == k
  {
    IdsMember(RingingAlarms(alarms), k);
    forall a ensures a in RingingAlarms(alarms) <==> a in alarms && a.isRinging {
      FilterMember(alarms, Rings, a);
    }
  }

  // ---------------------------------------------------------------------------------------
  // Alarms that start ringing

  /** The ringing alarms the hook has not seen yet, in list order: those whose id is not in
      `seen`, and of several with one id only the first. */
  function Newcomers(rs: seq<Alarm>, seen: seq<string>): seq<Alarm>
    decreases |rs|
  {
    if rs == [] then []
    else
      var p := Newcomers(rs[..|rs| - 1], seen);
      var a := rs[|rs| - 1];
      if a.id in seen || a.id in Ids(p) then p else p + [a]
  }

  lemma NewcomersStep(rs: seq<Alarm>, i: int, seen: seq<string>)
    requires 0 <= i < |rs|
    ensures Newcomers(rs[..i + 1], seen) ==
      if rs[i].id in seen || rs[i].id in Ids(Newcomers(rs[..i], seen)) then Newcomers(rs[..i], seen)
      else Newcomers(rs[..i], seen) + [rs[i]]
  {
    assert rs[..i + 1][..i] == rs[..i];
  }

  /** The newcomers carry each id that is not yet seen exactly once, and nothing else. */
  lemma {:induction false} NewcomersSpec(rs: seq<Alarm>, seen: seq<string>)
    ensures Distinct(Ids(Newcomers(rs, seen)))
    ensures forall k :: k in Ids(Newcomers(rs, seen)) <==> k !in seen && k in Ids(rs)
    ensures forall a :: a in Newcomers(rs, seen) ==> a in rs
    decreases |rs|
  {
    if rs != [] {
      var init, a := rs[..|rs| - 1], rs[|rs| - 1];
      NewcomersSpec(init, seen);
      var p := Newcomers(init, seen);
      assert rs == init + [a];
      IdsConcat(init, [a]);
      if !(a.id in seen || a.id in Ids(p)) {
        IdsConcat(p, [a]);
        DistinctSnoc(Ids(p), a.id);
      }
    }
  }

  /** When nothing was seen, the first ringing alarm is the first newcomer. */
  lemma {:induction false} NewcomersFirst(rs: seq<Alarm>)
    requires rs != []
    ensures Newcomers(rs, []) != [] && Newcomers(rs, [])[0] == rs[0]
    decreases |rs|
  {
    if |rs| > 1 {
      NewcomersFirst(rs[..|rs| - 1]);
    }
  }

  /** The notifications recorded for the newcomers, by id. */
  function NoticeMap(fs: seq<Alarm>): (r: map<string, Notice>)
    decreases |fs|
  {
    if fs == [] then map[] else NoticeMap(fs[..|fs| - 1])[fs[|fs| - 1].id := NoticeOf(fs[|fs| - 1])]
  }

  /** Each newcomer's id maps to its own notification, and no other id is mapped. */
  lemma {:induction false} NoticeMapSpec(fs: seq<Alarm>)
    requires Distinct(Ids(fs))
    ensures forall k :: k in NoticeMap(fs) <==> k in Ids(fs)
    ensures forall a :: a in fs ==> NoticeMap(fs)[a.id] == NoticeOf(a)
    decreases |fs|
  {
    if fs != [] {
      var init, a := fs[..|fs| - 1], fs[|fs| - 1];
      assert fs == init + [a];
      IdsConcat(init, [a]);
      assert Distinct(Ids(init)) && a.id !in Ids(init) by {
        DistinctNotInPrefix(Ids(fs), |fs| - 1);
        assert Ids(fs)[..|fs| - 1] == Ids(init);
      }
      NoticeMapSpec(init);
      forall b | b in fs ensures NoticeMap(fs)[b.id] == NoticeOf(b) {
        if b != a {
          assert b in init;
          IdsMember(init, b.id);
        }
      }
    }
  }

  lemma NoticeMapSnoc(fs: seq<Alarm>, a: Alarm)
    ensures NoticeMap(fs + [a]) == NoticeMap(fs)[a.id := NoticeOf(a)]
  {
    assert (fs + [a])[..|fs|] == fs;
  }

  lemma MapUnionUpdate(n: map<string, Notice>, m: map<string, Notice>, k: string, v: Notice)
    ensures n + m[k := v] == (n + m)[k := v]
  {
  }

  /** An alarm whose id is already active or already admitted adds no newcomer. */
  lemma AdmitSkip(ringing: seq<Alarm>, i: int, active0: seq<string>, p: seq<Alarm>)
    requires 0 <= i < |ringing| && p == Newcomers(ringing[..i], active0)
    requires ringing[i].id in active0 + Ids(p)
    ensures Newcomers(ringing[..i + 1], active0) == p
  {
    NewcomersStep(ringing, i, active0);
  }

  /** Any other alarm is the next newcomer. */
  lemma AdmitNew(ringing: seq<Alarm>, i: int, active0: seq<string>, p: seq<Alarm>)
    requires 0 <= i < |ringing| && p == Newcomers(ringing[..i], active0)
    requires ringing[i].id !in active0 + Ids(p)
    ensures Newcomers(ringing[..i + 1], active0) == p + [ringing[i]]
    ensures active0 + Ids(p + [ringing[i]]) == active0 + Ids(p) + [ringing[i].id]
    ensures NoticesOf(p + [ringing[i]]) == NoticesOf(p) + [NoticeOf(ringing[i])]
    ensures NoticeMap(p + [ringing[i]]) == NoticeMap(p)[ringing[i].id := NoticeOf(ringing[i])]
  {
    NewcomersStep(ringing, i, active0);
    IdsConcat(p, [ringing[i]]);
    NoticesOfConcat(p, [ringing[i]]);
    NoticeMapSnoc(p, ringing[i]);
  }

  /** The loop over the ringing alarms (`ringingAlarms.forEach`): each id not yet active is
      added; the sound plays when that makes it the only active id; with notifications on and
      permitted, its notification is shown and recorded. */
  method Admit(ringing: seq<Alarm>, active0: seq<string>, notes0: map<string, Notice>,
               enableNotifications: bool, permitted: bool)
      returns (active: seq<string>, notes: map<string, Notice>, plays: seq<string>, shown: seq<Notice>)
    ensures active == active0 + Ids(Newcomers(ringing, active0))
    ensures notes == if enableNotifications && permitted then notes0 + NoticeMap(Newcomers(ringing, active0)) else notes0
    ensures plays == if active0 == [] && Newcomers(ringing, active0) != [] then [Newcomers(ringing, active0)[0].sound] else []
    ensures shown == if enableNotifications && permitted then NoticesOf(Newcomers(ringing, active0)) else []
  {
    active, notes, plays, shown := active0, notes0, [], [];
    var notify := enableNotifications && permitted;
    ghost var p: seq<Alarm> := [];
    var i := 0;
    while i < |ringing|
      invariant 0 <= i <= |ringing|
      invariant p == Newcomers(ringing[..i], active0)
      invariant active == active0 + Ids(p)
      invariant notes == if notify then notes0 + NoticeMap(p) else notes0
      invariant plays == if active0 == [] && p != [] then [p[0].sound] else []
      invariant shown == if notify then NoticesOf(p) else []
    {
      var alarm := ringing[i];
      var isNew := alarm.id !in active;
      if isNew {
        AdmitNew(ringing, i, active0, p);
        MapUnionUpdate(notes0, NoticeMap(p), alarm.id, NoticeOf(alarm));
        assert |active| == |active0| + |p|;
        assert p != [] ==> (p + [alarm])[0] == p[0];
        active := active + [alarm.id];
      } else {
        AdmitSkip(ringing, i, active0, p);
      }
      if isNew && |active| == 1 {
        plays := plays + [alarm.sound];
      }
      if isNew && enableNotifications && permitted {
        var notification := NoticeOf(alarm);
        shown := shown + [notification];
        notes := notes[alarm.id := notification];
      }
      if isNew {
        p := p + [alarm];
      }
      i := i + 1;
    }
    assert ringing[..|ringing|] == ringing;
  }

  // ---------------------------------------------------------------------------------------
  // Alarms that stop ringing

  /** The recorded notifications of the ids `ks`, in that order (ids without one skipped). */
  function NoticesFor(ks: seq<string>, notes: map<string, Notice>): seq<Notice>
    decreases |ks|
  {
    if ks == [] then []
    else NoticesFor(ks[..|ks| - 1], notes) + if ks[|ks| - 1] in notes then [notes[ks[|ks| - 1]]] else []
  }

  lemma NoticesForSnoc(ks: seq<string>, k: string, notes: map<string, Notice>)
    ensures NoticesFor(ks + [k], notes) == NoticesFor(ks, notes) + if k in notes then [notes[k]] else []
  {
    assert (ks + [k])[..|ks|] == ks;
  }

  /** Notifications recorded for other ids do not matter. */
  lemma {:induction false} NoticesForIgnores(ks: seq<string>, notes: map<string, Notice>, more: map<string, Notice>)
    requires forall k :: k in ks ==> k !in more
    ensures NoticesFor(ks, notes + more) == NoticesFor(ks, notes)
    decreases |ks|
  {
    if ks != [] {
      NoticesForIgnores(ks[..|ks| - 1], notes, more);
    }
  }

  /** Every recorded notification of one of the ids is among them. */
  lemma {:induction false} NoticesForCovers(ks: seq<string>, notes: map<string, Notice>, k: string)
    requires k in ks && k in notes
    ensures notes[k] in NoticesFor(ks, notes)
    decreases |ks|
  {
    if ks[|ks| - 1] != k {
      assert ks == ks[..|ks| - 1] + [ks[|ks| - 1]];
      NoticesForCovers(ks[..|ks| - 1], notes, k);
    }
  }

  /** The record of notifications once the ids of `done` that are not in `keep` have been
      visited, each dropping its notification. */
  function Retired(notes: map<string, Notice>, done: seq<string>, keep: seq<string>): map<string, Notice>
    decreases |done|
  {
    if done == [] then notes
    else
      var r := Retired(notes, done[..|done| - 1], keep);
      if done[|done| - 1] in keep then r else r - {done[|done| - 1]}
  }

  /** Exactly the visited ids that are not kept lose their notification; the rest keep theirs. */
  lemma {:induction false} RetiredSpec(notes: map<string, Notice>, done: seq<string>, keep: seq<string>)
    ensures forall k :: k in Retired(notes, done, keep) <==> k in notes && (k !in done || k in keep)
    ensures forall k :: k in Retired(notes, done, keep) ==> Retired(notes, done, keep)[k] == notes[k]
    decreases |done|
  {
    if done != [] {
      RetiredSpec(notes, done[..|done| - 1], keep);
      assert done == done[..|done| - 1] + [done[|done| - 1]];
    }
  }

  lemma RetiredStep(notes: map<string, Notice>, ids: seq<string>, j: int, keep: seq<string>)
    requires 0 <= j < |ids|
    ensures Retired(notes, ids[..j + 1], keep) ==
      if ids[j] in keep then Retired(notes, ids[..j], keep) else Retired(notes, ids[..j], keep) - {ids[j]}
  {
    assert ids[..j + 1][..j] == ids[..j];
  }

  lemma FilterStep(ids: seq<string>, j: int, f: string -> bool)
    requires 0 <= j < |ids|
    ensures Filter(ids[..j + 1], f) == Filter(ids[..j], f) + if f(ids[j]) then [ids[j]] else []
  {
    assert ids[..j + 1] == ids[..j] + [ids[j]];
    FilterConcat(ids[..j], [ids[j]], f);
  }

  /** Deleting the next id from the part of the set not yet visited. */
  lemma DeleteNext(ids: seq<string>, j: int, kept: seq<string>)
    requires Distinct(ids) && 0 <= j < |ids|
    requires forall k :: k in kept ==> k in ids[..j]
    ensures Filter(kept + ids[j..], NotKey(ids[j])) == kept + ids[j + 1..]
  {
    var x, rest := ids[j], ids[j + 1..];
    DistinctNotInPrefix(ids, j);
    assert x !in kept;
    assert ids[j..] == [x] + rest;
    FilterConcat(kept, [x] + rest, NotKey(x));
    assert ([x] + rest)[1..] == rest;
    assert Filter([x] + rest, NotKey(x)) == Filter(rest, NotKey(x));
    FilterNotKeyAbsent(kept, x);
    FilterNotKeyAbsent(rest, x);
  }

  /** Visiting an id that still rings keeps it and its notification. */
  lemma RetireKeep(ids: seq<string>, j: int, keep: seq<string>, notes0: map<string, Notice>)
    requires Distinct(ids) && 0 <= j < |ids| && ids[j] in keep
    ensures Filter(ids[..j], InSeq(keep)) + ids[j..] == Filter(ids[..j + 1], InSeq(keep)) + ids[j + 1..]
    ensures Filter(ids[..j + 1], NotInSeq(keep)) == Filter(ids[..j], NotInSeq(keep))
    ensures Retired(notes0, ids[..j + 1], keep) == Retired(notes0, ids[..j], keep)
  {
    FilterStep(ids, j, InSeq(keep));
    FilterStep(ids, j, NotInSeq(keep));
    RetiredStep(notes0, ids, j, keep);
    assert ids[j..] == [ids[j]] + ids[j + 1..];
  }

  /** Visiting an id that no longer rings deletes it from the set, ... */
  lemma RetireDropActive(ids: seq<string>, j: int, keep: seq<string>)
    requires Distinct(ids) && 0 <= j < |ids| && ids[j] !in keep
    ensures Filter(Filter(ids[..j], InSeq(keep)) + ids[j..], NotKey(ids[j])) == Filter(ids[..j + 1], InSeq(keep)) + ids[j + 1..]
  {
    var kept := Filter(ids[..j], InSeq(keep));
    FilterStep(ids, j, InSeq(keep));
    forall k | k in kept ensures k in ids[..j] {
      FilterMember(ids[..j], InSeq(keep), k);
    }
    DeleteNext(ids, j, kept);
  }

  /** ... drops its notification from the record ... */
  lemma RetireDropNotes(ids: seq<string>, j: int, keep: seq<string>, notes0: map<string, Notice>)
    requires 0 <= j < |ids| && ids[j] !in keep
    ensures var r := Retired(notes0, ids[..j], keep);
      Retired(notes0, ids[..j + 1], keep) == if ids[j] in r then r - {ids[j]} else r
  {
    RetiredStep(notes0, ids, j, keep);
  }

  /** ... and closes it. */
  lemma RetireDropClosed(ids: seq<string>, j: int, keep: seq<string>, notes0: map<string, Notice>)
    requires Distinct(ids) && 0 <= j < |ids| && ids[j] !in keep
    ensures var r := Retired(notes0, ids[..j], keep);
      NoticesFor(Filter(ids[..j + 1], NotInSeq(keep)), notes0) ==
        NoticesFor(Filter(ids[..j], NotInSeq(keep)), notes0) + if ids[j] in r then [r[ids[j]]] else []
  {
    FilterStep(ids, j, NotInSeq(keep));
    NoticesForSnoc(Filter(ids[..j], NotInSeq(keep)), ids[j], notes0);
    RetiredSpec(notes0, ids[..j], keep);
    DistinctNotInPrefix(ids, j);
  }

  /** The loop over the active ids (`activeAlarmIds.forEach`): an id that no longer rings is
      deleted from the set, and its recorded notification, if any, is closed and dropped. */
  method Retire(ids: seq<string>, keep: seq<string>, notes0: map<string, Notice>)
      returns (active: seq<string>, notes: map<string, Notice>, closed: seq<Notice>)
    requires Distinct(ids)
    ensures active == Filter(ids, InSeq(keep))
    ensures notes == Retired(notes0, ids, keep)
    ensures closed == NoticesFor(Filter(ids, NotInSeq(keep)), notes0)
  {
    active, notes, closed := ids, notes0, [];
    var j := 0;
    assert ids[..0] == [];
    assert notes == Retired(notes0, ids[..0], keep);
    while j < |ids|
      invariant 0 <= j <= |ids|
      invariant active == Filter(ids[..j], InSeq(keep)) + ids[j..]
      invariant notes == Retired(notes0, ids[..j], keep)
      invariant closed == NoticesFor(Filter(ids[..j], NotInSeq(keep)), notes0)
    {
      var alarmId := ids[j];
      if alarmId !in keep {
        RetireDropActive(ids, j, keep);
        RetireDropNotes(ids, j, keep, notes0);
        RetireDropClosed(ids, j, keep, notes0);
        active := Filter(active, NotKey(alarmId));
        if alarmId in notes {
          closed := closed + [notes[alarmId]];
          notes := notes - {alarmId};
        }
      } else {
        RetireKeep(ids, j, keep, notes0);
      }
      j := j + 1;
    }
    assert ids[..|ids|] == ids;
  }

  /** `forEach(notification => notification.close())` over the recorded notifications, in the
      order their ids became active (the insertion order of the record). */
  method CloseAll(ks: seq<string>, notes: map<string, Notice>) returns (closed: seq<Notice>)
    ensures closed == NoticesFor(ks, notes)
  {
    closed := [];
    var i := 0;
    while i < |ks|
      invariant 0 <= i <= |ks|
      invariant closed == NoticesFor(ks[..i], notes)
    {
      NoticesForSnoc(ks[..i], ks[i], notes);
      assert ks[..i + 1] == ks[..i] + [ks[i]];
      if ks[i] in notes {
        closed := closed + [notes[ks[i]]];
      }
      i := i + 1;
    }
    assert ks[..|ks|] == ks;
  }

  // ---------------------------------------------------------------------------------------
  // One run of the reconciliation effect

  /** After the two loops, the active ids are the ringing ids, each once. */
  lemma ActiveAfter(active0: seq<string>, added: seq<string>, ringingIds: seq<string>)
    requires Distinct(active0) && Distinct(added)
    requires forall k :: k in added <==> k !in active0 && k in ringingIds
    ensures Distinct(active0 + added) && Distinct(Filter(active0 + added, InSeq(ringingIds)))
    ensures forall k :: k in Filter(active0 + added, InSeq(ringingIds)) <==> k in ringingIds
  {
    DistinctConcat(active0, added);
    FilterKeepsDistinct(active0 + added, InSeq(ringingIds));
    forall k ensures k in Filter(active0 + added, InSeq(ringingIds)) <==> k in ringingIds {
      FilterMember(active0 + added, InSeq(ringingIds), k);
    }
  }

  /** The ids that stop ringing are all old ones, and the newly recorded notifications belong
      to new ones: the notifications closed are those recorded before. */
  lemma ClosedAfter(active0: seq<string>, added: seq<string>, ringingIds: seq<string>,
                    notes0: map<string, Notice>, more: map<string, Notice>)
    requires forall k :: k in added ==> k !in active0 && k in ringingIds
    requires forall k :: k in more ==> k in added
    ensures NoticesFor(Filter(active0 + added, NotInSeq(ringingIds)), notes0 + more) ==
      NoticesFor(Filter(active0, NotInSeq(ringingIds)), notes0)
    ensures NoticesFor(Filter(active0 + added, NotInSeq(ringingIds)), notes0) ==
      NoticesFor(Filter(active0, NotInSeq(ringingIds)), notes0)
  {
    FilterConcat(active0, added, NotInSeq(ringingIds));
    assert forall i :: 0 <= i < |added| ==> added[i] in added;
    FilterNone(added, NotInSeq(ringingIds));
    assert Filter(active0 + added, NotInSeq(ringingIds)) == Filter(active0, NotInSeq(ringingIds));
    forall k | k in Filter(active0, NotInSeq(ringingIds)) ensures k !in more {
      FilterMember(active0, NotInSeq(ringingIds), k);
    }
    NoticesForIgnores(Filter(active0, NotInSeq(ringingIds)), notes0, more);
  }

  /** Which notifications are recorded after the two loops, and that each is the one recorded
      when its alarm started ringing. */
  lemma NotesAfter(active0: seq<string>, arrivals: seq<Alarm>, ringingIds: seq<string>, notes0: map<string, Notice>,
                   noted: map<string, Notice>, notes: map<string, Notice>, notify: bool)
    requires forall k :: k in notes0 ==> k in active0
    requires Distinct(Ids(arrivals))
    requires forall k :: k in Ids(arrivals) ==> k !in active0 && k in ringingIds
    requires noted == if notify then notes0 + NoticeMap(arrivals) else notes0
    requires notes == Retired(noted, active0 + Ids(arrivals), ringingIds)
    ensures forall k :: k in notes <==> k in ringingIds && (k in notes0 || (notify && k in Ids(arrivals)))
    ensures forall k :: k in notes0 && k in notes ==> notes[k] == notes0[k]
    ensures notify ==> forall a :: a in arrivals ==> a.id in notes && notes[a.id] == NoticeOf(a)
  {
    RetiredSpec(noted, active0 + Ids(arrivals), ringingIds);
    NoticeMapSpec(arrivals);
    forall a | a in arrivals ensures a.id in Ids(arrivals) {
      IdsMember(arrivals, a.id);
    }
  }

  /** What one run of the effect promises, from the alarms, whether notifications are shown
      (`notify`: enabled and permitted), and the active ids, record and logs before (`…0`) and
      after it: the active ids are exactly the ringing ids, each once, those already active
      first; the first ringing alarm's sound is asked for only when nothing was active; each
      newly ringing alarm gets its notification shown and recorded; the notifications of the
      ids that stopped ringing are closed and dropped, and the others are kept; audio is asked
      to stop exactly when nothing rings. */
  ghost predicate Reconciled(alarms: seq<Alarm>, notify: bool,
                             active0: seq<string>, notes0: map<string, Notice>, plays0: seq<string>,
                             shown0: seq<Notice>, closed0: seq<Notice>, stops0: nat,
                             active: seq<string>, notes: map<string, Notice>, plays: seq<string>,
                             shown: seq<Notice>, closed: seq<Notice>, stops: nat, ringing: bool)
  {
    var arrivals := Newcomers(RingingAlarms(alarms), active0);
    && Distinct(active) && (forall k :: k in notes ==> k in active)
    && (forall k :: k in active <==> k in RingingIds(alarms))
    && active == Filter(active0 + Ids(arrivals), InSeq(RingingIds(alarms)))
    && plays == plays0 + (if active0 == [] && RingingAlarms(alarms) != [] then [RingingAlarms(alarms)[0].sound] else [])
    && shown == shown0 + (if notify then NoticesOf(arrivals) else [])
    && closed == closed0 + NoticesFor(Filter(active0, NotInSeq(RingingIds(alarms))), notes0)
    && (forall k :: k in notes <==> k in RingingIds(alarms) && (k in notes0 || (notify && k in Ids(arrivals))))
    && (forall k :: k in notes0 && k in notes ==> notes[k] == notes0[k])
    && (notify ==> forall a :: a in arrivals ==> a.id in notes && notes[a.id] == NoticeOf(a))
    && stops == stops0 + (if RingingAlarms(alarms) == [] then 1 else 0)
    && ringing == (RingingAlarms(alarms) != [])
  }

  /** One run of the effect, on the hook's state before it. */
  method ReconcileLists(alarms: seq<Alarm>, enableNotifications: bool, permitted: bool,
                        active0: seq<string>, notes0: map<string, Notice>, plays0: seq<string>,
                        shown0: seq<Notice>, closed0: seq<Notice>, stops0: nat)
      returns (active: seq<string>, notes: map<string, Notice>, plays: seq<string>, shown: seq<Notice>,
               closed: seq<Notice>, stops: nat, ringing: bool)
    requires Distinct(active0) && forall k :: k in notes0 ==> k in active0
    ensures Reconciled(alarms, enableNotifications && permitted, active0, notes0, plays0, shown0, closed0, stops0,
                       active, notes, plays, shown, closed, stops, ringing)
  {
    var ringingAlarms := RingingAlarms(alarms);
    var ringingIds := Ids(ringingAlarms);
    var arrivals := Newcomers(ringingAlarms, active0);
    NewcomersSpec(ringingAlarms, active0);
    NoticeMapSpec(arrivals);
    var admitted, noted, played, newShown, newClosed;
    admitted, noted, played, newShown := Admit(ringingAlarms, active0, notes0, enableNotifications, permitted);
    ActiveAfter(active0, Ids(arrivals), ringingIds);
    active, notes, newClosed := Retire(admitted, ringingIds, noted);
    ClosedAfter(active0, Ids(arrivals), ringingIds, notes0, NoticeMap(arrivals));
    NotesAfter(active0, arrivals, ringingIds, notes0, noted, notes, enableNotifications && permitted);
    if active0 == [] && ringingAlarms != [] {
      NewcomersFirst(ringingAlarms);
    }
    NothingActive(active, ringingIds);
    assert RingingIds(alarms) == ringingIds;
    assert forall k :: k in active <==> k in ringingIds;
    assert newClosed == NoticesFor(Filter(active0, NotInSeq(ringingIds)), notes0) by {
      if enableNotifications && permitted {
        assert noted == notes0 + NoticeMap(arrivals);
      } else {
        assert noted == notes0;
      }
    }
    plays, shown, closed := plays0 + played, shown0 + newShown, closed0 + newClosed;
    var silent := |ringingIds| == 0 && |active| == 0;
    stops := stops0 + if silent then 1 else 0;
    ringing := !silent;
  }

  /** With nothing ringing, nothing stays active. */
  lemma NothingActive(active: seq<string>, ringingIds: seq<string>)
    requires forall k :: k in active <==> k in ringingIds
    ensures ringingIds == [] ==> active == []
  {
    if active != [] {
      assert active[0] in ringingIds;
    }
  }

  /** The hook's own state: the active ids (a `Set`, here in insertion order), the notification
      recorded per id, and the logs of what it asked of the audio engine, the notification API
      and the store. */
  class AlarmSoundHook {
    var active: seq<string>
    var notifications: map<string, Notice>
    var lastRingingState: bool
    /** The sounds `audioEngine.play` was asked for. */
    var plays: seq<string>
    /** How many times `audioEngine.stop` was called. */
    var stopRequests: nat
    var shown: seq<Notice>
    var closed: seq<Notice>
    var storeCalls: seq<StoreCall>

    /** No id is active twice, and only active ids have a recorded notification. */
    ghost predicate Valid()
      reads this
    {
      Distinct(active) && forall k :: k in notifications ==> k in active
    }

    constructor ()
      ensures Valid() && active == [] && notifications == map[] && !lastRingingState
      ensures plays == [] && stopRequests == 0 && shown == [] && closed == [] && storeCalls == []
    {
      active, notifications, lastRingingState := [], map[], false;
      plays, stopRequests, shown, closed, storeCalls := [], 0, [], [], [];
    }

    /** The effect run when the alarms (or the notification setting) change. Afterwards the
        active ids are exactly the ringing ids; the sound of the first ringing alarm plays only
        when nothing was active before; each newly ringing alarm gets one notification when
        notifications are on and permitted; every id that stopped ringing has its notification
        closed; audio stops exactly when nothing rings. */
    method Reconcile(alarms: seq<Alarm>, enableNotifications: bool, permitted: bool)
      requires Valid()
      modifies this
      ensures Valid()
      ensures Reconciled(alarms, enableNotifications && permitted,
                         old(active), old(notifications), old(plays), old(shown), old(closed), old(stopRequests),
                         active, notifications, plays, shown, closed, stopRequests, lastRingingState)
      ensures storeCalls == old(storeCalls)
    {
      active, notifications, plays, shown, closed, stopRequests, lastRingingState :=
        ReconcileLists(alarms, enableNotifications, permitted, active, notifications, plays, shown, closed, stopRequests);
    }

    /** The effect's cleanup: every recorded notification is closed and the record emptied. */
    method Cleanup()
      requires Valid()
      modifies this
      ensures Valid() && notifications == map[]
      ensures closed == old(closed) + NoticesFor(old(active), old(notifications))
      ensures active == old(active) && lastRingingState == old(lastRingingState) && plays == old(plays)
      ensures stopRequests == old(stopRequests) && shown == old(shown) && storeCalls == old(storeCalls)
    {
      var c := CloseAll(active, notifications);
      closed := closed + c;
      notifications := map[];
    }

    /** `stopAlarm(alarmId)`. A non-empty id: the store stops that alarm, the id leaves the
        active set, its notification is closed, and audio stops when nothing is left active.
        No id, or the empty string (which JavaScript treats as false): the store stops every
        alarm, everything is cleared and audio always stops. */
    method StopAlarm(alarmId: Option<string>)
      requires Valid()
      modifies this
      ensures Valid()
      ensures alarmId.Some? && alarmId.value != "" ==>
        && storeCalls == old(storeCalls) + [SetRingingOff(alarmId.value)]
        && active == Filter(old(active), NotKey(alarmId.value))
        && notifications == old(notifications) - {alarmId.value}
        && closed == old(closed) + (if alarmId.value in old(notifications) then [old(notifications)[alarmId.value]] else [])
        && stopRequests == old(stopRequests) + (if active == [] then 1 else 0)
      ensures alarmId.None? || alarmId.value == "" ==>
        && storeCalls == old(storeCalls) + [StopAllAlarmsCall]
        && active == [] && notifications == map[]
        && closed == old(closed) + NoticesFor(old(active), old(notifications))
        && stopRequests == old(stopRequests) + 1
      ensures plays == old(plays) && shown == old(shown) && lastRingingState == old(lastRingingState)
    {
      if alarmId.Some? && alarmId.value != "" {
        var id := alarmId.value;
        storeCalls := storeCalls + [SetRingingOff(id)];
        Release(id);
      } else {
        storeCalls := storeCalls + [StopAllAlarmsCall];
        var order := active;
        active := [];
        var c := CloseAll(order, notifications);
        closed := closed + c;
        notifications := map[];
        stopRequests := stopRequests + 1;
      }
    }

    /** `snooze(alarmId)`: the store snoozes the alarm; the id leaves the active set, its
        notification is closed, and audio stops when nothing is left active. */
    method Snooze(alarmId: string)
      requires Valid()
      modifies this
      ensures Valid()
      ensures storeCalls == old(storeCalls) + [SnoozeAlarmCall(alarmId)]
      ensures active == Filter(old(active), NotKey(alarmId)) && alarmId !in active
      ensures notifications == old(notifications) - {alarmId}
      ensures closed == old(closed) + if alarmId in old(notifications) then [old(notifications)[alarmId]] else []
      ensures stopRequests == old(stopRequests) + if active == [] then 1 else 0
      ensures plays == old(plays) && shown == old(shown) && lastRingingState == old(lastRingingState)
    {
      storeCalls := storeCalls + [SnoozeAlarmCall(alarmId)];
      Release(alarmId);
    }

    /** The part `stopAlarm(id)` and `snooze(id)` share. */
    method Release(id: string)
      requires Valid()
      modifies this
      ensures Valid()
      ensures active == Filter(old(active), NotKey(id)) && id !in active
      ensures notifications == old(notifications) - {id}
      ensures closed == old(closed) + if id in old(notifications) then [old(notifications)[id]] else []
      ensures stopRequests == old(stopRequests) + if active == [] then 1 else 0
      ensures plays == old(plays) && shown == old(shown) && lastRingingState == old(lastRingingState)
      ensures storeCalls == old(storeCalls)
    {
      FilterKeepsDistinct(active, NotKey(id));
      forall k ensures k in Filter(active, NotKey(id)) <==> k in active && k != id {
        FilterMember(active, NotKey(id), k);
      }
      active := Filter(active, NotKey(id));
      if id in notifications {
        closed := closed + [notifications[id]];
        notifications := notifications - {id};
      }
      if |active| == 0 {
        stopRequests := stopRequests + 1;
      }
    }

    /** A click on an alarm's notification: `stopAlarm(alarm.id)`, then the clicked
        notification is closed. */
    method NotificationClicked(alarm: Alarm)
      requires Valid()
      modifies this
      ensures Valid()
      ensures alarm.id != "" ==> storeCalls == old(storeCalls) + [SetRingingOff(alarm.id)] && alarm.id !in active
      ensures alarm.id == "" ==> storeCalls == old(storeCalls) + [StopAllAlarmsCall] && active == []
      ensures |closed| > |old(closed)| && closed[|closed| - 1] == NoticeOf(alarm)
    {
      StopAlarm(Some(alarm.id));
      closed := closed + [NoticeOf(alarm)];
    }
  }

  /** The cleanup closes every notification the hook has recorded. */
  lemma CleanupClosesAll(active: seq<string>, notes: map<string, Notice>)
    requires forall k :: k in notes ==> k in active
    ensures forall k :: k in notes ==> notes[k] in NoticesFor(active, notes)
  {
    forall k | k in notes ensures notes[k] in NoticesFor(active, notes) {
      NoticesForCovers(active, notes, k);
    }
  }

  /** One run of the effect asks for at most one sound, and only when nothing was active. */
  lemma AtMostOnePlay(alarms: seq<Alarm>, active0: seq<string>)
    ensures var plays := if active0 == [] && RingingAlarms(alarms) != [] then [RingingAlarms(alarms)[0].sound] else [];
      |plays| <= 1 && (plays != [] ==> active0 == [] && exists a :: a in alarms && a.isRinging && a.sound == plays[0])
  {
    if active0 == [] && RingingAlarms(alarms) != [] {
      var a := RingingAlarms(alarms)[0];
      FilterMember(alarms, Rings, a);
    }
  }
}
