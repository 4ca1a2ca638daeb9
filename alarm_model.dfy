/** The alarm record and the list transforms of the alarm store: every action builds a new
    alarm list with `map`, `filter`, spread and a stable sort by time. */
module AlarmModel {
  import opened Wrappers
  import opened Seqs
  import TimeUtils

  /** One alarm; times are milliseconds since the epoch. */
  datatype Alarm = Alarm(
    id: string,
    time: int,
    isActive: bool,
    sound: string,
    volume: real,
    labelText: string,
    isRinging: bool,
    createdAt: int,
    lastTriggered: Option<int>,
    snoozeCount: int,
    isRecurring: bool,
    recurringDays: Option<seq<int>>)

  /** `Partial<Alarm>`: every field that is present overrides the alarm's own. The two optional
      fields can also be given explicitly as `undefined`, hence the nested option. */
  datatype AlarmPatch = AlarmPatch(
    id: Option<string>,
    time: Option<int>,
    isActive: Option<bool>,
    sound: Option<string>,
    volume: Option<real>,
    labelText: Option<string>,
    isRinging: Option<bool>,
    createdAt: Option<int>,
    lastTriggered: Option<Option<int>>,
    snoozeCount: Option<int>,
    isRecurring: Option<bool>,
    recurringDays: Option<Option<seq<int>>>)

  /** `{}` */
  const NoChanges: AlarmPatch :=
    AlarmPatch(None, None, None, None, None, None, None, None, None, None, None, None)

  /** `{ ...a, ...p }` */
  function ApplyPatch(a: Alarm, p: AlarmPatch): Alarm {
    Alarm(
      p.id.GetOr(a.id), p.time.GetOr(a.time), p.isActive.GetOr(a.isActive),
      p.sound.GetOr(a.sound), p.volume.GetOr(a.volume), p.labelText.GetOr(a.labelText),
      p.isRinging.GetOr(a.isRinging), p.createdAt.GetOr(a.createdAt),
      p.lastTriggered.GetOr(a.lastTriggered), p.snoozeCount.GetOr(a.snoozeCount),
      p.isRecurring.GetOr(a.isRecurring), p.recurringDays.GetOr(a.recurringDays))
  }

  /** The empty patch changes nothing, and applying a patch twice is applying it once. */
  lemma PatchLaws(a: Alarm, p: AlarmPatch)
    ensures ApplyPatch(a, NoChanges) == a
    ensures ApplyPatch(ApplyPatch(a, p), p) == ApplyPatch(a, p)
    ensures p.time.None? ==> ApplyPatch(a, p).time == a.time
  {}

  /** The alarm `addAlarm(time, label, options)` creates: active, not ringing, never snoozed,
      not recurring, with the store's current sound and volume, every field overridable by
      `options`. `id` and `createdAt` are the fresh id and the creation instant. */
  function NewAlarm(id: string, time: int, labelText: string, options: AlarmPatch,
                    selectedSound: string, volume: real, createdAt: int): (r: Alarm)
    ensures r.id == options.id.GetOr(id) && r.time == options.time.GetOr(time)
    ensures r.labelText == options.labelText.GetOr(labelText) && r.createdAt == options.createdAt.GetOr(createdAt)
    ensures r.isActive == options.isActive.GetOr(true) && r.isRinging == options.isRinging.GetOr(false)
    ensures r.sound == options.sound.GetOr(selectedSound) && r.volume == options.volume.GetOr(volume)
    ensures r.snoozeCount == options.snoozeCount.GetOr(0) && r.isRecurring == options.isRecurring.GetOr(false)
    ensures r.lastTriggered == options.lastTriggered.GetOr(None)
    ensures r.recurringDays == options.recurringDays.GetOr(None)
  {
    ApplyPatch(Alarm(id, time, true, selectedSound, volume, labelText, false, createdAt, None, 0, false, None), options)
  }

  // ---------------------------------------------------------------------------------------
  // Order by time

  function TimeOf(a: Alarm): int {
    a.time
  }

  predicate SortedByTime(s: seq<Alarm>) {
    SortedBy(s, TimeOf)
  }

  /** `[...].sort((a, b) => a.time - b.time)`: `Array.prototype.sort` is stable. */
  function SortByTime(s: seq<Alarm>): seq<Alarm> {
    SortBy(s, TimeOf)
  }

  /** The sort returns the same alarms, ordered by time, and alarms set for the same instant stay
      in the order they had; a list that is already sorted comes back unchanged. */
  lemma SortByTimeSpec(s: seq<Alarm>, k: int)
    ensures SortedByTime(SortByTime(s)) && multiset(SortByTime(s)) == multiset(s)
    ensures Filter(SortByTime(s), HasKey(TimeOf, k)) == Filter(s, HasKey(TimeOf, k))
    ensures SortedByTime(s) ==> SortByTime(s) == s
  {
    SortBySorts(s, TimeOf);
    SortByStable(s, TimeOf, k);
    if SortedByTime(s) {
      SortSortedIsIdentity(s, TimeOf);
    }
  }

  /** Adding one alarm to a sorted list and sorting the lot places it after every alarm that is
      not later than it: the list stays sorted and holds exactly one alarm more. */
  lemma AddKeepsOrder(s: seq<Alarm>, a: Alarm)
    requires SortedByTime(s)
    ensures SortByTime(s + [a]) == InsertBy(s, a, TimeOf)
    ensures SortedByTime(SortByTime(s + [a]))
    ensures multiset(SortByTime(s + [a])) == multiset(s) + multiset{a}
    ensures AnyRinging(SortByTime(s + [a])) <==> AnyRinging(s) || a.isRinging
  {
    AppendThenSort(s, a, TimeOf);
    InsertKeepsSorted(s, a, TimeOf);
    InsertByPermutes(s, a, TimeOf);
    var r := SortByTime(s + [a]);
    forall x ensures x in r <==> x in s || x == a {
      assert x in r <==> x in multiset(r);
      assert x in s <==> x in multiset(s);
    }
  }

  // ---------------------------------------------------------------------------------------
  // The minute trigger

  /** What `updateCurrentTime` checks of each alarm. */
  predicate ShouldTrigger(a: Alarm, now: int) {
    a.isActive && !a.isRinging && TimeUtils.IsSameTimeIgnoreSeconds(a.time, now)
  }

  function Trigger(a: Alarm, now: int): Alarm {
    if ShouldTrigger(a, now) then a.(isRinging := true, lastTriggered := Some(now)) else a
  }

  /** The `alarms.map(...)` of `updateCurrentTime`. */
  function TriggerAll(s: seq<Alarm>, now: int): seq<Alarm> {
    seq(|s|, i requires 0 <= i < |s| => Trigger(s[i], now))
  }

  predicate AnyShouldTrigger(s: seq<Alarm>, now: int) {
    exists i :: 0 <= i < |s| && ShouldTrigger(s[i], now)
  }

  function ShouldTriggerAt(now: int): Alarm -> bool {
    (a: Alarm) => ShouldTrigger(a, now)
  }

  function Ids(s: seq<Alarm>): (r: seq<string>)
    ensures |r| == |s| && forall i :: 0 <= i < |s| ==> r[i] == s[i].id
  {
    seq(|s|, i requires 0 <= i < |s| => s[i].id)
  }

  lemma IdsConcat(s: seq<Alarm>, t: seq<Alarm>)
    ensures Ids(s + t) == Ids(s) + Ids(t)
  {
    assert forall i :: 0 <= i < |s + t| ==> Ids(s + t)[i] == (Ids(s) + Ids(t))[i];
  }

  /** An id is listed exactly when some alarm carries it. */
  lemma IdsMember(s: seq<Alarm>, k: string)
    ensures k in Ids(s) <==> exists a :: a in s && a.id == k
  {
    if k in Ids(s) {
      var i :| 0 <= i < |s| && Ids(s)[i] == k;
      assert s[i] in s;
    }
  }

  /** The ids of the alarms the trigger fires, in list order. */
  function TriggeredIds(s: seq<Alarm>, now: int): seq<string> {
    Ids(Filter(s, ShouldTriggerAt(now)))
  }

  /** Exactly the active, not yet ringing alarms of the current minute start ringing, with
      `lastTriggered` set to now; every other alarm is unchanged, no time moves, so the order is
      kept; and no alarm ever stops ringing here. */
  lemma TriggerAllSpec(s: seq<Alarm>, now: int)
    ensures |TriggerAll(s, now)| == |s|
    ensures forall i :: 0 <= i < |s| ==>
      var r := TriggerAll(s, now)[i];
      && (ShouldTrigger(s[i], now) ==> r == s[i].(isRinging := true, lastTriggered := Some(now)))
      && (!ShouldTrigger(s[i], now) ==> r == s[i])
      && r.time == s[i].time && r.id == s[i].id
      && (s[i].isRinging ==> r.isRinging)
    ensures SortedByTime(s) ==> SortedByTime(TriggerAll(s, now))
    ensures (exists i :: 0 <= i < |s| && TriggerAll(s, now)[i] != s[i]) <==> AnyShouldTrigger(s, now)
  {
    var r := TriggerAll(s, now);
    if exists i :: 0 <= i < |s| && r[i] != s[i] {
      var i :| 0 <= i < |s| && r[i] != s[i];
      assert ShouldTrigger(s[i], now);
    }
    if AnyShouldTrigger(s, now) {
      var i :| 0 <= i < |s| && ShouldTrigger(s[i], now);
      assert r[i].isRinging != s[i].isRinging;
    }
  }

  /** An alarm set on a whole minute fires on a tick at any instant of that minute and on no
      tick outside it (when it is active and not ringing yet). */
  lemma TriggerWindow(a: Alarm, now: int)
    requires a.time % TimeUtils.MsPerMinute == 0 && a.isActive && !a.isRinging
    ensures ShouldTrigger(a, now) <==> a.time <= now < a.time + TimeUtils.MsPerMinute
  {
    TimeUtils.SameMinuteWindow(a.time, now);
  }

  // ---------------------------------------------------------------------------------------
  // Per-id and whole-list transforms

  function NotId(id: string): Alarm -> bool {
    (a: Alarm) => a.id != id
  }

  /** `removeAlarm(id)`: `filter(alarm => alarm.id !== id)`. */
  function RemoveById(s: seq<Alarm>, id: string): seq<Alarm> {
    Filter(s, NotId(id))
  }

  /** Exactly the alarms with that id go, the others stay in their order (with their
      multiplicities), an unknown id changes nothing, and a sorted list stays sorted. */
  lemma RemoveByIdSpec(s: seq<Alarm>, id: string)
    ensures forall a :: a in RemoveById(s, id) <==> a in s && a.id != id
    ensures forall a :: multiset(RemoveById(s, id))[a] == if a.id != id then multiset(s)[a] else 0
    ensures (forall i :: 0 <= i < |s| ==> s[i].id != id) ==> RemoveById(s, id) == s
    ensures SortedByTime(s) ==> SortedByTime(RemoveById(s, id))
    ensures AnyRinging(RemoveById(s, id)) ==> AnyRinging(s)
  {
    forall a ensures a in RemoveById(s, id) <==> a in s && a.id != id {
      FilterMember(s, NotId(id), a);
    }
    forall a ensures multiset(RemoveById(s, id))[a] == if a.id != id then multiset(s)[a] else 0 {
      FilterCount(s, NotId(id), a);
    }
    if forall i :: 0 <= i < |s| ==> s[i].id != id {
      FilterAll(s, NotId(id));
    }
    if SortedByTime(s) {
      FilterKeepsSorted(s, NotId(id), TimeOf);
    }
  }

  /** `toggleAlarm(id)`'s map. */
  function ToggleIn(s: seq<Alarm>, id: string): seq<Alarm> {
    seq(|s|, i requires 0 <= i < |s| => if s[i].id == id then s[i].(isActive := !s[i].isActive, isRinging := false) else s[i])
  }

  /** Toggling flips `isActive` of the matching alarms and leaves them silent, touches no other
      alarm and no time, and toggling twice restores `isActive`. */
  lemma ToggleSpec(s: seq<Alarm>, id: string)
    ensures |ToggleIn(s, id)| == |s|
    ensures forall i :: 0 <= i < |s| ==>
      var r := ToggleIn(s, id)[i];
      && (s[i].id == id ==> r.isActive == !s[i].isActive && !r.isRinging && r.(isActive := s[i].isActive, isRinging := s[i].isRinging) == s[i])
      && (s[i].id != id ==> r == s[i])
    ensures (forall i :: 0 <= i < |s| ==> s[i].id != id) ==> ToggleIn(s, id) == s
    ensures SortedByTime(s) ==> SortedByTime(ToggleIn(s, id))
    ensures forall i :: 0 <= i < |s| ==> ToggleIn(ToggleIn(s, id), id)[i].isActive == s[i].isActive
  {}

  /** `setAlarmRinging(id, ringing)`'s map. */
  function SetRingingIn(s: seq<Alarm>, id: string, ringing: bool): seq<Alarm> {
    seq(|s|, i requires 0 <= i < |s| => if s[i].id == id then s[i].(isRinging := ringing) else s[i])
  }

  /** `alarms.some(alarm => alarm.isRinging)` */
  predicate AnyRinging(s: seq<Alarm>) {
    exists a :: a in s && a.isRinging
  }

  /** Only the matching alarms change, and only their ringing flag; afterwards something rings
      exactly when the flag was set to true on a present id or another alarm still rings. */
  lemma SetRingingSpec(s: seq<Alarm>, id: string, ringing: bool)
    ensures |SetRingingIn(s, id, ringing)| == |s|
    ensures forall i :: 0 <= i < |s| ==>
      SetRingingIn(s, id, ringing)[i] == if s[i].id == id then s[i].(isRinging := ringing) else s[i]
    ensures AnyRinging(SetRingingIn(s, id, ringing)) <==>
      (ringing && exists i :: 0 <= i < |s| && s[i].id == id)
      || (exists i :: 0 <= i < |s| && s[i].id != id && s[i].isRinging)
    ensures SortedByTime(s) ==> SortedByTime(SetRingingIn(s, id, ringing))
  {
    var r := SetRingingIn(s, id, ringing);
    if AnyRinging(r) {
      var a :| a in r && a.isRinging;
      var i :| 0 <= i < |r| && r[i] == a;
      assert s[i].id == id || s[i].isRinging;
    }
    if ringing && exists i :: 0 <= i < |s| && s[i].id == id {
      var i :| 0 <= i < |s| && s[i].id == id;
      assert r[i] in r && r[i].isRinging;
    }
    if exists i :: 0 <= i < |s| && s[i].id != id && s[i].isRinging {
      var i :| 0 <= i < |s| && s[i].id != id && s[i].isRinging;
      assert r[i] in r && r[i].isRinging;
    }
  }

  /** `stopAllAlarms`'s map. */
  function StopAll(s: seq<Alarm>): seq<Alarm> {
    seq(|s|, i requires 0 <= i < |s| => s[i].(isRinging := false))
  }

  /** Nothing rings afterwards, and nothing but the ringing flags changed. */
  lemma StopAllSpec(s: seq<Alarm>)
    ensures |StopAll(s)| == |s| && !AnyRinging(StopAll(s))
    ensures forall i :: 0 <= i < |s| ==> StopAll(s)[i].(isRinging := s[i].isRinging) == s[i]
    ensures SortedByTime(s) ==> SortedByTime(StopAll(s))
    ensures StopAll(StopAll(s)) == StopAll(s)
  {}

  /** The alarms a stable sort returns are the ones it was given. */
  lemma SortByTimeMembers(s: seq<Alarm>)
    ensures forall x :: x in SortByTime(s) <==> x in s
  {
    var r := SortByTime(s);
    SortBySorts(s, TimeOf);
    forall x ensures x in r <==> x in s {
      assert x in r <==> x in multiset(r);
      assert x in s <==> x in multiset(s);
    }
  }

  /** One alarm under `snoozeAlarm(id)`. */
  function SnoozeOne(a: Alarm, id: string, snoozeTime: int): Alarm {
    if a.id == id then a.(time := snoozeTime, isRinging := false, snoozeCount := a.snoozeCount + 1) else a
  }

  /** `snoozeAlarm(id)`'s map, before sorting. */
  function SnoozeMap(s: seq<Alarm>, id: string, snoozeTime: int): (r: seq<Alarm>)
    ensures |r| == |s| && forall i :: 0 <= i < |s| ==> r[i] == SnoozeOne(s[i], id, snoozeTime)
  {
    seq(|s|, i requires 0 <= i < |s| => SnoozeOne(s[i], id, snoozeTime))
  }

  /** `snoozeAlarm(id)`'s new list. */
  function SnoozeIn(s: seq<Alarm>, id: string, snoozeTime: int): seq<Alarm> {
    SortByTime(SnoozeMap(s, id, snoozeTime))
  }

  /** The snoozed alarms move to the snooze time, stop ringing and count one more snooze; the
      others are kept as they are; the result is sorted and has the same number of alarms. */
  lemma SnoozeSpec(s: seq<Alarm>, id: string, snoozeTime: int)
    ensures SortedByTime(SnoozeIn(s, id, snoozeTime))
    ensures multiset(SnoozeIn(s, id, snoozeTime)) == multiset(SnoozeMap(s, id, snoozeTime))
    ensures |SnoozeIn(s, id, snoozeTime)| == |s|
    ensures forall x :: x in SnoozeIn(s, id, snoozeTime) <==> exists i :: 0 <= i < |s| && x == SnoozeOne(s[i], id, snoozeTime)
    ensures forall i :: 0 <= i < |s| && s[i].id != id ==> s[i] in SnoozeIn(s, id, snoozeTime)
    ensures forall x :: x in SnoozeIn(s, id, snoozeTime) && x.id == id ==>
      !x.isRinging && x.time == snoozeTime
  {
    var m := SnoozeMap(s, id, snoozeTime);
    SortBySorts(m, TimeOf);
    SortByTimeMembers(m);
    forall x ensures x in m <==> exists i :: 0 <= i < |s| && x == SnoozeOne(s[i], id, snoozeTime) {
      if x in m {
        var i :| 0 <= i < |m| && m[i] == x;
      }
    }
    forall i | 0 <= i < |s| && s[i].id != id ensures s[i] in m {
      assert m[i] == s[i];
    }
  }

  /** After a snooze something rings exactly when some alarm with another id was ringing. */
  lemma SnoozeRinging(s: seq<Alarm>, id: string, snoozeTime: int)
    ensures AnyRinging(SnoozeIn(s, id, snoozeTime)) <==> AnyRinging(RemoveById(s, id))
  {
    var m := SnoozeMap(s, id, snoozeTime);
    SortByTimeMembers(m);
    if AnyRinging(SnoozeIn(s, id, snoozeTime)) {
      var x :| x in SnoozeIn(s, id, snoozeTime) && x.isRinging;
      assert x in m;
      var j :| 0 <= j < |m| && m[j] == x;
      assert s[j] == x && s[j].id != id;
      FilterMember(s, NotId(id), x);
      assert x in RemoveById(s, id);
    }
    if AnyRinging(RemoveById(s, id)) {
      var x :| x in RemoveById(s, id) && x.isRinging;
      FilterMember(s, NotId(id), x);
      var j :| 0 <= j < |s| && s[j] == x;
      assert m[j] == x;
      assert x in SnoozeIn(s, id, snoozeTime);
    }
  }

  /** One alarm under `editAlarm(id, updates)`. */
  function EditOne(a: Alarm, id: string, updates: AlarmPatch): Alarm {
    if a.id == id then ApplyPatch(a, updates) else a
  }

  function EditMap(s: seq<Alarm>, id: string, updates: AlarmPatch): (r: seq<Alarm>)
    ensures |r| == |s| && forall i :: 0 <= i < |s| ==> r[i] == EditOne(s[i], id, updates)
  {
    seq(|s|, i requires 0 <= i < |s| => EditOne(s[i], id, updates))
  }

  /** `editAlarm(id, updates)`'s new list. */
  function EditIn(s: seq<Alarm>, id: string, updates: AlarmPatch): seq<Alarm> {
    SortByTime(EditMap(s, id, updates))
  }

  /** Editing overwrites the given fields of the matching alarms, keeps the other alarms, and
      re-sorts; with no fields given it changes nothing on a sorted list. */
  lemma EditSpec(s: seq<Alarm>, id: string, updates: AlarmPatch)
    ensures SortedByTime(EditIn(s, id, updates)) && |EditIn(s, id, updates)| == |s|
    ensures multiset(EditIn(s, id, updates)) == multiset(EditMap(s, id, updates))
    ensures forall x :: x in EditIn(s, id, updates) <==> exists i :: 0 <= i < |s| && x == EditOne(s[i], id, updates)
    ensures SortedByTime(s) && updates == NoChanges ==> EditIn(s, id, updates) == s
    ensures updates.isRinging != Some(true) && AnyRinging(EditIn(s, id, updates)) ==> AnyRinging(s)
  {
    var m := EditMap(s, id, updates);
    SortBySorts(m, TimeOf);
    SortByTimeMembers(m);
    forall x ensures x in m <==> exists i :: 0 <= i < |s| && x == EditOne(s[i], id, updates) {
      if x in m {
        var i :| 0 <= i < |m| && m[i] == x;
      }
    }
    if updates.isRinging != Some(true) && AnyRinging(EditIn(s, id, updates)) {
      EditKeepsNotRinging(s, id, updates);
    }
    if SortedByTime(s) && updates == NoChanges {
      EditNothing(s, id);
    }
  }

  /** A patch that does not ring an alarm leaves no alarm ringing that was not before. */
  lemma EditKeepsNotRinging(s: seq<Alarm>, id: string, updates: AlarmPatch)
    requires updates.isRinging != Some(true) && AnyRinging(EditIn(s, id, updates))
    ensures AnyRinging(s)
  {
    var m := EditMap(s, id, updates);
    SortByTimeMembers(m);
    var x :| x in EditIn(s, id, updates) && x.isRinging;
    assert x in m;
    var i :| 0 <= i < |m| && m[i] == x;
    assert s[i] in s && s[i].isRinging;
  }

  /** An empty patch on a sorted list changes nothing. */
  lemma EditNothing(s: seq<Alarm>, id: string)
    requires SortedByTime(s)
    ensures EditIn(s, id, NoChanges) == s
  {
    var m := EditMap(s, id, NoChanges);
    forall i | 0 <= i < |s| ensures m[i] == s[i] {
      PatchLaws(s[i], NoChanges);
    }
    assert m == s;
    SortSortedIsIdentity(s, TimeOf);
  }

  /** What `clearExpiredAlarms` keeps: ringing, future or recurring alarms. */
  function Unexpired(now: int): Alarm -> bool {
    (a: Alarm) => a.isRinging || a.time > now || a.isRecurring
  }

  function ClearExpired(s: seq<Alarm>, now: int): seq<Alarm> {
    Filter(s, Unexpired(now))
  }

  /** Exactly the ringing, future and recurring alarms are kept, in their order; in particular
      no ringing or recurring alarm is ever removed, however old; the order is kept. */
  lemma ClearExpiredSpec(s: seq<Alarm>, now: int)
    ensures forall a :: a in ClearExpired(s, now) <==> a in s && (a.isRinging || a.time > now || a.isRecurring)
    ensures forall a :: multiset(ClearExpired(s, now))[a] == if a.isRinging || a.time > now || a.isRecurring then multiset(s)[a] else 0
    ensures forall i :: 0 <= i < |s| && (s[i].isRinging || s[i].isRecurring) ==> s[i] in ClearExpired(s, now)
    ensures SortedByTime(s) ==> SortedByTime(ClearExpired(s, now))
    ensures AnyRinging(ClearExpired(s, now)) <==> AnyRinging(s)
  {
    forall a ensures a in ClearExpired(s, now) <==> a in s && (a.isRinging || a.time > now || a.isRecurring) {
      FilterMember(s, Unexpired(now), a);
    }
    forall a ensures multiset(ClearExpired(s, now))[a] == if a.isRinging || a.time > now || a.isRecurring then multiset(s)[a] else 0 {
      FilterCount(s, Unexpired(now), a);
    }
    if SortedByTime(s) {
      FilterKeepsSorted(s, Unexpired(now), TimeOf);
    }
  }

  /** Clearing is order-preserving: it distributes over splitting the list. */
  lemma ClearExpiredKeepsOrder(s: seq<Alarm>, t: seq<Alarm>, now: int)
    ensures ClearExpired(s + t, now) == ClearExpired(s, now) + ClearExpired(t, now)
  {
    FilterConcat(s, t, Unexpired(now));
  }

  /** The first alarm with the id (`alarms.find(a => a.id === id)`). */
  function Find(s: seq<Alarm>, id: string): (r: Option<Alarm>)
    ensures r.Some? <==> exists i :: 0 <= i < |s| && s[i].id == id
    ensures r.Some? ==> r.value in s && r.value.id == id
    ensures r.Some? ==> exists i :: 0 <= i < |s| && s[i] == r.value && forall j :: 0 <= j < i ==> s[j].id != id
  {
    if s == [] then None
    else if s[0].id == id then Some(s[0])
    else
      var r := Find(s[1..], id);
      assert r.Some? ==> exists i :: 1 <= i < |s| && s[i] == r.value && forall j :: 0 <= j < i ==> s[j].id != id by {
        if r.Some? {
          var i :| 0 <= i < |s[1..]| && s[1..][i] == r.value && forall j :: 0 <= j < i ==> s[1..][j].id != id;
          assert s[i + 1] == r.value;
        }
      }
      r
  }

  /** The label a copy gets. */
  function CopyLabel(labelText: string): string {
    labelText + " (复制)"
  }

  /** The options `duplicateAlarm` passes to `addAlarm`: the sound, volume and recurrence of the
      original. */
  function CopyOptions(a: Alarm): (p: AlarmPatch)
    ensures p.id.None? && p.time.None? && p.labelText.None? && p.isActive.None? && p.isRinging.None?
    ensures p.sound == Some(a.sound) && p.volume == Some(a.volume)
    ensures p.isRecurring == Some(a.isRecurring) && p.recurringDays == Some(a.recurringDays)
    ensures p.createdAt.None? && p.lastTriggered.None? && p.snoozeCount.None?
  {
    NoChanges.(sound := Some(a.sound), volume := Some(a.volume),
               isRecurring := Some(a.isRecurring), recurringDays := Some(a.recurringDays))
  }

  /** The copy is a fresh, active, silent, never-snoozed alarm one day later with the original's
      label plus " (复制)" and its sound, volume and recurrence. */
  lemma DuplicateSpec(a: Alarm, newId: string, selectedSound: string, volume: real, createdAt: int)
    ensures var c := NewAlarm(newId, a.time + TimeUtils.MsPerDay, CopyLabel(a.labelText), CopyOptions(a), selectedSound, volume, createdAt);
      && c.id == newId && c.time == a.time + TimeUtils.MsPerDay && c.labelText == a.labelText + " (复制)"
      && c.sound == a.sound && c.volume == a.volume
      && c.isRecurring == a.isRecurring && c.recurringDays == a.recurringDays
      && c.isActive && !c.isRinging && c.snoozeCount == 0 && c.createdAt == createdAt
      && c.lastTriggered == None
  {}
}
