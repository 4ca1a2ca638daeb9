/** The alarm store: the single state object of the alarm clock, its actions and its
    persisted snapshot. The clock, the random id generator and the permission prompt are
    parameters of the actions that use them. */
module AlarmStore {
  import opened Wrappers
  import opened Seqs
  import opened Text
  import TimeUtils
  import opened AlarmModel

  datatype Theme = Light | Dark

  /** The sound names the store offers. */
  const AlarmSounds: seq<string> := ["clock", "rooster", "siren", "rain", "whitenoise"]

  datatype Preset = Preset(labelText: string, hour: nat, minute: nat)

  /** The preset wake-up times, 05:00 to 08:30 in half hours. */
  const PresetTimes: seq<Preset> := [
    Preset("05:00", 5, 0), Preset("05:30", 5, 30), Preset("06:00", 6, 0), Preset("06:30", 6, 30),
    Preset("07:00", 7, 0), Preset("07:30", 7, 30), Preset("08:00", 8, 0), Preset("08:30", 8, 30)]

  /** A preset's label is the zero-padded `HH:MM` of its own hour and minute, and the alarm
      time parser reads it back as that hour and minute. */
  ghost predicate PresetMatches(p: Preset) {
    && p.hour < 24 && p.minute < 60 && p.labelText == Pad2(p.hour) + ":" + Pad2(p.minute)
    && TimeUtils.ParseTimeString(p.labelText) == Some(TimeUtils.HourMinute(p.hour, p.minute))
  }

  /** A morning preset on the hour or the half hour matches when its label is written so. */
  lemma MorningPresetMatches(p: Preset)
    requires p.hour < 10 && (p.minute == 0 || p.minute == 30)
    requires p.labelText == ['0', DigitChar(p.hour), ':', DigitChar(p.minute / 10), '0']
    ensures PresetMatches(p)
  {
    Pad2OneDigit(p.hour);
    if p.minute == 0 {
      Pad2OneDigit(0);
    } else {
      Pad2TwoDigits(30);
    }
    TimeUtils.ParseTimeStringRoundTrip(p.hour, p.minute, true);
  }

  /** Every preset label matches its hour and minute. */
  lemma PresetLabelsMatch()
    ensures forall p :: p in PresetTimes ==> PresetMatches(p)
  {
    forall p | p in PresetTimes
      ensures PresetMatches(p)
    {
      MorningPresetMatches(p);
    }
  }

  /** `Math.max(1, Math.min(60, minutes))`. */
  function ClampSnooze(minutes: int): (r: int)
    ensures 1 <= r <= 60
    ensures 1 <= minutes <= 60 ==> r == minutes
    ensures minutes < 1 ==> r == 1
    ensures minutes > 60 ==> r == 60
  {
    if minutes < 1 then 1 else if minutes > 60 then 60 else minutes
  }

  /** Clamping twice is clamping once, and clamping is monotone. */
  lemma ClampSnoozeLaws(a: int, b: int)
    ensures ClampSnooze(ClampSnooze(a)) == ClampSnooze(a)
    ensures a <= b ==> ClampSnooze(a) <= ClampSnooze(b)
  {}

  /** The browser notification the minute trigger asks for. With no label the body shows the
      alarm's time, written by a locale formatter that is not part of this model. */
  datatype NoticeBody = LabelBody(text: string) | TimeBody(time: int)
  datatype Notice = Notice(title: string, body: NoticeBody, tag: string, requireInteraction: bool)

  function NoticeOf(a: Alarm): (n: Notice)
    ensures n.tag == "alarm-" + a.id && n.requireInteraction
    ensures n.body == if a.labelText != "" then LabelBody(a.labelText) else TimeBody(a.time)
  {
    Notice("闹钟响了!", if a.labelText != "" then LabelBody(a.labelText) else TimeBody(a.time), "alarm-" + a.id, true)
  }

  function NoticesOf(s: seq<Alarm>): (r: seq<Notice>)
    ensures |r| == |s| && forall i :: 0 <= i < |s| ==> r[i] == NoticeOf(s[i])
  {
    seq(|s|, i requires 0 <= i < |s| => NoticeOf(s[i]))
  }

  /** The notifications one tick asks for: one per alarm that starts ringing, in list order. */
  function TriggerNotices(s: seq<Alarm>, now: int): seq<Notice> {
    NoticesOf(Filter(s, ShouldTriggerAt(now)))
  }

  /** The notification tags are `alarm-` followed by exactly the ids of the alarms that fire. */
  lemma TriggerNoticesTags(s: seq<Alarm>, now: int)
    ensures |TriggerNotices(s, now)| == |TriggeredIds(s, now)|
    ensures forall i :: 0 <= i < |TriggerNotices(s, now)| ==>
      TriggerNotices(s, now)[i].tag == "alarm-" + TriggeredIds(s, now)[i]
  {}

  lemma NoticesOfConcat(s: seq<Alarm>, t: seq<Alarm>)
    ensures NoticesOf(s + t) == NoticesOf(s) + NoticesOf(t)
  {
    assert forall i :: 0 <= i < |s + t| ==> NoticesOf(s + t)[i] == (NoticesOf(s) + NoticesOf(t))[i];
  }

  /** What one more alarm adds to a tick's results. */
  lemma TriggerStep(s: seq<Alarm>, i: int, now: int)
    requires 0 <= i < |s|
    ensures TriggerAll(s[..i + 1], now) == TriggerAll(s[..i], now) + [Trigger(s[i], now)]
    ensures AnyShouldTrigger(s[..i + 1], now) == (AnyShouldTrigger(s[..i], now) || ShouldTrigger(s[i], now))
    ensures TriggerNotices(s[..i + 1], now) ==
      TriggerNotices(s[..i], now) + if ShouldTrigger(s[i], now) then [NoticeOf(s[i])] else []
  {
    var a := s[i];
    assert s[..i + 1] == s[..i] + [a];
    var f := ShouldTriggerAt(now);
    FilterConcat(s[..i], [a], f);
    NoticesOfConcat(Filter(s[..i], f), Filter([a], f));
    if ShouldTrigger(a, now) {
      assert Filter([a], f) == [a];
    } else {
      assert Filter([a], f) == [];
    }
    if AnyShouldTrigger(s[..i + 1], now) {
      var j :| 0 <= j < i + 1 && ShouldTrigger(s[..i + 1][j], now);
      if j < i {
        assert s[..i][j] == s[..i + 1][j];
      }
    }
    if AnyShouldTrigger(s[..i], now) {
      var j :| 0 <= j < i && ShouldTrigger(s[..i][j], now);
      assert s[..i + 1][j] == s[..i][j];
    }
    if ShouldTrigger(a, now) {
      assert s[..i + 1][i] == a;
    }
  }

  /** Clearing a stored list keeps it in time order and adds no ringing alarm. */
  lemma ClearedSnapshot(s: seq<Alarm>, now: int)
    ensures SortedByTime(s) ==> SortedByTime(ClearExpired(s, now))
    ensures !AnyRinging(s) ==> !AnyRinging(ClearExpired(s, now))
  {
    ClearExpiredSpec(s, now);
  }

  /** Keys of `updateSettings`; a missing key is `None`. */
  datatype SettingsPatch = SettingsPatch(
    theme: Option<Theme>,
    volume: Option<real>,
    selectedSound: Option<string>,
    is24HourFormat: Option<bool>,
    enableNotifications: Option<bool>,
    enableWakeLock: Option<bool>,
    snoozeMinutes: Option<int>)

  /** What the store writes to storage (`partialize`): the alarms with their ringing flags
      cleared, and the seven settings. */
  datatype Snapshot = Snapshot(
    alarms: seq<Alarm>,
    selectedSound: string,
    volume: real,
    theme: Theme,
    is24HourFormat: bool,
    snoozeMinutes: int,
    enableNotifications: bool,
    enableWakeLock: bool)

  class AlarmStore {
    /** The instant the store module was loaded (`initialState.currentTime`). */
    const initialTime: int
    var currentTime: int
    var alarms: seq<Alarm>
    var isAlarmRinging: bool
    var selectedSound: string
    var volume: real
    var theme: Theme
    var is24HourFormat: bool
    var snoozeMinutes: int
    var enableNotifications: bool
    var enableWakeLock: bool

    /** The alarm list is ordered by time and the snooze length is 1..60 minutes. */
    predicate Valid()
      reads this
    {
      SortedByTime(alarms) && 1 <= snoozeMinutes <= 60
    }

    /** The store-wide ringing flag is set whenever some alarm rings. */
    predicate RingingCovered()
      reads this
    {
      AnyRinging(alarms) ==> isAlarmRinging
    }

    twostate predicate SettingsUnchanged()
      reads this
    {
      && selectedSound == old(selectedSound) && volume == old(volume) && theme == old(theme)
      && is24HourFormat == old(is24HourFormat) && snoozeMinutes == old(snoozeMinutes)
      && enableNotifications == old(enableNotifications) && enableWakeLock == old(enableWakeLock)
    }

    twostate predicate AlarmsUnchanged()
      reads this
    {
      alarms == old(alarms) && isAlarmRinging == old(isAlarmRinging) && currentTime == old(currentTime)
    }

    /** `initialState`: no alarms, the "clock" sound at 0.7, light theme, 12-hour clock,
        10-minute snooze, notifications and wake lock on. */
    constructor(now: int)
      ensures Valid() && RingingCovered()
      ensures initialTime == now && currentTime == now && alarms == [] && !isAlarmRinging
      ensures selectedSound == "clock" && volume == 0.7 && theme == Light && !is24HourFormat
      ensures snoozeMinutes == 10 && enableNotifications && enableWakeLock
    {
      initialTime := now;
      currentTime := now;
      alarms := [];
      isAlarmRinging := false;
      selectedSound := "clock";
      volume := 0.7;
      theme := Light;
      is24HourFormat := false;
      snoozeMinutes := 10;
      enableNotifications := true;
      enableWakeLock := true;
    }

    /** `updateCurrentTime`: record the current instant, start every active, silent alarm set
        for this minute, and ask for one notification per alarm started when notifications are
        enabled. The store-wide flag is only ever raised here. */
    method UpdateCurrentTime(now: int) returns (notices: seq<Notice>)
      requires Valid()
      modifies this
      ensures Valid() && SettingsUnchanged()
      ensures old(RingingCovered()) ==> RingingCovered()
      ensures currentTime == now
      ensures alarms == TriggerAll(old(alarms), now)
      ensures isAlarmRinging == (AnyShouldTrigger(old(alarms), now) || old(isAlarmRinging))
      ensures notices == if enableNotifications then TriggerNotices(old(alarms), now) else []
    {
      var s := alarms;
      var updated: seq<Alarm> := [];
      var hasRingingAlarm := false;
      notices := [];
      var i := 0;
      while i < |s|
        modifies {}
        invariant 0 <= i <= |s|
        invariant updated == TriggerAll(s[..i], now)
        invariant hasRingingAlarm == AnyShouldTrigger(s[..i], now)
        invariant notices == if enableNotifications then TriggerNotices(s[..i], now) else []
      {
        var a := s[i];
        var b := a;
        if a.isActive && !a.isRinging {
          if TimeUtils.IsSameTimeIgnoreSeconds(a.time, now) {
            hasRingingAlarm := true;
            if enableNotifications {
              notices := notices + [NoticeOf(a)];
            }
            b := a.(isRinging := true, lastTriggered := Some(now));
          }
        }
        TriggerStep(s, i, now);
        updated := updated + [b];
        i := i + 1;
      }
      assert s[..|s|] == s;
      TriggerAllSpec(s, now);
      currentTime := now;
      alarms := updated;
      isAlarmRinging := hasRingingAlarm || isAlarmRinging;
    }

    /** `addAlarm(time, label, options)`: the new alarm (fresh id `id`, created at `createdAt`)
        joins the list after every alarm not later than it. */
    method AddAlarm(time: int, labelText: string, options: AlarmPatch, id: string, createdAt: int)
      requires Valid()
      modifies this
      ensures Valid() && SettingsUnchanged()
      ensures isAlarmRinging == old(isAlarmRinging) && currentTime == old(currentTime)
      ensures alarms == InsertBy(old(alarms), NewAlarm(id, time, labelText, options, old(selectedSound), old(volume), createdAt), TimeOf)
      ensures multiset(alarms) == multiset(old(alarms)) + multiset{NewAlarm(id, time, labelText, options, old(selectedSound), old(volume), createdAt)}
      ensures options.isRinging != Some(true) && old(RingingCovered()) ==> RingingCovered()
    {
      var newAlarm := NewAlarm(id, time, labelText, options, selectedSound, volume, createdAt);
      AddKeepsOrder(alarms, newAlarm);
      alarms := SortByTime(alarms + [newAlarm]);
    }

    /** `removeAlarm(id)`. */
    method RemoveAlarm(id: string)
      requires Valid()
      modifies this
      ensures Valid() && SettingsUnchanged()
      ensures isAlarmRinging == old(isAlarmRinging) && currentTime == old(currentTime)
      ensures alarms == RemoveById(old(alarms), id)
      ensures old(RingingCovered()) ==> RingingCovered()
    {
      RemoveByIdSpec(alarms, id);
      alarms := RemoveById(alarms, id);
    }

    /** `toggleAlarm(id)`. */
    method ToggleAlarm(id: string)
      requires Valid()
      modifies this
      ensures Valid() && SettingsUnchanged()
      ensures isAlarmRinging == old(isAlarmRinging) && currentTime == old(currentTime)
      ensures alarms == ToggleIn(old(alarms), id)
      ensures old(RingingCovered()) ==> RingingCovered()
    {
      ToggleSpec(alarms, id);
      alarms := ToggleIn(alarms, id);
    }

    /** `setAlarmRinging(id, ringing)`: the store-wide flag becomes whether any alarm rings. */
    method SetAlarmRinging(id: string, ringing: bool)
      requires Valid()
      modifies this
      ensures Valid() && SettingsUnchanged() && RingingCovered()
      ensures currentTime == old(currentTime)
      ensures alarms == SetRingingIn(old(alarms), id, ringing)
      ensures isAlarmRinging == AnyRinging(alarms)
    {
      SetRingingSpec(alarms, id, ringing);
      alarms := SetRingingIn(alarms, id, ringing);
      isAlarmRinging := AnyRinging(alarms);
    }

    /** `stopAllAlarms`. */
    method StopAllAlarms()
      requires Valid()
      modifies this
      ensures Valid() && SettingsUnchanged() && RingingCovered()
      ensures currentTime == old(currentTime)
      ensures alarms == StopAll(old(alarms)) && !isAlarmRinging
    {
      StopAllSpec(alarms);
      alarms := StopAll(alarms);
      isAlarmRinging := false;
    }

    method SetSound(sound: string)
      modifies this
      ensures selectedSound == sound && AlarmsUnchanged()
      ensures volume == old(volume) && theme == old(theme) && is24HourFormat == old(is24HourFormat)
      ensures snoozeMinutes == old(snoozeMinutes) && enableNotifications == old(enableNotifications)
      ensures enableWakeLock == old(enableWakeLock)
    {
      selectedSound := sound;
    }

    /** `setVolume` stores the value as given; clamping happens in the audio engine. */
    method SetVolume(v: real)
      modifies this
      ensures volume == v && AlarmsUnchanged()
      ensures selectedSound == old(selectedSound) && theme == old(theme) && is24HourFormat == old(is24HourFormat)
      ensures snoozeMinutes == old(snoozeMinutes) && enableNotifications == old(enableNotifications)
      ensures enableWakeLock == old(enableWakeLock)
    {
      volume := v;
    }

    method SetTheme(t: Theme)
      modifies this
      ensures theme == t && AlarmsUnchanged()
      ensures selectedSound == old(selectedSound) && volume == old(volume) && is24HourFormat == old(is24HourFormat)
      ensures snoozeMinutes == old(snoozeMinutes) && enableNotifications == old(enableNotifications)
      ensures enableWakeLock == old(enableWakeLock)
    {
      theme := t;
    }

    method SetTimeFormat(is24Hour: bool)
      modifies this
      ensures is24HourFormat == is24Hour && AlarmsUnchanged()
      ensures selectedSound == old(selectedSound) && volume == old(volume) && theme == old(theme)
      ensures snoozeMinutes == old(snoozeMinutes) && enableNotifications == old(enableNotifications)
      ensures enableWakeLock == old(enableWakeLock)
    {
      is24HourFormat := is24Hour;
    }

    /** `setSnoozeMinutes` clamps to 1..60. */
    method SetSnoozeMinutes(minutes: int)
      requires Valid()
      modifies this
      ensures Valid() && snoozeMinutes == ClampSnooze(minutes) && AlarmsUnchanged()
      ensures selectedSound == old(selectedSound) && volume == old(volume) && theme == old(theme)
      ensures is24HourFormat == old(is24HourFormat) && enableNotifications == old(enableNotifications)
      ensures enableWakeLock == old(enableWakeLock)
    {
      snoozeMinutes := ClampSnooze(minutes);
    }

    /** `setEnableNotifications`: turning them on asks for permission (`granted` is the answer)
        and keeps them on only when it was granted. */
    method SetEnableNotifications(enable: bool, granted: bool)
      modifies this
      ensures enableNotifications == (enable && granted) && AlarmsUnchanged()
      ensures selectedSound == old(selectedSound) && volume == old(volume) && theme == old(theme)
      ensures is24HourFormat == old(is24HourFormat) && snoozeMinutes == old(snoozeMinutes)
      ensures enableWakeLock == old(enableWakeLock)
    {
      if enable {
        enableNotifications := granted;
      } else {
        enableNotifications := false;
      }
    }

    method SetEnableWakeLock(enable: bool)
      modifies this
      ensures enableWakeLock == enable && AlarmsUnchanged()
      ensures selectedSound == old(selectedSound) && volume == old(volume) && theme == old(theme)
      ensures is24HourFormat == old(is24HourFormat) && snoozeMinutes == old(snoozeMinutes)
      ensures enableNotifications == old(enableNotifications)
    {
      enableWakeLock := enable;
    }

    /** `updateSettings`: each given key is stored. The sound name is taken only when it is not
        empty (a truthiness test) and the snooze length is clamped. */
    method UpdateSettings(settings: SettingsPatch)
      requires Valid()
      modifies this
      ensures Valid() && AlarmsUnchanged()
      ensures theme == settings.theme.GetOr(old(theme))
      ensures volume == settings.volume.GetOr(old(volume))
      ensures selectedSound == if settings.selectedSound.Some? && settings.selectedSound.value != "" then settings.selectedSound.value else old(selectedSound)
      ensures is24HourFormat == settings.is24HourFormat.GetOr(old(is24HourFormat))
      ensures enableNotifications == settings.enableNotifications.GetOr(old(enableNotifications))
      ensures enableWakeLock == settings.enableWakeLock.GetOr(old(enableWakeLock))
      ensures snoozeMinutes == if settings.snoozeMinutes.Some? then ClampSnooze(settings.snoozeMinutes.value) else old(snoozeMinutes)
    {
      theme := settings.theme.GetOr(theme);
      volume := settings.volume.GetOr(volume);
      selectedSound := if settings.selectedSound.Some? && settings.selectedSound.value != "" then settings.selectedSound.value else selectedSound;
      is24HourFormat := settings.is24HourFormat.GetOr(is24HourFormat);
      enableNotifications := settings.enableNotifications.GetOr(enableNotifications);
      enableWakeLock := settings.enableWakeLock.GetOr(enableWakeLock);
      snoozeMinutes := if settings.snoozeMinutes.Some? then ClampSnooze(settings.snoozeMinutes.value) else snoozeMinutes;
    }

    /** `snoozeAlarm(id)`: an unknown id changes nothing; otherwise the alarm moves to
        `snoozeMinutes` from now, stops ringing, counts one more snooze, and the store-wide flag
        becomes whether any other alarm was ringing. */
    method SnoozeAlarm(id: string, now: int)
      requires Valid()
      modifies this
      ensures Valid() && SettingsUnchanged() && currentTime == old(currentTime)
      ensures Find(old(alarms), id).None? ==> alarms == old(alarms) && isAlarmRinging == old(isAlarmRinging)
      ensures Find(old(alarms), id).Some? ==>
        && alarms == SnoozeIn(old(alarms), id, TimeUtils.CreateSnoozeTime(old(snoozeMinutes), now))
        && isAlarmRinging == AnyRinging(RemoveById(old(alarms), id))
        && forall a :: a in alarms && a.id == id ==> !a.isRinging && now < a.time <= now + 60 * TimeUtils.MsPerMinute
      ensures old(RingingCovered()) ==> RingingCovered()
    {
      var found := Find(alarms, id);
      if found.None? {
        return;
      }
      var snoozeTime := TimeUtils.CreateSnoozeTime(snoozeMinutes, now);
      var before := alarms;
      SnoozeSpec(before, id, snoozeTime);
      SnoozeRinging(before, id, snoozeTime);
      alarms := SnoozeIn(before, id, snoozeTime);
      isAlarmRinging := AnyRinging(RemoveById(before, id));
    }

    /** `duplicateAlarm(id)`: a copy of the first alarm with that id, one day later, labelled
        with " (复制)" and with the original's sound, volume and recurrence, added as by
        `addAlarm`; an unknown id changes nothing. */
    method DuplicateAlarm(id: string, newId: string, createdAt: int)
      requires Valid()
      modifies this
      ensures Valid() && SettingsUnchanged()
      ensures isAlarmRinging == old(isAlarmRinging) && currentTime == old(currentTime)
      ensures Find(old(alarms), id).None? ==> alarms == old(alarms)
      ensures Find(old(alarms), id).Some? ==>
        var a := Find(old(alarms), id).value;
        alarms == InsertBy(old(alarms), NewAlarm(newId, a.time + TimeUtils.MsPerDay, CopyLabel(a.labelText), CopyOptions(a), old(selectedSound), old(volume), createdAt), TimeOf)
      ensures old(RingingCovered()) ==> RingingCovered()
    {
      var found := Find(alarms, id);
      if found.None? {
        return;
      }
      var a := found.value;
      var options := CopyOptions(a);
      var when := a.time + TimeUtils.MsPerDay;
      var copied := CopyLabel(a.labelText);
      assert options.isRinging.None?;
      ghost var copy := NewAlarm(newId, when, copied, options, selectedSound, volume, createdAt);
      ghost var before := alarms;
      AddAlarm(when, copied, options, newId, createdAt);
      assert alarms == InsertBy(before, copy, TimeOf);
    }

    /** `editAlarm(id, updates)`: the given fields overwrite those of the matching alarms and
        the list is sorted again. */
    method EditAlarm(id: string, updates: AlarmPatch)
      requires Valid()
      modifies this
      ensures Valid() && SettingsUnchanged()
      ensures isAlarmRinging == old(isAlarmRinging) && currentTime == old(currentTime)
      ensures alarms == EditIn(old(alarms), id, updates)
      ensures updates.isRinging != Some(true) && old(RingingCovered()) ==> RingingCovered()
    {
      var before := alarms;
      EditSpec(before, id, updates);
      alarms := EditIn(before, id, updates);
    }

    /** `clearExpiredAlarms`: keep the ringing, future and recurring alarms. */
    method ClearExpiredAlarms(now: int)
      requires Valid()
      modifies this
      ensures Valid() && SettingsUnchanged()
      ensures isAlarmRinging == old(isAlarmRinging) && currentTime == old(currentTime)
      ensures alarms == ClearExpired(old(alarms), now)
      ensures old(RingingCovered()) ==> RingingCovered()
    {
      ClearExpiredSpec(alarms, now);
      alarms := ClearExpired(alarms, now);
    }

    /** `addQuickAlarm(minutes)`: an alarm `minutes` from now labelled "<minutes> 分钟后". */
    method AddQuickAlarm(minutes: int, now: int, id: string, createdAt: int)
      requires Valid()
      modifies this
      ensures Valid() && SettingsUnchanged()
      ensures isAlarmRinging == old(isAlarmRinging) && currentTime == old(currentTime)
      ensures alarms == InsertBy(old(alarms), NewAlarm(id, now + minutes * TimeUtils.MsPerMinute, IntToString(minutes) + " 分钟后", NoChanges, old(selectedSound), old(volume), createdAt), TimeOf)
      ensures old(RingingCovered()) ==> RingingCovered()
    {
      AddAlarm(now + minutes * TimeUtils.MsPerMinute, IntToString(minutes) + " 分钟后", NoChanges, id, createdAt);
    }

    /** `addPresetAlarm(hour, minute, label)`: today at that local time, or tomorrow when that
        is not after now. */
    method AddPresetAlarm(hour: int, minute: int, labelText: string, now: int, offset: int, id: string, createdAt: int)
      requires Valid()
      modifies this
      ensures Valid() && SettingsUnchanged()
      ensures isAlarmRinging == old(isAlarmRinging) && currentTime == old(currentTime)
      ensures alarms == InsertBy(old(alarms), NewAlarm(id, TimeUtils.GetNextValidAlarmTime(hour, minute, now, offset), labelText, NoChanges, old(selectedSound), old(volume), createdAt), TimeOf)
      ensures old(RingingCovered()) ==> RingingCovered()
    {
      var alarmTime := TimeUtils.SetHours(now, offset, hour, minute);
      if alarmTime <= now {
        alarmTime := alarmTime + TimeUtils.MsPerDay;
      }
      AddAlarm(alarmTime, labelText, NoChanges, id, createdAt);
    }

    /** `partialize`: no stored alarm rings, and a valid store writes a list that is still in
        time order and a snooze length in range. */
    function Partialize(): (s: Snapshot)
      reads this
      ensures s.alarms == StopAll(alarms) && !AnyRinging(s.alarms) && |s.alarms| == |alarms|
      ensures forall i :: 0 <= i < |alarms| ==> s.alarms[i].(isRinging := alarms[i].isRinging) == alarms[i]
      ensures Valid() ==> SortedByTime(s.alarms) && 1 <= s.snoozeMinutes <= 60
      ensures s.selectedSound == selectedSound && s.volume == volume && s.theme == theme
      ensures s.is24HourFormat == is24HourFormat && s.snoozeMinutes == snoozeMinutes
      ensures s.enableNotifications == enableNotifications && s.enableWakeLock == enableWakeLock
    {
      StopAllSpec(alarms);
      Snapshot(StopAll(alarms), selectedSound, volume, theme, is24HourFormat, snoozeMinutes,
        enableNotifications, enableWakeLock)
    }

    /** Rehydration with the stored times read back as instants (the reload written in the
        code reads them back as strings; `ClearExpiredAfterJsonReload` below): the stored
        snapshot is merged over the state, then `clearExpiredAlarms` runs at `now`. The current instant and the store-wide ringing flag are not stored, so
        they stay. A snapshot the store wrote itself gives a valid store. */
    method Rehydrate(s: Snapshot, now: int)
      modifies this
      ensures alarms == ClearExpired(s.alarms, now)
      ensures currentTime == old(currentTime) && isAlarmRinging == old(isAlarmRinging)
      ensures selectedSound == s.selectedSound && volume == s.volume && theme == s.theme
      ensures is24HourFormat == s.is24HourFormat && snoozeMinutes == s.snoozeMinutes
      ensures enableNotifications == s.enableNotifications && enableWakeLock == s.enableWakeLock
      ensures SortedByTime(s.alarms) && 1 <= s.snoozeMinutes <= 60 ==> Valid()
      ensures !AnyRinging(s.alarms) ==> !AnyRinging(alarms) && RingingCovered()
    {
      var kept := ClearExpired(s.alarms, now);
      ClearedSnapshot(s.alarms, now);
      alarms, selectedSound, volume, theme := kept, s.selectedSound, s.volume, s.theme;
      is24HourFormat, snoozeMinutes := s.is24HourFormat, s.snoozeMinutes;
      enableNotifications, enableWakeLock := s.enableNotifications, s.enableWakeLock;
    }

    /** `resetToDefaults`: the initial state again, including the instant it was created. */
    method ResetToDefaults()
      modifies this
      ensures Valid() && RingingCovered()
      ensures currentTime == initialTime && alarms == [] && !isAlarmRinging
      ensures selectedSound == "clock" && volume == 0.7 && theme == Light && !is24HourFormat
      ensures snoozeMinutes == 10 && enableNotifications && enableWakeLock
    {
      currentTime := initialTime;
      alarms := [];
      isAlarmRinging := false;
      selectedSound := "clock";
      volume := 0.7;
      theme := Light;
      is24HourFormat := false;
      snoozeMinutes := 10;
      enableNotifications := true;
      enableWakeLock := true;
    }
  }

  /** The reload with stored times read back as instants: saving a valid store and loading it
      keeps the settings and the unexpired alarms, all silent, in time order. */
  method SaveAndRestore(store: AlarmStore, now: int)
    requires store.Valid()
    modifies store
    ensures store.Valid() && store.RingingCovered() && !AnyRinging(store.alarms)
    ensures store.alarms == ClearExpired(StopAll(old(store.alarms)), now)
    ensures store.SettingsUnchanged()
  {
    var snapshot := store.Partialize();
    store.Rehydrate(snapshot, now);
  }

  /** With times read back as instants, every alarm still ahead of `now` survives a save and a
      reload, silenced. */
  lemma IntendedReloadKeepsFuture(s: seq<Alarm>, now: int)
    ensures forall i :: 0 <= i < |s| && s[i].time > now ==> s[i].(isRinging := false) in ClearExpired(StopAll(s), now)
  {
    ClearExpiredSpec(StopAll(s), now);
    forall i | 0 <= i < |s| && s[i].time > now
      ensures s[i].(isRinging := false) in ClearExpired(StopAll(s), now)
    {
      assert StopAll(s)[i] == s[i].(isRinging := false);
    }
  }

  // ---------------------------------------------------------------------------------------
  // The reload as the code runs it. Storage goes through JSON, so every `time` comes back as
  // an ISO string, and `alarm.time > now` compares NaN with a number: it is false for every
  // alarm, so the expiry filter keeps only the ringing and the recurring ones.

  function KeptAfterJsonReload(): Alarm -> bool {
    (a: Alarm) => a.isRinging || a.isRecurring
  }

  /** `clearExpiredAlarms` on a list rehydrated from JSON. */
  function ClearExpiredAfterJsonReload(s: seq<Alarm>): seq<Alarm> {
    Filter(s, KeptAfterJsonReload())
  }

  /** As written, a save and a reload keep exactly the recurring alarms, whatever their time. */
  lemma JsonReloadKeepsOnlyRecurring(s: seq<Alarm>)
    ensures forall a :: a in ClearExpiredAfterJsonReload(StopAll(s)) <==> a in StopAll(s) && a.isRecurring
  {
    StopAllSpec(s);
    forall a ensures a in ClearExpiredAfterJsonReload(StopAll(s)) <==> a in StopAll(s) && a.isRecurring {
      FilterMember(StopAll(s), KeptAfterJsonReload(), a);
    }
  }

  /** A one-off alarm still ahead of `now` survives the intended reload but not the one written. */
  lemma JsonReloadDropsFutureAlarm(a: Alarm, now: int)
    requires a.time > now && !a.isRecurring
    ensures ClearExpired(StopAll([a]), now) == StopAll([a])
    ensures ClearExpiredAfterJsonReload(StopAll([a])) == []
  {
    var saved := StopAll([a]);
    assert saved == [a.(isRinging := false)];
    assert Filter(saved[1..], Unexpired(now)) == [] && Filter(saved[1..], KeptAfterJsonReload()) == [];
  }
}
