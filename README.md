# online-time alarm clock core, in Dafny

This project models the core of the online-time web application. The application is an alarm
clock with several time tools around it: a countdown timer, a stopwatch, a countdown to a date,
a world clock and a work-hours calculator. The model proves properties of that core.

What is modelled:

- **The alarm store** (`AlarmStore`, `AlarmModel`). This is the single state object of the
  application. It holds the alarm list, kept in time order, and the settings. Its actions are:
  - the minute trigger that starts alarms ringing;
  - adding, removing, toggling, ringing, stopping, snoozing, duplicating, editing and expiring
    alarms;
  - the quick-alarm and preset-alarm shortcuts;
  - the settings setters;
  - the snapshot written to storage and the rehydration that reads it back.
- **The time utilities** (`TimeUtils`):
  - minute equality;
  - the "next time the clock reads H:MM" rule;
  - the `H:MM` validator and parser;
  - the countdown until an alarm;
  - `formatDuration`;
  - the relative-time bands.
- **The periodic scheduler** (`PrecisionTimer`). It holds named subscriptions. Each one has an
  interval, the instant it last ran and an enabled flag. A tick runs the due ones, within a drift
  tolerance.
- **The timing worker's script** (`TimeWorker`). It keeps a copy of the alarms and answers the
  START, STOP, SYNC and CHECK_ALARMS messages.
- **The ringing hook** (`AlarmSound`). It reconciles the set of active alarm ids, and the
  browser notification shown for each, with the store's ringing alarms. It also stops and
  snoozes alarms on request.
- **The audio engine's playback state** (`AudioEngine`): the sound catalog, play, stop, the
  loop, the volume clamp, `testSound` and `dispose`.
- **The older once-a-second timer** (`LegacyTimer`).
- **The integer logic of the pages**:
  - the work-hours calculator (`HoursCalculator`);
  - the countdown timer with its history (`TimerPage`);
  - the stopwatch with its laps (`StopwatchPage`);
  - the countdown to a date (`CountdownPage`);
  - the world clock's offset label and zone list (`WorldTimePage`);
  - the CSV export of the alarm list (`AlarmCsv`).

Shared modules:

- `Wrappers` holds `Option`.
- `Seqs` holds filtering, a stable insertion sort and distinctness, with their lemmas.
- `Text` holds decimal rendering and reading, `padStart(2, '0')`, `join` and `split`.

How the model represents the source:

- A `Date` is an integer number of milliseconds since the epoch.
- Local wall-clock time is that number plus a fixed offset in milliseconds. A local day is always
  86 400 000 ms.
- Zeroing the seconds is `t - t % 60000`.
- `Array.prototype.sort` is stable, so the alarm list is sorted by a stable insertion sort. Its
  stability is proved.

Classes, fields and parameters:

- An object whose fields the source updates in place is a class with those fields. This covers
  the store, the scheduler, the worker script, the hook, the engine, the legacy timer, and the
  timer and stopwatch pages.
- What such an object asks of the outside world is appended to a log field. Examples are
  notifications shown, sounds played and messages posted.

These become parameters of the operations that use them:

- the clock: `Date.now()` and `performance.now()`;
- random ids;
- the answers of browser APIs: audio context, wake lock and notification permission;
- which callbacks throw.

### Where the code and the design description disagree

The model follows the code in each case.

- The design describes a per-play audio session registry with a periodic sweep and a staleness
  token. The engine has no such thing. It keeps only the last oscillator and gain node
  (`src/shared/utils/audioEngine.ts:257-258`), and that is what the model keeps.
- The design states the invariant "a ringing alarm is active". The code does not keep it:
  `setAlarmRinging` can ring an inactive alarm, and `editAlarm` can write any flags. So the model
  does not claim it.
  - What the model proves instead is that every action keeps the list in time order.
  - It also proves that every action preserves "some alarm rings ⇒ the store-wide flag is set".
    The exceptions are `addAlarm` and `editAlarm` when they are given `isRinging: true`.
- The design says snoozing always increases an alarm's time. The code sets the time to
  "now + snooze length" (`src/shared/stores/alarmStore.ts:259-266`). This can move a future alarm
  earlier. `SnoozeAlarm` states the code's rule: the new time is later than now by at most an
  hour.
- The design lists the CSV export as a non-goal, but it is part of the alarm list's code and is
  modelled here.
- The design describes drift correction as "tick count × interval". That is the main-thread
  animation-frame loop, which is not modelled (see below).

## Model

| member | source | states |
|---|---|---|
| AlarmModel.PatchLaws | src/shared/stores/alarmStore.ts:292-298 | `{...a, ...{}}` is `a`, and spreading the same partial twice equals spreading it once |
| AlarmModel.NewAlarm | src/shared/stores/alarmStore.ts:138-151 | the new alarm is active, silent, never snoozed and not recurring, with the store's sound and volume and the given id, time, label and creation instant; every field present in `options` overrides the default |
| AlarmModel.SortByTimeSpec | src/shared/stores/alarmStore.ts:153-155 | sorting by time returns a permutation that is ordered by time; alarms with equal times keep their relative order (stability); an already sorted list is returned unchanged |
| AlarmModel.AddKeepsOrder | src/shared/stores/alarmStore.ts:153-155 | appending to a sorted list and sorting inserts the alarm after every alarm not later than it; the result is sorted, holds exactly one more alarm, and rings exactly when the old list or the new alarm rings |
| AlarmModel.TriggerAllSpec | src/shared/stores/alarmStore.ts:107-129 | exactly the active, silent alarms of the current minute start ringing and get `lastTriggered = now`; every other alarm is unchanged; no time or id moves, so order is kept; no alarm stops ringing; the list changes iff some alarm is due |
| AlarmModel.TriggerWindow | src/shared/stores/alarmStore.ts:108-109 | an active, silent alarm set on a whole minute fires on a tick at any instant of that minute and on no tick outside it |
| AlarmModel.IdsMember | src/shared/stores/alarmStore.ts:7-20 | an id is in the id list iff some alarm carries it |
| AlarmModel.RemoveByIdSpec | src/shared/stores/alarmStore.ts:158-162 | exactly the alarms with another id remain, with their multiplicities; an unknown id changes nothing; sortedness is kept; no ringing is created |
| AlarmModel.ToggleSpec | src/shared/stores/alarmStore.ts:164-170 | matching alarms flip `isActive` and are silent afterwards, with no other field changed; other alarms are untouched; an unknown id changes nothing; order is kept; toggling twice restores `isActive` |
| AlarmModel.SetRingingSpec | src/shared/stores/alarmStore.ts:172-178 | only the matching alarms' ringing flag changes; afterwards something rings iff (the flag was set and the id was present) or another alarm rings; order is kept |
| AlarmModel.StopAllSpec | src/shared/stores/alarmStore.ts:187-192 | nothing rings afterwards, only ringing flags changed, order is kept, and the operation is idempotent |
| AlarmModel.SnoozeSpec | src/shared/stores/alarmStore.ts:254-271 | the result is a sorted permutation of the mapped list; every snoozed alarm is silent at the snooze time; every alarm with another id is still present |
| AlarmModel.SnoozeRinging | src/shared/stores/alarmStore.ts:272 | after a snooze something rings iff some alarm with another id rang |
| AlarmModel.EditSpec | src/shared/stores/alarmStore.ts:292-298 | the result is sorted and the same length; its members are exactly the patched matching alarms and the other alarms; an empty patch leaves a sorted list unchanged; a patch that does not set `isRinging: true` creates no ringing |
| AlarmModel.EditNothing | src/shared/stores/alarmStore.ts:292-298 | editing a sorted list with an empty patch returns the list unchanged |
| AlarmModel.EditKeepsNotRinging | src/shared/stores/alarmStore.ts:292-298 | if a patch does not set `isRinging: true` and something rings after the edit, something rang before it |
| AlarmModel.ClearExpiredSpec | src/shared/stores/alarmStore.ts:300-310 | exactly the ringing, future and recurring alarms are kept, with their multiplicities; no ringing or recurring alarm is ever removed; order is kept; ringing is unchanged |
| AlarmModel.ClearExpiredKeepsOrder | src/shared/stores/alarmStore.ts:303-308 | expiring distributes over concatenation, so relative order is kept |
| AlarmModel.Find | src/shared/stores/alarmStore.ts:256 | `find` returns nothing iff no alarm has the id; otherwise it returns the first alarm with that id |
| AlarmModel.CopyOptions | src/shared/stores/alarmStore.ts:284-289 | the copy's options carry the original's sound, volume, recurrence and days; every other field (id, time, label, active, ringing, creation instant, last trigger, snooze count) is absent |
| AlarmModel.DuplicateSpec | src/shared/stores/alarmStore.ts:276-290 | the copy has the fresh id and is one day later, labelled with " (复制)" appended; it has the original's sound, volume and recurrence, and is active, silent, never snoozed and never triggered |
| AlarmStore.PresetLabelsMatch | src/shared/stores/alarmStore.ts:369-378 | every preset's label is the zero-padded `HH:MM` of its own hour and minute, and the alarm time parser reads it back as them |
| AlarmStore.MorningPresetMatches | src/shared/stores/alarmStore.ts:370-377 | a morning preset on the hour or half hour, labelled as the catalog labels them, matches its hour and minute |
| AlarmStore.ClampSnooze | src/shared/stores/alarmStore.ts:212 | the result is in 1..60; a value in range is kept; below the range gives 1 and above it gives 60 |
| AlarmStore.ClampSnoozeLaws | src/shared/stores/alarmStore.ts:212 | clamping is idempotent and monotone |
| AlarmStore.NoticeOf | src/shared/stores/alarmStore.ts:113-119 | the notification's tag is `alarm-<id>` and it requires interaction; its body is the label, or the alarm's time when the label is empty |
| AlarmStore.TriggerNoticesTags | src/shared/stores/alarmStore.ts:107-119 | one notification per alarm that starts ringing, in order, tagged with exactly those ids |
| AlarmStore.AlarmStore.constructor | src/shared/stores/alarmStore.ts:85-96 | the initial state: no alarms, "clock" at 0.7, light theme, 12-hour, 10-minute snooze, notifications and wake lock on |
| AlarmStore.AlarmStore.UpdateCurrentTime | src/shared/stores/alarmStore.ts:101-136 | the loop's result is the trigger map; the store-wide flag is (some alarm matched) or its old value, and is never cleared here; notifications are asked for exactly for the alarms started, when enabled; order and ringing coverage are kept; settings are untouched |
| AlarmStore.AlarmStore.AddAlarm | src/shared/stores/alarmStore.ts:138-156 | the list becomes the old sorted list with the new alarm inserted after every alarm not later than it; exactly one alarm is added; order is kept; nothing else changes |
| AlarmStore.AlarmStore.RemoveAlarm | src/shared/stores/alarmStore.ts:158-162 | the list is the filter by id; order and ringing coverage are kept; nothing else changes |
| AlarmStore.AlarmStore.ToggleAlarm | src/shared/stores/alarmStore.ts:164-170 | the list is the toggle map; order and ringing coverage are kept; nothing else changes |
| AlarmStore.AlarmStore.SetAlarmRinging | src/shared/stores/alarmStore.ts:172-185 | the list is the ringing map, and the store-wide flag equals "some alarm rings" |
| AlarmStore.AlarmStore.StopAllAlarms | src/shared/stores/alarmStore.ts:187-192 | every alarm is silent and the store-wide flag is cleared |
| AlarmStore.AlarmStore.SetSound | src/shared/stores/alarmStore.ts:194-196 | only the sound setting changes |
| AlarmStore.AlarmStore.SetVolume | src/shared/stores/alarmStore.ts:198-200 | only the volume changes, stored unclamped |
| AlarmStore.AlarmStore.SetTheme | src/shared/stores/alarmStore.ts:202-205 | only the theme changes |
| AlarmStore.AlarmStore.SetTimeFormat | src/shared/stores/alarmStore.ts:207-209 | only the 24-hour flag changes |
| AlarmStore.AlarmStore.SetSnoozeMinutes | src/shared/stores/alarmStore.ts:211-213 | the snooze length becomes the clamped value, so it stays in 1..60 |
| AlarmStore.AlarmStore.SetEnableNotifications | src/shared/stores/alarmStore.ts:215-222 | notifications end up on iff they were asked for and permission was granted |
| AlarmStore.AlarmStore.SetEnableWakeLock | src/shared/stores/alarmStore.ts:224-226 | only the wake-lock flag changes |
| AlarmStore.AlarmStore.UpdateSettings | src/shared/stores/alarmStore.ts:229-252 | each present key is stored and each absent key is kept; an empty sound name is ignored; the snooze length is clamped; alarms are untouched |
| AlarmStore.AlarmStore.SnoozeAlarm | src/shared/stores/alarmStore.ts:254-274 | an unknown id changes nothing; otherwise the list is the sorted snooze map at now + snooze length; the snoozed alarm is silent and later than now by at most an hour; the store-wide flag becomes "another alarm rings"; order is kept |
| AlarmStore.AlarmStore.DuplicateAlarm | src/shared/stores/alarmStore.ts:276-290 | an unknown id changes nothing; otherwise the copy of the first alarm with the id is inserted as `addAlarm` would insert it; the original stays |
| AlarmStore.AlarmStore.EditAlarm | src/shared/stores/alarmStore.ts:292-298 | the list is the sorted edit map; order is kept; ringing coverage is kept unless the patch rings |
| AlarmStore.AlarmStore.ClearExpiredAlarms | src/shared/stores/alarmStore.ts:300-310 | the list is the expiry filter at now; order and ringing coverage are kept |
| AlarmStore.AlarmStore.AddQuickAlarm | src/shared/stores/alarmStore.ts:312-315 | adds an alarm `minutes` from now labelled "<minutes> 分钟后" |
| AlarmStore.AlarmStore.AddPresetAlarm | src/shared/stores/alarmStore.ts:317-328 | adds an alarm at the next instant after now that reads hour:minute |
| AlarmStore.AlarmStore.Partialize | src/shared/stores/alarmStore.ts:340-352 | the stored alarms are the current ones with only their ringing flags cleared, so none rings; a valid store writes a sorted list and an in-range snooze length; the seven settings are copied |
| AlarmStore.AlarmStore.Rehydrate | src/shared/stores/alarmStore.ts:353-357 | the intended rehydration, with stored times read back as instants: the stored settings are restored and the stored alarms are expired at now; a snapshot the store wrote gives a valid store with nothing ringing |
| AlarmStore.AlarmStore.ResetToDefaults | src/shared/stores/alarmStore.ts:334-337 | the initial state again, including its creation instant |
| AlarmStore.SaveAndRestore | src/shared/stores/alarmStore.ts:340-357 | the intended save and reload, with times read back as instants: a valid store keeps its settings and its unexpired alarms, silenced and in time order (the code as written does not; see Findings) |
| AlarmStore.IntendedReloadKeepsFuture | src/shared/stores/alarmStore.ts:300-357 | with times read back as instants, every saved alarm still ahead of now survives the reload, silenced |
| AlarmStore.JsonReloadKeepsOnlyRecurring | src/shared/stores/alarmStore.ts:300-357 | as written, where every reloaded time is a string and `time > now` is false: an alarm survives a save and a reload iff it is recurring |
| AlarmStore.JsonReloadDropsFutureAlarm | src/shared/stores/alarmStore.ts:302-308 | a one-off alarm still ahead of now is kept by the intended reload and dropped by the one written |
| TimeUtils.ZeroSeconds | src/shared/utils/timeUtils.ts:68-76 | the start of the minute containing `t`: a whole minute, not after `t`, and less than a minute before it |
| TimeUtils.SameMinuteIff | src/shared/utils/timeUtils.ts:68-76 | two instants are in the same minute iff their quotients by one minute are equal, so the relation is an equivalence |
| TimeUtils.SameMinuteWindow | src/shared/utils/timeUtils.ts:68-76 | a whole minute `m` matches exactly the instants from m:00.000 to m:59.999 |
| TimeUtils.LocalMsOfDay | src/shared/utils/timeUtils.ts:154-166 | milliseconds since local midnight, within one day |
| TimeUtils.NextValidAlarmTimeSpec | src/shared/utils/timeUtils.ts:154-166 | for a valid hour and minute the result reads h:m:00.000; it lies in (now, now + 1 day]; it is today's time iff that is later than now; it is the first instant after now that reads h:m:00.000 |
| TimeUtils.ParseTimeString | src/shared/utils/timeUtils.ts:171-183 | a parsed hour is in 0..23 and a parsed minute in 0..59 |
| TimeUtils.ParseAcceptsExactlyValid | src/shared/utils/timeUtils.ts:60-63 | the parser accepts a text iff the validator does |
| TimeUtils.ParseTimeStringRoundTrip | src/shared/utils/timeUtils.ts:171-183 | writing a valid hour (padded or not) and a padded minute, then parsing, gives them back, and the validator accepts the text |
| TimeUtils.CreateTimeFromValidInput | src/shared/utils/timeUtils.ts:36-49 | on validated input `createTimeFromInput` equals `getNextValidAlarmTime` on the parsed hour and minute |
| TimeUtils.MinuteParts | src/shared/utils/timeUtils.ts:94-97 | days·1440 + hours·60 + minutes equals the total, with hours < 24 and minutes < 60 |
| TimeUtils.DetailedTimeUntilSpec | src/shared/utils/timeUtils.ts:81-119 | overdue iff the alarm is not later than now, and then the result is ("已过期", 0); otherwise the minutes are the rounded-up distance, at least 1, and the text ends in '后' |
| TimeUtils.OrOne | src/shared/utils/timeUtils.ts:110 | `n \|\| 1`: at least 1, and `n` when it is positive |
| TimeUtils.SnoozeTimeBounds | src/shared/utils/timeUtils.ts:124-126 | with 1..60 minutes the snooze time is now + minutes·60000, between one minute and one hour ahead |
| TimeUtils.FormatDurationRoundTrip | src/shared/utils/timeUtils.ts:131-141 | the text reads back as the floored seconds; it has an hours field iff the duration is at least an hour; the seconds field has two digits |
| TimeUtils.SplitFormatDuration | src/shared/utils/timeUtils.ts:131-141 | splitting the text on ':' gives back the printed fields |
| TimeUtils.RelativeTimeBands | src/shared/utils/timeUtils.ts:188-207 | with d the floored minute distance: "现在" iff d ∈ {-1, 0}; "d分钟后" for 1..59; "\|d\|分钟前" for -60..-2; for -1440..-61 the hours rounded up (2..24) and "小时前"; for 60..1439 whole hours (1..23) and the remaining minutes, summing to d, then "分钟后"; a calendar date iff d < -1440 or d ≥ 1440 |
| Text.NatToStringRoundTrip | src/shared/utils/timeUtils.ts:131-141 | reading back the decimal form of a number gives the number |
| Text.Pad2Spec | src/shared/utils/timeUtils.ts:138-140 | below 100, `padStart(2, '0')` gives exactly two digits, which read back as the number |
| Text.SplitJoin | src/shared/components/AlarmList.tsx:30-32 | splitting what `join` wrote, on a separator no part contains, gives the parts back |
| Text.ParseIntRoundTrip | src/pages/TimerPage.tsx:60 | `parseInt` reads back what `String` writes, for every integer |
| Text.IntToString | src/shared/stores/alarmStore.ts:314 | the template text of a number is never empty and starts with '-' iff the number is negative |
| Text.ParseSigned | src/pages/HoursCalculatorPage.tsx:184 | once white space is skipped, `parseInt` yields a number iff, after an optional sign, at least one digit follows: hexadecimal after a `0x`/`0X` prefix, decimal otherwise; a negative result needs a leading '-' |
| Text.ParseIntHex | src/pages/TimerPage.tsx:60 | `parseInt("0x1f")` is 31 and `parseInt("0x")` is NaN |
| Text.NumberOf | src/pages/HoursCalculatorPage.tsx:52 | on the parts of a time input's value (empty or `HH:MM`), `Number(part)` is a number iff the part is all decimal digits |
| Text.PadStart2 | src/shared/utils/timeUtils.ts:138-140 | `padStart(2, '0')`: a text of two or more characters is kept, a shorter one is left-filled with '0' to length two |
| PrecisionTimer.MergeConfig | src/shared/utils/precisionTimer.ts:24-36 | every option present overrides the default, and every absent one keeps it |
| PrecisionTimer.AfterTick | src/shared/utils/precisionTimer.ts:108-117 | only `lastExecution` may change: to `t` iff the entry was due and its callback returned |
| PrecisionTimer.TickAll | src/shared/utils/precisionTimer.ts:100-119 | a tick keeps the registry's keys and updates each entry as `AfterTick` does |
| PrecisionTimer.DueIdsAreDue | src/shared/utils/precisionTimer.ts:107-111 | the ids run are exactly the registered due ids, in registration order, each once |
| PrecisionTimer.ForceSyncMakesDue | src/shared/utils/precisionTimer.ts:223-230 | a synced enabled entry is due on every tick from now on, when the tolerance is not negative |
| PrecisionTimer.TickRearms | src/shared/utils/precisionTimer.ts:108-117 | after running at `t`, an entry is due at `t + d` iff `d ≥ interval - maxDrift`; one whose callback threw stays due |
| PrecisionTimer.UpdatesKeepRegistry | src/shared/utils/precisionTimer.ts:100-119 | neither ticking nor syncing adds, loses or re-keys an entry |
| PrecisionTimer.RunDue | src/shared/utils/precisionTimer.ts:104-118 | the `forEach` loop's final registry is `TickAll` and its run list is the due ids in order |
| PrecisionTimer.Synced | src/shared/utils/precisionTimer.ts:223-230 | an enabled entry is back-dated by exactly its interval; a disabled one is untouched |
| PrecisionTimer.SyncAll | src/shared/utils/precisionTimer.ts:223-230 | syncing keeps the keys and syncs every entry |
| PrecisionTimer.SyncMakesDue | src/shared/utils/precisionTimer.ts:223-230 | after `forceSync`, every enabled entry is due on any tick from now on and no disabled entry is |
| PrecisionTimer.SyncLoop | src/shared/utils/precisionTimer.ts:224-229 | the `forEach` loop of `forceSync` computes `SyncAll` |
| PrecisionTimer.PrecisionTimer.constructor | src/shared/utils/precisionTimer.ts:24-36 | an empty registry, not running, with the merged configuration; without a worker it uses the browser-timer fallback |
| PrecisionTimer.PrecisionTimer.WorkerFailed | src/shared/utils/precisionTimer.ts:87-97 | the worker is dropped and the browser-timer fallback is switched on |
| PrecisionTimer.PrecisionTimer.HandleTick | src/shared/utils/precisionTimer.ts:100-119 | records the worker's drift, runs exactly the due callbacks in order, and updates `lastExecution` for those that returned |
| PrecisionTimer.PrecisionTimer.AddTimer | src/shared/utils/precisionTimer.ts:148-157 | registers or replaces the id's entry with the interval, `lastExecution = now` and enabled; a new id goes last in visiting order |
| PrecisionTimer.PrecisionTimer.RemoveTimer | src/shared/utils/precisionTimer.ts:159-161 | only that id's entry goes; the others keep their order; an unknown id changes nothing |
| PrecisionTimer.PrecisionTimer.EnableTimer | src/shared/utils/precisionTimer.ts:163-169 | enables the entry and restarts its interval at now; unknown ids are ignored |
| PrecisionTimer.PrecisionTimer.DisableTimer | src/shared/utils/precisionTimer.ts:171-176 | only the enabled flag is cleared; unknown ids are ignored |
| PrecisionTimer.PrecisionTimer.Start | src/shared/utils/precisionTimer.ts:178-195 | does nothing while running; otherwise it marks running and either posts START or runs a first main-thread tick with drift 0 |
| PrecisionTimer.PrecisionTimer.Stop | src/shared/utils/precisionTimer.ts:197-208 | not running afterwards; STOP is posted iff a worker exists |
| PrecisionTimer.PrecisionTimer.GetStats | src/shared/utils/precisionTimer.ts:211-220 | `totalTimers` is the number of entries and `activeTimers` the number of enabled ones, never more |
| PrecisionTimer.PrecisionTimer.ForceSync | src/shared/utils/precisionTimer.ts:223-230 | the registry becomes `SyncAll` of the old one |
| PrecisionTimer.PrecisionTimer.Dispose | src/shared/utils/precisionTimer.ts:232-240 | not running, no entries (so `totalTimers` is 0), and the worker stopped and terminated |
| AlarmSound.RingingIdsMember | src/shared/hooks/useAlarmSound.ts:25-27 | an id is among the ringing ids iff some ringing alarm carries it |
| AlarmSound.NewcomersSpec | src/shared/hooks/useAlarmSound.ts:29-31 | the newly admitted alarms carry each ringing id that was not active, exactly once, and nothing else |
| AlarmSound.NewcomersFirst | src/shared/hooks/useAlarmSound.ts:30-40 | with nothing active, the first ringing alarm is the first one admitted |
| AlarmSound.NoticeMapSpec | src/shared/hooks/useAlarmSound.ts:42-62 | the record maps each admitted id to its own notification and no other id |
| AlarmSound.Admit | src/shared/hooks/useAlarmSound.ts:29-64 | the loop adds the new ringing ids in order; it plays the first one's sound only when nothing was active; it shows and records notifications exactly when enabled and permitted |
| AlarmSound.Retire | src/shared/hooks/useAlarmSound.ts:67-78 | the loop keeps exactly the active ids that still ring, and closes and drops the recorded notifications of the others |
| AlarmSound.CloseAll | src/shared/hooks/useAlarmSound.ts:88-95 | the cleanup loop closes the recorded notifications in order |
| AlarmSound.RetiredSpec | src/shared/hooks/useAlarmSound.ts:71-76 | exactly the visited ids that no longer ring lose their notification; the rest keep theirs unchanged |
| AlarmSound.ActiveAfter | src/shared/hooks/useAlarmSound.ts:29-79 | after both loops the active ids are exactly the ringing ids, each once |
| AlarmSound.ClosedAfter | src/shared/hooks/useAlarmSound.ts:67-78 | the notifications closed were all recorded before the run, never ones just shown |
| AlarmSound.NotesAfter | src/shared/hooks/useAlarmSound.ts:42-78 | the record afterwards holds exactly the ringing ids that had or just got a notification, each with the right one |
| AlarmSound.ReconcileLists | src/shared/hooks/useAlarmSound.ts:24-87 | one run of the effect: active ids equal the ringing ids; at most one play, and only when nothing was active; one notification per new ringing alarm; stopped ids' notifications are closed; audio stops iff nothing rings |
| AlarmSound.NothingActive | src/shared/hooks/useAlarmSound.ts:81-86 | with nothing ringing, nothing stays active |
| AlarmSound.AlarmSoundHook.constructor | src/shared/hooks/useAlarmSound.ts:16-18 | no active ids, no notifications, empty logs |
| AlarmSound.AlarmSoundHook.Reconcile | src/shared/hooks/useAlarmSound.ts:24-87 | the hook's state moves as `ReconcileLists` promises, and the store is not called |
| AlarmSound.AlarmSoundHook.Cleanup | src/shared/hooks/useAlarmSound.ts:88-95 | every recorded notification is closed and the record is emptied |
| AlarmSound.AlarmSoundHook.StopAlarm | src/shared/hooks/useAlarmSound.ts:105-132 | a non-empty id: the store stops that alarm, the id leaves the set, its notification is closed, and audio stops iff the set is empty. No id or "": the store stops everything, all is cleared, and audio always stops |
| AlarmSound.AlarmSoundHook.Snooze | src/shared/hooks/useAlarmSound.ts:134-149 | the store snoozes the alarm, the id leaves the set, its notification is closed, and audio stops iff the set is empty |
| AlarmSound.AlarmSoundHook.Release | src/shared/hooks/useAlarmSound.ts:110-122 | the part stop and snooze share: the id leaves the set and its notification, and audio stops iff nothing is left |
| AlarmSound.AlarmSoundHook.NotificationClicked | src/shared/hooks/useAlarmSound.ts:57-60 | a click stops that alarm and closes the clicked notification |
| AlarmSound.CleanupClosesAll | src/shared/hooks/useAlarmSound.ts:88-95 | the cleanup closes every recorded notification |
| AlarmSound.AtMostOnePlay | src/shared/hooks/useAlarmSound.ts:30-40 | one run asks for at most one sound, only when nothing was active, and it is a ringing alarm's sound |
| AudioEngine.EnvelopesFit | src/shared/utils/audioEngine.ts:17-95 | in every catalog entry, attack + decay + release fit in the duration, sustain is a fraction, and the sound has a name and a positive length |
| AudioEngine.AlarmSoundsDefined | src/shared/stores/alarmStore.ts:75-81 | every sound an alarm can be given has a definition |
| AudioEngine.GetSoundName | src/shared/utils/audioEngine.ts:349-351 | the catalog name of a known id, otherwise the id itself |
| AudioEngine.GetAllSounds | src/shared/utils/audioEngine.ts:353-358 | one entry per alarm sound, in order, with its catalog name |
| AudioEngine.LoopDelayMs | src/shared/utils/audioEngine.ts:280-288 | the loop waits for the sound's duration, or 1000 ms for an unknown id, and always a positive time |
| AudioEngine.Clamp01 | src/shared/utils/audioEngine.ts:323-329 | the value clamped into [0, 1]: kept in range, 0 below and 1 above |
| AudioEngine.Clamp01Idempotent | src/shared/utils/audioEngine.ts:323-329 | clamping twice is clamping once |
| AudioEngine.StopEvents | src/shared/utils/audioEngine.ts:298-321 | `stop()` clears the timer iff one is pending, releases the current nodes iff there are any, and releases the wake lock iff held |
| AudioEngine.AudioEngine.constructor | src/shared/utils/audioEngine.ts:98-121 | volume 0.7, not playing, no timer, no nodes, no wake lock; the context exists iff it could be created |
| AudioEngine.AudioEngine.Stop | src/shared/utils/audioEngine.ts:298-321 | not playing, no pending loop, no current nodes and no wake lock afterwards; exactly the releases `StopEvents` names |
| AudioEngine.AudioEngine.EnsureContext | src/shared/utils/audioEngine.ts:123-137 | a missing context is created when possible; the call succeeds iff a context exists afterwards |
| AudioEngine.AudioEngine.CreateTone | src/shared/utils/audioEngine.ts:139-259 | a defined sound starts a tone that becomes current; an unknown id creates nothing |
| AudioEngine.AudioEngine.PlaySound | src/shared/utils/audioEngine.ts:273-290 | nothing at all when not playing; otherwise the tone starts and the next turn is scheduled after the sound's duration |
| AudioEngine.AudioEngine.Play | src/shared/utils/audioEngine.ts:261-296 | a playing sound is stopped first; without a context nothing plays and the failure is swallowed; otherwise playing starts, the wake lock is held if granted, and the first turn runs |
| AudioEngine.AudioEngine.LoopTimerFires | src/shared/utils/audioEngine.ts:287-289 | a pending turn plays its sound again while playing, and nothing otherwise |
| AudioEngine.AudioEngine.SetVolume | src/shared/utils/audioEngine.ts:323-329 | the volume becomes the clamped value and is applied to the current gain node if there is one |
| AudioEngine.AudioEngine.GetVolume | src/shared/utils/audioEngine.ts:331-333 | returns the stored volume, which is in [0, 1] |
| AudioEngine.AudioEngine.IsCurrentlyPlaying | src/shared/utils/audioEngine.ts:335-337 | returns the playing flag |
| AudioEngine.AudioEngine.TestSound | src/shared/utils/audioEngine.ts:339-347 | plays the sound and sets one more stop timer |
| AudioEngine.AudioEngine.TestStopFires | src/shared/utils/audioEngine.ts:342-346 | the test's timer stops playback only if it is still playing |
| AudioEngine.AudioEngine.Dispose | src/shared/utils/audioEngine.ts:378-383 | stops, then closes the context unless there is none or it is already closed |
| AudioEngine.StopSilencesLoop | src/shared/utils/audioEngine.ts:273-321 | after `stop()`, a loop timer that still fires synthesises nothing |
| TimeWorker.CheckAlarms | src/shared/utils/timeWorker.ts:25-44 | never reports more ids than there are alarms |
| TimeWorker.CheckAlarmsIsStoreTrigger | src/shared/utils/timeWorker.ts:25-44 | the worker selects exactly the ids, in order, that the store's minute trigger would start ringing |
| TimeWorker.CheckAlarmsMember | src/shared/utils/timeWorker.ts:25-44 | an id is reported iff some alarm with that id is active, silent and in this minute |
| TimeWorker.TickMessages | src/shared/utils/timeWorker.ts:46-67 | always a TICK carrying the due ids (absent when none), then an ALARM_TRIGGERED iff some alarm is due |
| TimeWorker.TickReportsDueAlarms | src/shared/utils/timeWorker.ts:46-67 | a tick reports an id as triggered iff the store would start that alarm ringing |
| TimeWorker.WorkerScript.constructor | src/shared/utils/timeWorker.ts:21-23 | no interval, no alarms, not running |
| TimeWorker.WorkerScript.DoTick | src/shared/utils/timeWorker.ts:46-67 | posts the tick's messages and changes nothing else |
| TimeWorker.WorkerScript.OnStart | src/shared/utils/timeWorker.ts:73-79 | only when not running: starts the interval and ticks at once; running afterwards |
| TimeWorker.WorkerScript.OnStop | src/shared/utils/timeWorker.ts:81-87 | clears the interval and the running flag when an interval exists |
| TimeWorker.WorkerScript.OnSync | src/shared/utils/timeWorker.ts:89-94 | replaces the alarm copy wholesale (missing is empty) and ticks at once iff running |
| TimeWorker.WorkerScript.OnCheckAlarms | src/shared/utils/timeWorker.ts:96-106 | answers TIME_SYNC with the due ids, even when there are none |
| TimeWorker.WorkerScript.Handle | src/shared/utils/timeWorker.ts:69-108 | dispatches each message type to its rule |
| TimeWorker.WorkerScript.IntervalFires | src/shared/utils/timeWorker.ts:76 | the interval ticks while it is set |
| LegacyTimer.IndexOf | src/shared/hooks/useTimer.backup.ts:36 | -1 iff the callback is absent; otherwise its first position |
| LegacyTimer.RemoveFirstSpec | src/shared/hooks/useTimer.backup.ts:35-40 | removes exactly one copy of a registered callback, and nothing when it is absent |
| LegacyTimer.IndexOfAppend | src/shared/hooks/useTimer.backup.ts:31-36 | appending does not change where a registered callback is found |
| LegacyTimer.AddThenRemove | src/shared/hooks/useTimer.backup.ts:31-40 | add then remove of a new callback restores the list; with a duplicate, the earlier copy goes |
| LegacyTimer.HighPrecisionTimer.constructor | src/shared/hooks/useTimer.backup.ts:4-9 | no callbacks, not running, no frame pending, no wake lock |
| LegacyTimer.HighPrecisionTimer.AddCallback | src/shared/hooks/useTimer.backup.ts:31-33 | appended, duplicates allowed |
| LegacyTimer.HighPrecisionTimer.RemoveCallback | src/shared/hooks/useTimer.backup.ts:35-40 | the first occurrence is removed; an unknown callback changes nothing |
| LegacyTimer.HighPrecisionTimer.RunCallbacks | src/shared/hooks/useTimer.backup.ts:49-55 | every callback runs in order; each throw is caught and reported; later ones still run |
| LegacyTimer.HighPrecisionTimer.Tick | src/shared/hooks/useTimer.backup.ts:42-60 | nothing when stopped; otherwise the callbacks run iff a second has passed (and then the clock moves to now), and the next frame is requested |
| LegacyTimer.HighPrecisionTimer.Start | src/shared/hooks/useTimer.backup.ts:11-18 | ignored while running; otherwise it runs from now, holds the wake lock if granted, and takes the first frame without running a callback |
| LegacyTimer.HighPrecisionTimer.Stop | src/shared/hooks/useTimer.backup.ts:20-29 | not running, no frame pending, wake lock released |
| LegacyTimer.StartIsIdempotent | src/shared/hooks/useTimer.backup.ts:11-13 | a second `start` changes nothing |
| HoursCalculator.AddEntry | src/pages/HoursCalculatorPage.tsx:28-37 | appends exactly one 09:00–17:00 entry without break or description |
| HoursCalculator.RemoveEntrySpec | src/pages/HoursCalculatorPage.tsx:39-41 | exactly the entries with another id remain, and an unknown id changes nothing |
| HoursCalculator.UpdateEntry | src/pages/HoursCalculatorPage.tsx:43-47 | matching entries get the update, and the others are untouched |
| HoursCalculator.ApplyTouchesOneField | src/pages/HoursCalculatorPage.tsx:45 | an update changes its own field only |
| HoursCalculator.BreakFromInput | src/pages/HoursCalculatorPage.tsx:184 | `parseInt(text) \|\| 0`: the parsed number, or 0 for NaN |
| HoursCalculator.ClockMinutesOfValid | src/pages/HoursCalculatorPage.tsx:52-56 | a valid `H:MM` text reads as its minutes since midnight, within a day |
| HoursCalculator.SpanSpec | src/pages/HoursCalculatorPage.tsx:55-61 | the span is the length in 1..1440 that goes from start round to end; it is a whole day iff the times are equal |
| HoursCalculator.HoursForEntry | src/pages/HoursCalculatorPage.tsx:49-65 | never negative, and 0 when a time is empty |
| HoursCalculator.HoursForValidEntry | src/pages/HoursCalculatorPage.tsx:49-65 | for valid texts the hours are max(0, span − break)/60, and at most 24 for a non-negative break |
| HoursCalculator.NewEntryIsEightHours | src/pages/HoursCalculatorPage.tsx:28-37 | the default shift is eight hours |
| HoursCalculator.TotalHoursSpec | src/pages/HoursCalculatorPage.tsx:67 | the total is never negative, and it is a number iff every entry's hours are |
| HoursCalculator.TotalHoursAppend | src/pages/HoursCalculatorPage.tsx:67 | adding an entry adds its hours to the total |
| HoursCalculator.AddEntryAddsEight | src/pages/HoursCalculatorPage.tsx:28-37 | `addEntry` raises a defined total by eight hours |
| TimerPage.FormatTimeSpec | src/pages/TimerPage.tsx:52-56 | under 100 minutes the text is `mm:ss` and reads back as the seconds; from then on the minutes are written in full |
| TimerPage.TotalSeconds | src/pages/TimerPage.tsx:60 | a number iff both inputs parse, and then minutes·60 + seconds |
| TimerPage.TotalSecondsOfNumbers | src/pages/TimerPage.tsx:60 | inputs typed as numbers give minutes·60 + seconds; empty inputs give 0 |
| TimerPage.PushHistory | src/pages/TimerPage.tsx:23-28 | the newest record goes in front, followed by at most nine older ones in order; never more than ten records |
| TimerPage.Timer.constructor | src/pages/TimerPage.tsx:7-13 | stopped at zero with empty inputs and history |
| TimerPage.Timer.IntervalFires | src/pages/TimerPage.tsx:16-37 | above one second it counts down by one; at one second it stops at zero, records the timer (unnamed ones as 未命名定时器) and plays the chosen sound; no interval means no change |
| TimerPage.Timer.HandleStart | src/pages/TimerPage.tsx:58-69 | at zero it starts from the inputs when they give a positive total, and otherwise does nothing; with time left it toggles running |
| TimerPage.Timer.HandleReset | src/pages/TimerPage.tsx:71-78 | stopped at zero with empty inputs; the history stays |
| StopwatchPage.FormatTimeSpec | src/pages/StopwatchPage.tsx:40-51 | under 100 minutes the full text is `mm:ss.cc` and reads back as the time cut to hundredths; the short form is its first five characters |
| StopwatchPage.FormatOneMinute | src/pages/__tests__/StopwatchPage.test.tsx:118-124 | 61500 ms shows as `01:01.50` |
| StopwatchPage.FormatMilliseconds | src/pages/__tests__/StopwatchPage.test.tsx:264-271 | 123 ms shows as `00:00.12` |
| StopwatchPage.FormatPastAnHour | src/pages/__tests__/StopwatchPage.test.tsx:312-319 | 3661000 ms shows as `61:01.00` (minutes are not wrapped) |
| StopwatchPage.MinOf | src/pages/StopwatchPage.tsx:81 | `Math.min`: an element no larger than any other |
| StopwatchPage.MaxOf | src/pages/StopwatchPage.tsx:82 | `Math.max`: an element no smaller than any other |
| StopwatchPage.FindLapTime | src/pages/StopwatchPage.tsx:85-86 | nothing iff no lap has the time; otherwise the first lap that has it |
| StopwatchPage.BestAndWorstSpec | src/pages/StopwatchPage.tsx:77-88 | nothing under two laps; otherwise best is the id of the first fastest lap and worst the id of the first slowest |
| StopwatchPage.FirstLapsUnique | src/pages/StopwatchPage.tsx:85-86 | there is one first fastest lap and one first slowest lap |
| StopwatchPage.ConsistentLapsHaveBestAndWorst | src/pages/StopwatchPage.tsx:59-66 | with laps numbered from 1, from two laps on both ends are reported |
| StopwatchPage.Stopwatch.constructor | src/pages/StopwatchPage.tsx:10-18 | stopped at zero with no laps |
| StopwatchPage.Stopwatch.HandleStart | src/pages/StopwatchPage.tsx:20-23 | toggles running; on starting, the start instant is put back by the time shown |
| StopwatchPage.Stopwatch.IntervalFires | src/pages/StopwatchPage.tsx:23-25 | while running, the time is now minus the start instant; the tick itself leaves the start instant as it is |
| StopwatchPage.Stopwatch.EffectRuns | src/pages/StopwatchPage.tsx:20-38 | the effect that runs after each render changing `isRunning` or `time`: while running it re-anchors the start instant at now minus the time shown; nothing else changes |
| StopwatchPage.Stopwatch.TickAndRerender | src/pages/StopwatchPage.tsx:20-38 | a tick followed by the effect moves the start instant forward by the render delay, so the time shown falls behind by that delay on every tick |
| StopwatchPage.Stopwatch.HandleLap | src/pages/StopwatchPage.tsx:57-68 | only while running with time on the clock; the new lap goes in front, numbered one more, with the time since the last lap; lap ids count down from the newest and the lap times sum to the last lap's time |
| StopwatchPage.Stopwatch.HandleReset | src/pages/StopwatchPage.tsx:70-75 | stopped at zero with no laps and no last-lap time |
| CountdownPage.Split | src/pages/CountdownPage.tsx:27-31 | days·86400 + hours·3600 + minutes·60 + seconds equals the total, with every field in range |
| CountdownPage.SplitUnique | src/pages/CountdownPage.tsx:27-31 | that split is the only one with fields in range |
| CountdownPage.Tick | src/pages/CountdownPage.tsx:22-49 | all zeros once the target has passed or cannot be read; otherwise the split of the whole seconds left |
| CountdownPage.SplitExample | src/pages/__tests__/CountdownPage.test.tsx:22-25 | 3661 s are 0 d 1 h 1 m 1 s |
| CountdownPage.HandlePresetClick | src/pages/CountdownPage.tsx:97-101 | the preset's date, time and title replace the inputs |
| CountdownPage.Refresh | src/pages/CountdownPage.tsx:19-20 | nothing is updated until both date and time are filled in |
| WorldTimePage.OffsetLabelSpec | src/pages/WorldTimePage.tsx:43-50 | `UTC±hh:mm`, with '+' iff the offset is not behind UTC; the sign and digits read back as the offset turned around |
| WorldTimePage.OffsetLabelZero | src/pages/WorldTimePage.tsx:43-50 | no offset reads `UTC+00:00` |
| WorldTimePage.AddTimezone | src/pages/WorldTimePage.tsx:52-57 | appended iff no zone of that name is chosen; the picker always closes |
| WorldTimePage.AddKeepsDistinct | src/pages/WorldTimePage.tsx:52-57 | adding never creates a second zone of the same name |
| WorldTimePage.RemoveTimezoneSpec | src/pages/WorldTimePage.tsx:59-61 | exactly the zones with another id remain, and the names stay distinct |
| WorldTimePage.PickerSpec | src/pages/WorldTimePage.tsx:177 | a zone is offered iff it is popular and not chosen |
| WorldTimePage.PickedNotOffered | src/pages/WorldTimePage.tsx:52-57 | a zone just added is no longer offered |
| WorldTimePage.InitialSelectionDistinct | src/pages/WorldTimePage.tsx:31-36 | the page starts with four distinct zones |
| WorldTimePage.ShownLabelIgnoresZone | src/pages/WorldTimePage.tsx:39-50 | as written, every zone is shown with the same label, the browser's own offset |
| WorldTimePage.ShownLabelIsTheBrowsers | src/pages/WorldTimePage.tsx:39-50 | a browser in Beijing labels Tokyo `UTC+08:00`, not Tokyo's own `UTC+09:00` |
| WorldTimePage.ZoneOffsetLabelSpec | src/pages/WorldTimePage.tsx:43-50 | the intended label of a zone reads back as the zone's own offset, '+' iff it is not behind UTC |
| WorldTimePage.ZoneOffsetLabelInjective | src/pages/WorldTimePage.tsx:43-50 | zones with different offsets get different intended labels |
| AlarmCsv.Fields | src/shared/components/AlarmList.tsx:22-28 | five fields per alarm; an empty label is '-'; the status is 已启用 iff active, otherwise 已禁用 |
| AlarmCsv.Lines | src/shared/components/AlarmList.tsx:21-31 | the header row, then one row per alarm in list order |
| AlarmCsv.ExportToCsv | src/shared/components/AlarmList.tsx:15-34 | no file iff there are no alarms; otherwise the text starts with U+FEFF |
| AlarmCsv.RowAvoids | src/shared/components/AlarmList.tsx:31 | a row of fields without a character has none of it, other than the quotes and commas |
| AlarmCsv.ExportLines | src/shared/components/AlarmList.tsx:30-34 | when no field holds a line break, splitting the text after the mark on '\n' gives back the header and one row per alarm, in order |
| AlarmCsv.RowFields | src/shared/components/AlarmList.tsx:31 | a row of comma-free fields splits back on ',' into the quoted fields |

## Findings

| source | as written | input that shows it | evidently intended | confidence | as-written member | corrected member |
|---|---|---|---|---|---|---|
| src/shared/stores/alarmStore.ts:336-357 | the store persists through zustand's default JSON storage with no date reviver, so every reloaded `time` is an ISO string; `clearExpiredAlarms` then compares `alarm.time > now`, a string against a `Date`, which is NaN against a number and therefore false | an alarm set for tomorrow, not recurring, saved and the page reloaded: it is dropped | times read back as `Date`s, so every alarm still ahead of now survives a reload | high, not executed | AlarmStore.JsonReloadDropsFutureAlarm | AlarmStore.SaveAndRestore |
| src/pages/WorldTimePage.tsx:39-50 | `getTimezoneOffset(timezone)` rebuilds a `Date` from the zone's wall-clock text and calls `getTimezoneOffset()` on it, which gives the browser's own offset, so every zone shows the same label | a browser in Beijing shows Tokyo as `UTC+08:00` | the zone's own offset, `UTC+09:00` for Tokyo | high, not executed | WorldTimePage.ShownLabelIsTheBrowsers | WorldTimePage.ZoneOffsetLabelInjective |

## Left out

- `formatTime`, `formatTimeWithSeconds`, `formatDate`, `formatAlarmTime`, `getTimeUntilAlarm` and `getGreeting` in `src/shared/utils/timeUtils.ts` (lines 4-34 and 51-58). They are locale and date-library formatting. Where a formatted time ends up in a notification body or a CSV field, the model keeps the instant or takes the formatter as a parameter.
- TimeUtils.FormatDuration: takes a non-negative duration. For a negative one, the source's truncating `%` prints texts such as "-1:-1". No caller passes one (the function is only exported), so this case is not modelled.
- TimeUtils.GetRelativeTimeDescription: beyond a day the date library formats the text. It is modelled as an opaque `CalendarDate`.
- Calendar effects of `setHours`/`setDate`: daylight-saving changes and varying offsets. A day is always 86 400 000 ms and the offset is fixed.
- AlarmStore.AlarmStore.DuplicateAlarm: the day step is +86 400 000 ms, not `setDate(+1)` across a daylight-saving change.
- `generateId` and `Math.random` ids are parameters.
- `new Date()`, `Date.now()` and `performance.now()` are parameters.
- The theme's DOM attribute (`src/shared/stores/alarmStore.ts:204,242,359`) is a display side effect and is left out.
- The permission request on rehydration (`src/shared/stores/alarmStore.ts:362-364`) is a browser prompt and is left out.
- `loadFromStorage` is a no-op in the source.
- AlarmStore.AlarmStore.Rehydrate: the snapshot is passed as a value, with times as instants. This is the intended reload (see Findings). The JSON round trip that returns times as strings is modelled only by `ClearExpiredAfterJsonReload`.
- AlarmStore.SaveAndRestore: states the intended reload. As written, the reload through JSON keeps only recurring alarms (`JsonReloadKeepsOnlyRecurring`). Those come back with string times, and a later `getTime()` call in a sort would throw on them. That failure is not modelled.
- `resetToDefaults` removing the storage key is I/O.
- The store's volume is a `real`. NaN and number-to-string conversions are not modelled.
- PrecisionTimer: the `mainThreadTick` drift measurement and its correction use floating-point `performance.now()` and animation frames (`src/shared/utils/precisionTimer.ts:121-146`). They are not modelled. Ticks are calls with an integer instant, and the worker's drift is a parameter.
- PrecisionTimer: worker creation and the message transport (`src/shared/utils/precisionTimer.ts:38-98`) are abstracted. The model keeps a log of posted messages and a failure event.
- The global scheduler instance and its visibility listeners (`src/shared/utils/precisionTimer.ts:244-267`) are left out because they are browser wiring.
- TimeWorker: the page-side wrapper class (`src/shared/utils/timeWorker.ts:111-228`) is message transport and is not modelled.
- TimeWorker: alarm times are posted as `Date`s (structured clone), and the worker copies them with `new Date`. The model carries the instant.
- TimeWorker: a message with no `data` at all would throw on SYNC. The model's `Sync` always carries an optional list.
- AlarmSound: the hook's volume effect, its permission request and its `beforeunload` handler (`src/shared/hooks/useAlarmSound.ts:20-22,99-103,168-180`) are browser wiring and are left out.
- AlarmSound: `testSound` and the getters that only delegate to the engine (`src/shared/hooks/useAlarmSound.ts:151-166`) are left out. The engine side is modelled.
- AudioEngine: Web Audio synthesis is not modelled: oscillators, envelope ramps in floating-point seconds, and white noise from `Math.random`. A tone start is one log event.
- AudioEngine: whether a context or a wake lock can be had is a parameter.
- AudioEngine.AudioEngine.Play: `play` is asynchronous in the source. The model runs it to completion in one step, so a `stop` that interleaves with an unfinished `play` is not modelled.
- AudioEngine.AudioEngine.TestSound: the test duration and the await on `play` are not modelled. The stop timer is a counter fired by `TestStopFires`.
- LegacyTimer: the `useTimer` hook around the class (`src/shared/hooks/useTimer.backup.ts:92-181`) is React wiring and is left out.
- LegacyTimer.HighPrecisionTimer.Start: the wake-lock request is asynchronous in the source. The model grants or refuses it at once.
- HoursCalculator: the totals' formatting, the pay computation and `toFixed` (`src/pages/HoursCalculatorPage.tsx:68-76`) are floating-point display maths.
- HoursCalculator.HoursForEntry: `Number()` on a part is modelled for empty and decimal-digit texts only. Signs, white space and exponents are not modelled.
- Text.NumberOf: `Number()` also accepts surrounding white space, a sign, a fraction, an exponent, `Infinity` and `0x`/`0o`/`0b` literals, and its result is a floating-point number. None of these is modelled. The only texts it receives are the parts of a time input's value, which is empty or `HH:MM` with two-digit fields.
- Text.ParseInt: results are unbounded integers. So `-0` is 0, and digit runs beyond 2^53 are not rounded as JavaScript rounds them. The inputs (number inputs and the break field) do not give such texts.
- TimerPage: the presets, the progress ring (`src/pages/TimerPage.tsx:80`), the `Audio` element and the re-creation of the interval on every change are left out. The chime is logged as a file and volume.
- StopwatchPage.Stopwatch.HandleStart: the start instant is re-anchored with the `now` of the effect that follows the click.
- StopwatchPage.Stopwatch.IntervalFires: the effect that follows each tick is the separate call `EffectRuns`. The model does not fix when React runs it: the caller supplies the instant. So the size of the lag is a parameter.
- The stopwatch's average and other display maths are left out.
- CountdownPage: parsing `new Date(date + 'T' + time)` is left to a parameter. The preset catalog's concrete dates are left out.
- WorldTimePage: the offsets (the browser's and each zone's) are parameters, because time-zone data is not modelled. How the page derives its offset is a finding (see Findings).
- WorldTimePage: `getTimeInTimezone` and the hour difference are locale and floating-point work and are left out.
- AlarmCsv: the export is not RFC 4180 CSV. Quotes inside fields are not doubled and rows end in '\n'. So only the line structure is proved, for fields without line breaks, and not a general parse round trip.
- AlarmCsv: the download through a `Blob` and a link is I/O.
