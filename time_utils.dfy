/** Integer timekeeping rules of the alarm clock: minute equality, "the next time the wall
    clock reads H:MM", the `H:MM` validator and parser, and the countdown and duration texts.

    A `Date` is an integer number of milliseconds since the epoch. Local wall-clock time is
    that number plus a fixed `offset` in milliseconds, and a local day is always 86 400 000 ms. */
module TimeUtils {
  import opened Wrappers
  import opened Text

  const MsPerSecond: int := 1000
  const MsPerMinute: int := 60000
  const MsPerHour: int := 3600000
  const MsPerDay: int := 86400000

  // ---------------------------------------------------------------------------------------
  // Minute granularity

  /** `setSeconds(0, 0)`: the start of the minute that contains `t`. */
  function ZeroSeconds(t: int): (r: int)
    ensures r <= t < r + MsPerMinute && r % MsPerMinute == 0
  {
    t - t % MsPerMinute
  }

  /** `isSameTimeIgnoreSeconds`: both instants fall in the same whole minute. */
  predicate IsSameTimeIgnoreSeconds(a: int, b: int) {
    ZeroSeconds(a) == ZeroSeconds(b)
  }

  /** Same minute means same quotient by one minute: the relation is an equivalence. */
  lemma SameMinuteIff(a: int, b: int)
    ensures IsSameTimeIgnoreSeconds(a, b) <==> a / MsPerMinute == b / MsPerMinute
  {
    assert ZeroSeconds(a) == MsPerMinute * (a / MsPerMinute);
    assert ZeroSeconds(b) == MsPerMinute * (b / MsPerMinute);
  }

  /** An alarm set on a whole minute `m` matches exactly the instants of that minute,
      from m:00.000 to m:59.999, and no other. */
  lemma SameMinuteWindow(m: int, t: int)
    requires m % MsPerMinute == 0
    ensures IsSameTimeIgnoreSeconds(m, t) <==> m <= t < m + MsPerMinute
  {
    assert ZeroSeconds(m) == m;
    if m <= t < m + MsPerMinute {
      assert t - m == t % MsPerMinute by {
        assert t == m + (t - m);
      }
    }
  }

  // ---------------------------------------------------------------------------------------
  // Local wall clock with a fixed offset

  /** Milliseconds since local midnight. */
  function LocalMsOfDay(t: int, offset: int): (r: int)
    ensures 0 <= r < MsPerDay
  {
    (t + offset) % MsPerDay
  }

  function LocalHour(t: int, offset: int): int {
    LocalMsOfDay(t, offset) / MsPerHour
  }

  function LocalMinute(t: int, offset: int): int {
    LocalMsOfDay(t, offset) % MsPerHour / MsPerMinute
  }

  /** Seconds and milliseconds of the local wall clock, as milliseconds into the minute. */
  function LocalMsOfMinute(t: int, offset: int): int {
    LocalMsOfDay(t, offset) % MsPerMinute
  }

  /** `d.setHours(h, m, 0, 0)` on a copy of `t`; hours and minutes out of range carry over into
      the neighbouring days as they do for a `Date`. */
  function SetHours(t: int, offset: int, h: int, m: int): int {
    t - LocalMsOfDay(t, offset) + h * MsPerHour + m * MsPerMinute
  }

  /** `getNextValidAlarmTime(h, m)`: h:m:00.000 today, or the same time tomorrow when that is
      not strictly later than now. */
  function GetNextValidAlarmTime(h: int, m: int, now: int, offset: int): int {
    var today := SetHours(now, offset, h, m);
    if today <= now then today + MsPerDay else today
  }

  /** The wall clock of `t` reads h:m:00.000. */
  predicate ReadsAt(t: int, offset: int, h: int, m: int) {
    LocalMsOfDay(t, offset) == h * MsPerHour + m * MsPerMinute
  }

  /** For a valid hour and minute the result reads h:m:00.000, lies in (now, now + 1 day], is
      today's time exactly when that is later than now, and is the FIRST instant after now that
      reads h:m:00.000. */
  lemma NextValidAlarmTimeSpec(h: int, m: int, now: int, offset: int)
    requires 0 <= h <= 23 && 0 <= m <= 59
    ensures var r := GetNextValidAlarmTime(h, m, now, offset);
      && ReadsAt(r, offset, h, m)
      && LocalHour(r, offset) == h && LocalMinute(r, offset) == m && LocalMsOfMinute(r, offset) == 0
      && now < r <= now + MsPerDay
      && (r == SetHours(now, offset, h, m) <==> SetHours(now, offset, h, m) > now)
      && forall t :: now < t < r ==> !ReadsAt(t, offset, h, m)
  {
    var r := GetNextValidAlarmTime(h, m, now, offset);
    var wall := h * MsPerHour + m * MsPerMinute;
    assert 0 <= wall < MsPerDay;
    var base := now - LocalMsOfDay(now, offset);
    assert (base + offset) % MsPerDay == 0 by {
      assert base + offset == MsPerDay * ((now + offset) / MsPerDay);
    }
    assert r == base + wall || r == base + wall + MsPerDay;
    ModDayShift(base + offset, wall, if r == base + wall then 0 else 1);
    assert r + offset == (base + offset) + wall + (if r == base + wall then 0 else 1) * MsPerDay;
    assert ReadsAt(r, offset, h, m);
    forall t | now < t < r
      ensures !ReadsAt(t, offset, h, m)
    {
      if ReadsAt(t, offset, h, m) {
        SameWallClockDiffersByDays(t + offset, r + offset);
        assert false;
      }
    }
  }

  /** A multiple of a day plus a wall-clock time below one day has that wall-clock time. */
  lemma ModDayShift(b: int, w: int, k: int)
    requires b % MsPerDay == 0 && 0 <= w < MsPerDay
    ensures (b + w + k * MsPerDay) % MsPerDay == w
  {
    var q := b / MsPerDay;
    assert b == q * MsPerDay;
    assert b + w + k * MsPerDay == (q + k) * MsPerDay + w;
  }

  /** Two instants with the same wall-clock time are a whole number of days apart. */
  lemma SameWallClockDiffersByDays(x: int, y: int)
    requires x % MsPerDay == y % MsPerDay
    ensures x == y || x <= y - MsPerDay || x >= y + MsPerDay
  {
    var qx, qy := x / MsPerDay, y / MsPerDay;
    assert x == qx * MsPerDay + x % MsPerDay;
    assert y == qy * MsPerDay + y % MsPerDay;
    if qx < qy {
      assert qx * MsPerDay <= qy * MsPerDay - MsPerDay;
    } else if qx > qy {
      assert qx * MsPerDay >= qy * MsPerDay + MsPerDay;
    }
  }

  // ---------------------------------------------------------------------------------------
  // H:MM texts

  /** `isAlarmTimeValid`: the pattern `^([0-1]?[0-9]|2[0-3]):[0-5][0-9]$`. */
  predicate IsAlarmTimeValid(s: string) {
    (|s| == 4 && IsDigit(s[0]) && s[1] == ':' && IsMinuteText(s[2..]))
    || (|s| == 5 && IsHourText2(s[..2]) && s[2] == ':' && IsMinuteText(s[3..]))
  }

  /** `[0-1][0-9]|2[0-3]` */
  predicate IsHourText2(s: string) {
    |s| == 2 && (('0' <= s[0] <= '1' && IsDigit(s[1])) || (s[0] == '2' && '0' <= s[1] <= '3'))
  }

  /** `[0-5][0-9]` */
  predicate IsMinuteText(s: string) {
    |s| == 2 && '0' <= s[0] <= '5' && IsDigit(s[1])
  }

  datatype HourMinute = HourMinute(hour: int, minute: int)

  /** The digits before the colon in a string shaped `\d{1,2}:\d{2}`. */
  function HourDigits(s: string): string
    requires |s| >= 4
  {
    if |s| == 4 then s[..1] else s[..2]
  }

  function MinuteDigits(s: string): string
    requires |s| >= 4
  {
    s[|s| - 2..]
  }

  /** The pattern `^(\d{1,2}):(\d{2})$`. */
  predicate MatchesClockPattern(s: string) {
    (|s| == 4 && IsDigit(s[0]) && s[1] == ':' && IsDigit(s[2]) && IsDigit(s[3]))
    || (|s| == 5 && IsDigit(s[0]) && IsDigit(s[1]) && s[2] == ':' && IsDigit(s[3]) && IsDigit(s[4]))
  }

  /** `parseTimeString`: the hour and minute of an `H:MM` or `HH:MM` text, `None` (null) when
      the text has another shape or the hour or minute is out of range. */
  function ParseTimeString(s: string): (r: Option<HourMinute>)
    ensures r.Some? ==> 0 <= r.value.hour <= 23 && 0 <= r.value.minute <= 59
  {
    if !MatchesClockPattern(s) then None
    else
      var hour := DigitsValue(HourDigits(s));
      var minute := DigitsValue(MinuteDigits(s));
      if hour < 0 || hour > 23 || minute < 0 || minute > 59 then None
      else Some(HourMinute(hour, minute))
  }

  lemma TwoDigitValue(s: string)
    requires |s| == 2 && AllDigits(s)
    ensures DigitsValue(s) == DigitValue(s[0]) * 10 + DigitValue(s[1])
  {
    var p := s[..1];
    assert p[..|p| - 1] == [];
    assert DigitsValue(p) == DigitValue(s[0]);
    assert s[..|s| - 1] == p;
  }

  /** The parser accepts exactly what the validator accepts. */
  lemma ParseAcceptsExactlyValid(s: string)
    ensures ParseTimeString(s).Some? <==> IsAlarmTimeValid(s)
  {
    if |s| == 5 && MatchesClockPattern(s) {
      TwoDigitValue(s[..2]);
      TwoDigitValue(s[3..]);
    } else if |s| == 4 && MatchesClockPattern(s) {
      TwoDigitValue(s[2..]);
      assert s[..1][..|s[..1]| - 1] == [];
    }
  }

  /** Writing a valid hour (plain or padded) and a padded minute and parsing gives them back. */
  lemma ParseTimeStringRoundTrip(h: nat, m: nat, padHour: bool)
    requires h <= 23 && m <= 59
    ensures var s := (if padHour then Pad2(h) else NatToString(h)) + ":" + Pad2(m);
      ParseTimeString(s) == Some(HourMinute(h, m)) && IsAlarmTimeValid(s)
  {
    var hs := if padHour then Pad2(h) else NatToString(h);
    var s := hs + ":" + Pad2(m);
    Pad2Spec(h);
    Pad2Spec(m);
    NatToStringLength(h);
    NatToStringRoundTrip(h);
    assert HourDigits(s) == hs;
    assert MinuteDigits(s) == Pad2(m);
    ParseAcceptsExactlyValid(s);
  }

  /** `createTimeFromInput(s)`: `s.split(':').map(Number)`, then `setHours(h, m, 0, 0)` rolled to
      tomorrow when not later than now. `None` stands for the Invalid Date that a NaN hour or
      minute (or a missing minute) produces. */
  function CreateTimeFromInput(s: string, now: int, offset: int): Option<int> {
    var parts := SplitOn(s, ':');
    if |parts| < 2 then None
    else
      match (NumberOf(parts[0]), NumberOf(parts[1]))
      case (Some(h), Some(m)) => Some(GetNextValidAlarmTime(h, m, now, offset))
      case _ => None
  }

  /** On a text the validator accepts, `createTimeFromInput` is `getNextValidAlarmTime` on the
      parsed hour and minute. */
  lemma CreateTimeFromValidInput(s: string, now: int, offset: int)
    requires IsAlarmTimeValid(s)
    ensures ParseTimeString(s).Some?
    ensures CreateTimeFromInput(s, now, offset)
      == Some(GetNextValidAlarmTime(ParseTimeString(s).value.hour, ParseTimeString(s).value.minute, now, offset))
  {
    ParseAcceptsExactlyValid(s);
    var hd, md := HourDigits(s), MinuteDigits(s);
    assert ':' !in hd;
    assert ':' !in md;
    assert s == hd + [':'] + md;
    SplitOnPrefix(hd, ':', md);
    SplitOnNone(md, ':');
  }

  // ---------------------------------------------------------------------------------------
  // Countdown until an alarm

  datatype TimeUntil = TimeUntil(text: string, totalMinutes: int, isOverdue: bool)

  /** Days, hours and minutes of a number of minutes. */
  function MinuteParts(total: nat): (r: (nat, nat, nat))
    ensures r.0 * 1440 + r.1 * 60 + r.2 == total && r.1 < 24 && r.2 < 60
  {
    (total / 1440, total % 1440 / 60, total % 60)
  }

  /** `getDetailedTimeUntilAlarm(alarmTime)` at instant `now`. */
  function GetDetailedTimeUntilAlarm(alarmTime: int, now: int): TimeUntil {
    var diff := alarmTime - now;
    if diff <= 0 then TimeUntil("已过期", 0, true)
    else
      var totalMinutes := (diff + MsPerMinute - 1) / MsPerMinute;
      var (days, hours, minutes) := MinuteParts(totalMinutes);
      var text :=
        (if days > 0 then NatToString(days) + "天" else "")
        + (if hours > 0 then NatToString(hours) + "小时" else "")
        + (if minutes > 0 || (days == 0 && hours == 0) then NatToString(OrOne(minutes)) + "分钟" else "")
        + "后";
      TimeUntil(text, totalMinutes, false)
  }

  /** Overdue exactly when the alarm is not later than now; otherwise the minutes are the
      rounded-up distance, at least one, and the text is a phrase ending in '后' (from now). */
  lemma DetailedTimeUntilSpec(alarmTime: int, now: int)
    ensures var r := GetDetailedTimeUntilAlarm(alarmTime, now);
      && (r.isOverdue <==> alarmTime <= now)
      && (r.isOverdue ==> r == TimeUntil("已过期", 0, true))
      && (!r.isOverdue ==>
            && r.totalMinutes >= 1
            && (r.totalMinutes - 1) * MsPerMinute < alarmTime - now <= r.totalMinutes * MsPerMinute
            && |r.text| >= 2 && r.text[|r.text| - 1] == '后')
  {
    var diff := alarmTime - now;
    if diff > 0 {
      var q := (diff + MsPerMinute - 1) / MsPerMinute;
      assert q * MsPerMinute <= diff + MsPerMinute - 1 < q * MsPerMinute + MsPerMinute;
    }
  }

  /** `n || 1` for a count: zero becomes one. */
  function OrOne(n: nat): (r: nat)
    ensures r >= 1 && (n > 0 ==> r == n)
  {
    if n == 0 then 1 else n
  }

  /** `createSnoozeTime(minutes)`: `addMinutes(now, minutes)`. */
  function CreateSnoozeTime(minutes: int, now: int): int {
    now + minutes * MsPerMinute
  }

  /** With a snooze length in 1..60 minutes the snooze time is later than now by at most an hour. */
  lemma SnoozeTimeBounds(minutes: int, now: int)
    requires 1 <= minutes <= 60
    ensures now + MsPerMinute <= CreateSnoozeTime(minutes, now) <= now + MsPerHour
    ensures CreateSnoozeTime(minutes, now) - now == minutes * MsPerMinute
  {}

  // ---------------------------------------------------------------------------------------
  // Durations and relative times

  /** `formatDuration(ms)`: `H:MM:SS` from one hour on, `M:SS` below. */
  function FormatDuration(milliseconds: nat): string {
    var totalSeconds := milliseconds / 1000;
    var hours := totalSeconds / 3600;
    var minutes := totalSeconds % 3600 / 60;
    var seconds := totalSeconds % 60;
    if hours > 0 then NatToString(hours) + ":" + Pad2(minutes) + ":" + Pad2(seconds)
    else NatToString(minutes) + ":" + Pad2(seconds)
  }

  /** Reads a duration text back: `H:MM:SS` or `M:SS` to a number of seconds. */
  function DurationValue(s: string): Option<nat> {
    FieldsValue(SplitOn(s, ':'))
  }

  /** The seconds that the ':'-separated fields of a duration text stand for. */
  function FieldsValue(p: seq<string>): Option<nat> {
    if |p| == 3 && AllDigits(p[0]) && AllDigits(p[1]) && AllDigits(p[2]) then
      Some(DigitsValue(p[0]) * 3600 + DigitsValue(p[1]) * 60 + DigitsValue(p[2]))
    else if |p| == 2 && AllDigits(p[0]) && AllDigits(p[1]) then
      Some(DigitsValue(p[0]) * 60 + DigitsValue(p[1]))
    else None
  }

  /** The fields `formatDuration` prints for a number of whole seconds. */
  function DurationFields(totalSeconds: nat): seq<string> {
    var h, m, sec := totalSeconds / 3600, totalSeconds % 3600 / 60, totalSeconds % 60;
    if h > 0 then [NatToString(h), Pad2(m), Pad2(sec)] else [NatToString(m), Pad2(sec)]
  }

  lemma FormatDurationIsJoin(milliseconds: nat)
    ensures FormatDuration(milliseconds) == Join(DurationFields(milliseconds / 1000), ":")
  {
    var parts := DurationFields(milliseconds / 1000);
    assert Join(parts[|parts| - 1..], ":") == parts[|parts| - 1];
    if |parts| == 3 {
      assert parts[1..][1..] == parts[2..];
    }
  }

  lemma DurationArithmetic(totalSeconds: nat)
    ensures totalSeconds / 3600 * 3600 + totalSeconds % 3600 / 60 * 60 + totalSeconds % 60 == totalSeconds
    ensures totalSeconds % 3600 / 60 < 60
    ensures totalSeconds / 3600 > 0 <==> totalSeconds >= 3600
  {
    assert totalSeconds % 60 == totalSeconds % 3600 % 60;
  }

  /** The text reads back as the whole seconds of the duration; it has an hours field exactly
      from one hour on, and the seconds field is always two digits. */
  lemma FormatDurationRoundTrip(milliseconds: nat)
    ensures DurationValue(FormatDuration(milliseconds)) == Some(milliseconds / 1000)
    ensures |SplitOn(FormatDuration(milliseconds), ':')| == (if milliseconds / 1000 >= 3600 then 3 else 2)
    ensures var p := SplitOn(FormatDuration(milliseconds), ':'); |p[|p| - 1]| == 2
  {
    SplitFormatDuration(milliseconds);
    DurationFieldsValue(milliseconds / 1000);
  }

  /** Splitting the text on ':' gives back the printed fields. */
  lemma SplitFormatDuration(milliseconds: nat)
    ensures SplitOn(FormatDuration(milliseconds), ':') == DurationFields(milliseconds / 1000)
  {
    var totalSeconds := milliseconds / 1000;
    var h, m, sec := totalSeconds / 3600, totalSeconds % 3600 / 60, totalSeconds % 60;
    DurationArithmetic(totalSeconds);
    Pad2Spec(sec);
    Pad2Spec(m);
    var parts := DurationFields(totalSeconds);
    forall i | 0 <= i < |parts|
      ensures ':' !in parts[i]
    {
      NoColonInDigits(parts[i]);
    }
    FormatDurationIsJoin(milliseconds);
    SplitJoin(parts, ':');
  }

  /** The printed fields, the last one two long, stand for the seconds they were printed from. */
  lemma DurationFieldsValue(totalSeconds: nat)
    ensures var p := DurationFields(totalSeconds);
      |p| == (if totalSeconds >= 3600 then 3 else 2) && |p[|p| - 1]| == 2 && FieldsValue(p) == Some(totalSeconds)
  {
    var h, m, sec := totalSeconds / 3600, totalSeconds % 3600 / 60, totalSeconds % 60;
    DurationArithmetic(totalSeconds);
    Pad2Spec(sec);
    if h > 0 {
      ThreeFields(h, m, sec);
    } else {
      TwoFields(m, sec);
    }
  }

  lemma ThreeFields(h: nat, m: nat, sec: nat)
    requires m < 60 && sec < 60
    ensures FieldsValue([NatToString(h), Pad2(m), Pad2(sec)]) == Some(h * 3600 + m * 60 + sec)
  {
    Pad2Spec(m);
    Pad2Spec(sec);
    NatToStringRoundTrip(h);
  }

  lemma TwoFields(m: nat, sec: nat)
    requires sec < 60
    ensures FieldsValue([NatToString(m), Pad2(sec)]) == Some(m * 60 + sec)
  {
    Pad2Spec(sec);
    NatToStringRoundTrip(m);
  }

  lemma NoColonInDigits(s: string)
    requires AllDigits(s)
    ensures ':' !in s
  {
  }

  /** What `getRelativeTimeDescription` returns: a phrase, or (more than a day away) a text the
      date library formats, which this model does not render. */
  datatype Relative = Phrase(text: string) | CalendarDate

  /** `getRelativeTimeDescription(date)` at instant `now`; `d` is the floor of the distance in
      minutes, negative in the past. */
  function GetRelativeTimeDescription(date: int, now: int): Relative {
    var d := (date - now) / MsPerMinute;
    if d < -1440 then CalendarDate
    else if d < -60 then Phrase(NatToString(Abs(d / 60)) + "小时前")
    else if d < -1 then Phrase(NatToString(-d) + "分钟前")
    else if d < 1 then Phrase("现在")
    else if d < 60 then Phrase(NatToString(d) + "分钟后")
    else if d < 1440 then Phrase(NatToString(d / 60) + "小时" + NatToString(d % 60) + "分钟后")
    else CalendarDate
  }

  function Abs(x: int): nat {
    if x < 0 then -x else x
  }

  /** The bands: "now" exactly for d in {-1, 0}; "d minutes from now" for 1..59; "|d| minutes
      ago" for -60..-2; from 61 minutes to a day ago, the hours rounded up and "ago"; from an
      hour to a day ahead, whole hours and the remaining minutes; a calendar date beyond that.
      Every other phrase ends in '前' (ago) or '后' (from now). */
  lemma RelativeTimeBands(date: int, now: int)
    ensures var d := (date - now) / MsPerMinute;
      var r := GetRelativeTimeDescription(date, now);
      && (r == Phrase("现在") <==> -1 <= d <= 0)
      && (1 <= d <= 59 ==> r == Phrase(NatToString(d) + "分钟后"))
      && (-60 <= d <= -2 ==> r == Phrase(NatToString(-d) + "分钟前"))
      && (-1440 <= d <= -61 ==>
          exists h: nat :: 2 <= h <= 24 && (h - 1) * 60 < -d <= h * 60 && r == Phrase(NatToString(h) + "小时前"))
      && (60 <= d <= 1439 ==>
          exists h: nat, m: nat :: 1 <= h <= 23 && m < 60 && h * 60 + m == d
            && r == Phrase(NatToString(h) + "小时" + NatToString(m) + "分钟后"))
      && (r == CalendarDate <==> d < -1440 || d >= 1440)
  {
    var d := (date - now) / MsPerMinute;
    var r := GetRelativeTimeDescription(date, now);
    if -1440 <= d <= -61 {
      var h := Abs(d / 60);
      assert d / 60 * 60 <= d < d / 60 * 60 + 60;
      assert 2 <= h <= 24 && (h - 1) * 60 < -d <= h * 60;
      assert r == Phrase(NatToString(h) + "小时前");
    }
    if 60 <= d <= 1439 {
      var h, m := d / 60, d % 60;
      assert 1 <= h <= 23 && m < 60 && h * 60 + m == d;
      assert r == Phrase(NatToString(h) + "小时" + NatToString(m) + "分钟后");
    }
    if r.Phrase? && !(-1 <= d <= 0) {
      var t := r.text;
      assert t[|t| - 1] == '前' || t[|t| - 1] == '后';
      assert t != "现在";
    }
  }
}
