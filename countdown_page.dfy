/** The countdown page: the time left until a target instant, split into days, hours, minutes
    and seconds once a second. The instant `new Date(date + 'T' + time)` is a parameter of the
    tick (`None` for an Invalid Date), as is the current instant, both in milliseconds. */
module CountdownPage {
  import opened Wrappers

  const SecondsPerDay: int := 24 * 3600

  datatype TimeRemaining = TimeRemaining(days: int, hours: int, minutes: int, seconds: int, total: int)

  /** date-fns `differenceInSeconds(later, earlier)`: whole seconds, rounded toward zero. */
  function DifferenceInSeconds(later: int, earlier: int): int {
    if later >= earlier then (later - earlier) / 1000 else -((earlier - later) / 1000)
  }

  /** The split of a number of seconds the page shows. */
  function Split(totalSeconds: nat): (r: TimeRemaining)
    ensures r.total == totalSeconds
    ensures r.days * SecondsPerDay + r.hours * 3600 + r.minutes * 60 + r.seconds == totalSeconds
    ensures r.days >= 0 && 0 <= r.hours < 24 && 0 <= r.minutes < 60 && 0 <= r.seconds < 60
  {
    var days := totalSeconds / SecondsPerDay;
    var hours := (totalSeconds % SecondsPerDay) / 3600;
    var minutes := (totalSeconds % 3600) / 60;
    var seconds := totalSeconds % 60;
    SplitArithmetic(totalSeconds);
    TimeRemaining(days, hours, minutes, seconds, totalSeconds)
  }

  /** The day remainder is whole hours plus the hour remainder, which is whole minutes plus
      the minute remainder. */
  lemma SplitArithmetic(x: nat)
    ensures x % SecondsPerDay == (x % SecondsPerDay) / 3600 * 3600 + x % 3600
    ensures x % 3600 == (x % 3600) / 60 * 60 + x % 60
  {
    HourRemainder(x);
    MinuteRemainder(x);
  }

  lemma HourRemainder(x: nat)
    ensures x % 86400 == (x % 86400) / 3600 * 3600 + x % 3600
  {
    var q, d := x / 86400, x % 86400;
    assert x == q * 24 * 3600 + d;
    assert x / 3600 == q * 24 + d / 3600;
  }

  lemma MinuteRemainder(x: nat)
    ensures x % 3600 == (x % 3600) / 60 * 60 + x % 60
  {
    var q, d := x / 3600, x % 3600;
    assert x == q * 60 * 60 + d;
    assert x / 60 == q * 60 + d / 60;
  }

  /** The split is the only one with hours, minutes and seconds in range. */
  lemma SplitUnique(totalSeconds: nat, d: int, h: int, m: int, s: int)
    requires d >= 0 && 0 <= h < 24 && 0 <= m < 60 && 0 <= s < 60
    requires d * SecondsPerDay + h * 3600 + m * 60 + s == totalSeconds
    ensures Split(totalSeconds) == TimeRemaining(d, h, m, s, totalSeconds)
  {
    var r := Split(totalSeconds);
    var x := h * 3600 + m * 60 + s;
    assert 0 <= x < SecondsPerDay;
    assert r.days == d by {
      assert totalSeconds == d * SecondsPerDay + x;
    }
    assert r.hours * 3600 + r.minutes * 60 + r.seconds == x;
    assert r.hours == h by {
      assert x == h * 3600 + (m * 60 + s);
      assert r.hours * 3600 + (r.minutes * 60 + r.seconds) == x;
    }
    assert r.minutes * 60 + r.seconds == m * 60 + s;
  }

  /** One firing of the page's interval: the time left when the target is still ahead, all
      zeros once it has passed or cannot be read. */
  function Tick(target: Option<int>, now: int): (r: TimeRemaining)
    ensures target.None? || target.value <= now ==> r == TimeRemaining(0, 0, 0, 0, 0)
    ensures target.Some? && target.value > now ==>
      r.total == (target.value - now) / 1000
      && r.days * SecondsPerDay + r.hours * 3600 + r.minutes * 60 + r.seconds == r.total
      && r.days >= 0 && 0 <= r.hours < 24 && 0 <= r.minutes < 60 && 0 <= r.seconds < 60
  {
    if target.Some? && target.value > now then Split(DifferenceInSeconds(target.value, now))
    else TimeRemaining(0, 0, 0, 0, 0)
  }

  /** 3661 seconds are 0 days, 1 hour, 1 minute and 1 second. */
  lemma SplitExample()
    ensures Split(3661) == TimeRemaining(0, 1, 1, 1, 3661)
  {
    SplitUnique(3661, 0, 1, 1, 1);
  }

  /** The three inputs of the page. */
  datatype Form = Form(targetDate: string, targetTime: string, eventTitle: string)

  datatype PresetEvent = PresetEvent(title: string, date: string, time: string)

  /** `handlePresetClick`: the preset's date, time and title replace the three inputs. */
  function HandlePresetClick(form: Form, preset: PresetEvent): (r: Form)
    ensures r.targetDate == preset.date && r.targetTime == preset.time && r.eventTitle == preset.title
  {
    Form(preset.date, preset.time, preset.title)
  }

  /** The interval exists only once both the date and the time are filled in; until then the
      time left shown is left as it is. */
  function Refresh(form: Form, shown: Option<TimeRemaining>, target: Option<int>, now: int): (r: Option<TimeRemaining>)
    ensures form.targetDate == "" || form.targetTime == "" ==> r == shown
    ensures form.targetDate != "" && form.targetTime != "" ==> r == Some(Tick(target, now))
  {
    if form.targetDate == "" || form.targetTime == "" then shown else Some(Tick(target, now))
  }
}
