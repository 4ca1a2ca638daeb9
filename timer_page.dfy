/** The countdown timer page: a time in whole seconds counted down once a second, started from
    the minute and second inputs, and a history of the last ten timers that ran out.
    `Date.now()` and the store's sound and volume are parameters of the tick. */
module TimerPage {
  import opened Wrappers
  import opened Text

  /** The name given to a history record when the timer has none. */
  const UnnamedTimer: string := "未命名定时器"

  const HistoryLimit: nat := 10

  datatype TimerRecord = TimerRecord(id: string, name: string, duration: int, completedAt: int)

  /** The sound the page plays when a timer runs out: its file and the store's volume. */
  datatype Chime = Chime(file: string, volume: real)

  /** `formatTime(seconds)`: minutes and seconds, each padded to two digits; minutes are not
      wrapped into hours. */
  function FormatTime(seconds: nat): string {
    Pad2(seconds / 60) + ":" + Pad2(seconds % 60)
  }

  /** Under 100 minutes the text is `mm:ss` and reads back as the number of seconds; from 100
      minutes on, the minutes are written out in full. */
  lemma FormatTimeSpec(seconds: nat)
    ensures seconds < 6000 ==>
      |FormatTime(seconds)| == 5 && FormatTime(seconds)[2] == ':'
      && AllDigits(FormatTime(seconds)[..2]) && AllDigits(FormatTime(seconds)[3..])
      && DigitsValue(FormatTime(seconds)[..2]) * 60 + DigitsValue(FormatTime(seconds)[3..]) == seconds
    ensures seconds >= 6000 ==> FormatTime(seconds) == NatToString(seconds / 60) + ":" + Pad2(seconds % 60)
  {
    var f := FormatTime(seconds);
    Pad2Spec(seconds % 60);
    if seconds < 6000 {
      Pad2Spec(seconds / 60);
      assert f[..2] == Pad2(seconds / 60);
      assert f[3..] == Pad2(seconds % 60);
    } else {
      Pad2NoTruncation(seconds / 60);
    }
  }

  /** `parseInt(text || '0')`: an empty input counts as 0; an input that is not a number is NaN. */
  function InputValue(text: string): Option<int> {
    ParseInt(if text == "" then "0" else text)
  }

  /** The seconds `handleStart` reads from the inputs, `None` when either is NaN. */
  function TotalSeconds(inputMinutes: string, inputSeconds: string): (r: Option<int>)
    ensures r.Some? <==> InputValue(inputMinutes).Some? && InputValue(inputSeconds).Some?
    ensures r.Some? ==> r.value == InputValue(inputMinutes).value * 60 + InputValue(inputSeconds).value
  {
    match (InputValue(inputMinutes), InputValue(inputSeconds))
    case (Some(m), Some(s)) => Some(m * 60 + s)
    case _ => None
  }

  /** The inputs give a positive number of seconds. */
  predicate CanStart(inputMinutes: string, inputSeconds: string) {
    TotalSeconds(inputMinutes, inputSeconds).Some? && TotalSeconds(inputMinutes, inputSeconds).value > 0
  }

  /** Minutes and seconds typed as numbers give minutes * 60 + seconds; empty inputs give 0. */
  lemma TotalSecondsOfNumbers(m: int, s: int)
    ensures TotalSeconds(IntToString(m), IntToString(s)) == Some(m * 60 + s)
    ensures TotalSeconds("", "") == Some(0)
  {
    ParseIntRoundTrip(m);
    ParseIntRoundTrip(s);
    ParseIntRoundTrip(0);
    assert IntToString(0) == "0";
  }

  /** The history after a timer runs out: the new record in front, at most nine older ones. */
  function PushHistory(history: seq<TimerRecord>, rec: TimerRecord): (r: seq<TimerRecord>)
    ensures |r| <= HistoryLimit && |r| == if |history| < HistoryLimit then |history| + 1 else HistoryLimit
    ensures r[0] == rec && forall i :: 1 <= i < |r| ==> r[i] == history[i - 1]
  {
    [rec] + if |history| <= 9 then history else history[..9]
  }

  /** The page state. */
  class Timer {
    var time: int
    var initialTime: int
    var isRunning: bool
    var inputMinutes: string
    var inputSeconds: string
    var timerName: string
    /** newest first */
    var timerHistory: seq<TimerRecord>
    /** the sounds played when timers ran out */
    var chimes: seq<Chime>

    /** The count is between zero and where it started; the history holds ten records at most. */
    ghost predicate Valid()
      reads this
    {
      0 <= time <= initialTime && |timerHistory| <= HistoryLimit
    }

    constructor ()
      ensures Valid() && time == 0 && initialTime == 0 && !isRunning
      ensures inputMinutes == "" && inputSeconds == "" && timerName == "" && timerHistory == [] && chimes == []
    {
      time, initialTime, isRunning := 0, 0, false;
      inputMinutes, inputSeconds, timerName := "", "", "";
      timerHistory, chimes := [], [];
    }

    /** One firing of the interval, which exists only while running with time left: above one
        second it counts down by one; at one second it stops at zero, records the timer and
        plays the chosen sound. */
    method IntervalFires(now: nat, selectedSound: string, volume: real)
      requires Valid()
      modifies this
      ensures Valid() && initialTime == old(initialTime)
      ensures inputMinutes == old(inputMinutes) && inputSeconds == old(inputSeconds) && timerName == old(timerName)
      ensures !(old(isRunning) && old(time) > 0) ==>
        time == old(time) && isRunning == old(isRunning) && timerHistory == old(timerHistory) && chimes == old(chimes)
      ensures old(isRunning) && old(time) > 1 ==>
        time == old(time) - 1 && isRunning && timerHistory == old(timerHistory) && chimes == old(chimes)
      ensures old(isRunning) && old(time) == 1 ==>
        time == 0 && !isRunning
        && timerHistory == PushHistory(old(timerHistory),
          TimerRecord(NatToString(now), if timerName == "" then UnnamedTimer else timerName, initialTime, now))
        && chimes == old(chimes) + [Chime("/sounds/" + selectedSound + ".mp3", volume)]
    {
      if !(isRunning && time > 0) {
        return;
      }
      if time <= 1 {
        isRunning := false;
        var name := if timerName == "" then UnnamedTimer else timerName;
        timerHistory := PushHistory(timerHistory, TimerRecord(NatToString(now), name, initialTime, now));
        chimes := chimes + [Chime("/sounds/" + selectedSound + ".mp3", volume)];
        time := 0;
      } else {
        time := time - 1;
      }
    }

    /** `handleStart`: at zero, start from the inputs when they give a positive number of
        seconds and do nothing otherwise; with time left, pause or resume. */
    method HandleStart()
      requires Valid()
      modifies this
      ensures Valid()
      ensures inputMinutes == old(inputMinutes) && inputSeconds == old(inputSeconds) && timerName == old(timerName)
      ensures timerHistory == old(timerHistory) && chimes == old(chimes)
      ensures old(time) == 0 && CanStart(inputMinutes, inputSeconds) ==>
        time == TotalSeconds(inputMinutes, inputSeconds).value && initialTime == time && isRunning
      ensures old(time) == 0 && !CanStart(inputMinutes, inputSeconds) ==>
        time == 0 && initialTime == old(initialTime) && isRunning == old(isRunning)
      ensures old(time) != 0 ==> time == old(time) && initialTime == old(initialTime) && isRunning == !old(isRunning)
    {
      if time == 0 {
        var totalSeconds := TotalSeconds(inputMinutes, inputSeconds);
        if totalSeconds.Some? && totalSeconds.value > 0 {
          time := totalSeconds.value;
          initialTime := totalSeconds.value;
          isRunning := true;
        }
      } else {
        isRunning := !isRunning;
      }
    }

    /** `handleReset`: stopped at zero with empty inputs; the history stays. */
    method HandleReset()
      requires Valid()
      modifies this
      ensures Valid() && !isRunning && time == 0 && initialTime == 0
      ensures inputMinutes == "" && inputSeconds == "" && timerName == ""
      ensures timerHistory == old(timerHistory) && chimes == old(chimes)
    {
      isRunning := false;
      time := 0;
      initialTime := 0;
      inputMinutes := "";
      inputSeconds := "";
      timerName := "";
    }
  }
}
