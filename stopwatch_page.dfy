/** The stopwatch page: elapsed milliseconds measured against a start instant, laps recorded
    newest first, and the fastest and slowest lap. `Date.now()` is a parameter. */
module StopwatchPage {
  import opened Wrappers
  import opened Text

  /** `formatTime(ms, showMilliseconds)`: `mm:ss.cc` (or `mm:ss`), the minutes not wrapped
      into hours and the hundredths truncated. */
  function FormatTime(milliseconds: nat, showMilliseconds: bool): string {
    var totalSeconds := milliseconds / 1000;
    var minutes := totalSeconds / 60;
    var seconds := totalSeconds % 60;
    var ms := (milliseconds % 1000) / 10;
    if showMilliseconds then Pad2(minutes) + ":" + Pad2(seconds) + "." + Pad2(ms)
    else Pad2(minutes) + ":" + Pad2(seconds)
  }

  /** Under 100 minutes the full text is `mm:ss.cc`, and its three fields read back as the
      time cut down to whole hundredths. */
  lemma FormatTimeSpec(milliseconds: nat)
    requires milliseconds < 6000000
    ensures var f := FormatTime(milliseconds, true);
      |f| == 8 && f[2] == ':' && f[5] == '.'
      && AllDigits(f[..2]) && AllDigits(f[3..5]) && AllDigits(f[6..])
      && DigitsValue(f[..2]) * 60000 + DigitsValue(f[3..5]) * 1000 + DigitsValue(f[6..]) * 10
        == milliseconds - milliseconds % 10
    ensures FormatTime(milliseconds, false) == FormatTime(milliseconds, true)[..5]
  {
    var totalSeconds := milliseconds / 1000;
    var minutes, seconds, ms := totalSeconds / 60, totalSeconds % 60, (milliseconds % 1000) / 10;
    Pad2Spec(minutes);
    Pad2Spec(seconds);
    Pad2Spec(ms);
    var f := FormatTime(milliseconds, true);
    assert f == Pad2(minutes) + ":" + Pad2(seconds) + "." + Pad2(ms);
    assert f[..2] == Pad2(minutes) && f[3..5] == Pad2(seconds) && f[6..] == Pad2(ms);
  }

  /** 1 min 1.5 s shows as `01:01.50`. */
  lemma FormatOneMinute()
    ensures FormatTime(61500, true) == "01:01.50"
  {
    Pad2OneDigit(1);
    Pad2TwoDigits(50);
  }

  /** 123 ms shows as `00:00.12`. */
  lemma FormatMilliseconds()
    ensures FormatTime(123, true) == "00:00.12"
  {
    Pad2OneDigit(0);
    Pad2TwoDigits(12);
  }

  /** 1 h 1 min 1 s shows as `61:01.00`: the minutes go past 59. */
  lemma FormatPastAnHour()
    ensures FormatTime(3661000, true) == "61:01.00"
  {
    assert 3661000 / 1000 / 60 == 61 && 3661000 / 1000 % 60 == 1 && 3661000 % 1000 / 10 == 0;
    assert Pad2(0) == "00" by { Pad2OneDigit(0); }
    assert Pad2(1) == "01" by { Pad2OneDigit(1); }
    assert Pad2(61) == "61" by { Pad2TwoDigits(61); }
  }

  datatype Lap = Lap(id: int, time: int, lapTime: int)

  /** The lap times added up. */
  function LapSum(laps: seq<Lap>): int {
    if laps == [] then 0 else laps[0].lapTime + LapSum(laps[1..])
  }

  /** Lap `i` from the front has id `n - i`, and the wall time recorded with every lap is the
      sum of its own and all earlier lap times. */
  ghost predicate LapsConsistent(laps: seq<Lap>) {
    forall i :: 0 <= i < |laps| ==> laps[i].id == |laps| - i && laps[i].time == LapSum(laps[i..])
  }

  // ---------------------------------------------------------------------------------------
  // Fastest and slowest lap

  datatype BestWorst = BestWorst(best: Option<int>, worst: Option<int>)

  function LapTimes(laps: seq<Lap>): (r: seq<int>)
    ensures |r| == |laps| && forall i :: 0 <= i < |laps| ==> r[i] == laps[i].lapTime
  {
    seq(|laps|, i requires 0 <= i < |laps| => laps[i].lapTime)
  }

  /** `Math.min(...xs)` */
  function MinOf(xs: seq<int>): (r: int)
    requires |xs| > 0
    ensures r in xs && forall i :: 0 <= i < |xs| ==> r <= xs[i]
  {
    if |xs| == 1 then xs[0] else var m := MinOf(xs[1..]); if xs[0] <= m then xs[0] else m
  }

  /** `Math.max(...xs)` */
  function MaxOf(xs: seq<int>): (r: int)
    requires |xs| > 0
    ensures r in xs && forall i :: 0 <= i < |xs| ==> xs[i] <= r
  {
    if |xs| == 1 then xs[0] else var m := MaxOf(xs[1..]); if xs[0] >= m then xs[0] else m
  }

  /** `laps.find(lap => lap.lapTime === t)`, as a position. */
  function FindLapTime(laps: seq<Lap>, t: int): (r: Option<nat>)
    ensures r.None? <==> forall j :: 0 <= j < |laps| ==> laps[j].lapTime != t
    ensures r.Some? ==>
      r.value < |laps| && laps[r.value].lapTime == t && forall j :: 0 <= j < r.value ==> laps[j].lapTime != t
  {
    if laps == [] then None
    else if laps[0].lapTime == t then Some(0)
    else match FindLapTime(laps[1..], t)
      case None => None
      case Some(k) => Some(k + 1)
  }

  /** `found?.id || null`: no lap, or id 0, is null. */
  function IdOrNull(laps: seq<Lap>, found: Option<nat>): Option<int>
    requires found.Some? ==> found.value < |laps|
  {
    if found.None? || laps[found.value].id == 0 then None else Some(laps[found.value].id)
  }

  /** `getBestAndWorstLap` */
  function GetBestAndWorstLap(laps: seq<Lap>): BestWorst {
    if |laps| < 2 then BestWorst(None, None)
    else
      var lapTimes := LapTimes(laps);
      BestWorst(IdOrNull(laps, FindLapTime(laps, MinOf(lapTimes))), IdOrNull(laps, FindLapTime(laps, MaxOf(lapTimes))))
  }

  /** Lap `i` is the first of the fastest laps. */
  ghost predicate FirstFastest(laps: seq<Lap>, i: int) {
    0 <= i < |laps| && (forall j :: 0 <= j < |laps| ==> laps[i].lapTime <= laps[j].lapTime)
    && forall j :: 0 <= j < i ==> laps[j].lapTime > laps[i].lapTime
  }

  /** Lap `i` is the first of the slowest laps. */
  ghost predicate FirstSlowest(laps: seq<Lap>, i: int) {
    0 <= i < |laps| && (forall j :: 0 <= j < |laps| ==> laps[j].lapTime <= laps[i].lapTime)
    && forall j :: 0 <= j < i ==> laps[j].lapTime < laps[i].lapTime
  }

  /** Nothing under two laps; from two laps on, the best is the id of the first fastest lap and
      the worst that of the first slowest one (null for an id of 0). */
  lemma BestAndWorstSpec(laps: seq<Lap>)
    ensures |laps| < 2 ==> GetBestAndWorstLap(laps) == BestWorst(None, None)
    ensures |laps| >= 2 ==>
      exists i :: FirstFastest(laps, i) && GetBestAndWorstLap(laps).best == (if laps[i].id == 0 then None else Some(laps[i].id))
    ensures |laps| >= 2 ==>
      exists i :: FirstSlowest(laps, i) && GetBestAndWorstLap(laps).worst == (if laps[i].id == 0 then None else Some(laps[i].id))
  {
    if |laps| >= 2 {
      var lapTimes := LapTimes(laps);
      var lo, hi := MinOf(lapTimes), MaxOf(lapTimes);
      var k :| 0 <= k < |lapTimes| && lapTimes[k] == lo;
      var b := FindLapTime(laps, lo).value;
      assert FirstFastest(laps, b);
      var l :| 0 <= l < |lapTimes| && lapTimes[l] == hi;
      var w := FindLapTime(laps, hi).value;
      assert FirstSlowest(laps, w);
    }
  }

  /** There is one first fastest lap and one first slowest lap. */
  lemma FirstLapsUnique(laps: seq<Lap>, i: int, j: int)
    ensures FirstFastest(laps, i) && FirstFastest(laps, j) ==> i == j
    ensures FirstSlowest(laps, i) && FirstSlowest(laps, j) ==> i == j
  {
    if FirstFastest(laps, i) && FirstFastest(laps, j) {
      assert laps[i].lapTime == laps[j].lapTime;
    }
    if FirstSlowest(laps, i) && FirstSlowest(laps, j) {
      assert laps[i].lapTime == laps[j].lapTime;
    }
  }

  // ---------------------------------------------------------------------------------------
  // The page state

  class Stopwatch {
    var time: int
    var isRunning: bool
    var laps: seq<Lap>
    /** `startTimeRef.current` */
    var startTime: int
    /** `lastLapTimeRef.current` */
    var lastLapTime: int

    /** Laps are numbered down from the newest, and the time of the last lap is what they sum to. */
    ghost predicate Valid()
      reads this
    {
      LapsConsistent(laps) && lastLapTime == LapSum(laps)
    }

    constructor ()
      ensures Valid() && time == 0 && !isRunning && laps == [] && startTime == 0 && lastLapTime == 0
    {
      time, isRunning, laps, startTime, lastLapTime := 0, false, [], 0, 0;
    }

    /** `handleStart`, with the effect that follows it: toggles running; on starting, the start
        instant is put back by the time already shown. */
    method HandleStart(now: int)
      requires Valid()
      modifies this
      ensures Valid() && isRunning == !old(isRunning) && time == old(time) && laps == old(laps)
      ensures lastLapTime == old(lastLapTime)
      ensures isRunning ==> startTime == now - time
      ensures !isRunning ==> startTime == old(startTime)
    {
      isRunning := !isRunning;
      if isRunning {
        startTime := now - time;
      }
    }

    /** The ten-millisecond interval, which exists only while running. */
    method IntervalFires(now: int)
      requires Valid()
      modifies this
      ensures Valid() && isRunning == old(isRunning) && laps == old(laps) && startTime == old(startTime)
      ensures lastLapTime == old(lastLapTime)
      ensures time == if isRunning then now - startTime else old(time)
    {
      if isRunning {
        time := now - startTime;
      }
    }

    /** The effect on `[isRunning, time]`, which runs again after every render that changed
        the time: while running it re-anchors the start instant at `now` minus the time shown
        and sets a new interval. */
    method EffectRuns(now: int)
      requires Valid()
      modifies this
      ensures Valid() && isRunning == old(isRunning) && time == old(time) && laps == old(laps)
      ensures lastLapTime == old(lastLapTime)
      ensures startTime == if isRunning then now - time else old(startTime)
    {
      if isRunning {
        startTime := now - time;
      }
    }

    /** One tick of the interval at `tickAt` and the effect that follows the re-render at
        `effectAt`: the start instant moves forward by the render delay, so the time shown
        falls behind the wall clock by that delay on every tick. */
    method TickAndRerender(tickAt: int, effectAt: int)
      requires Valid() && isRunning
      modifies this
      ensures Valid() && isRunning && laps == old(laps) && lastLapTime == old(lastLapTime)
      ensures time == tickAt - old(startTime)
      ensures startTime == old(startTime) + (effectAt - tickAt)
    {
      IntervalFires(tickAt);
      EffectRuns(effectAt);
    }

    /** `handleLap`: only while running with time on the clock; the new lap goes in front with
        the next number and the time since the previous lap. */
    method HandleLap()
      requires Valid()
      modifies this
      ensures Valid() && time == old(time) && isRunning == old(isRunning) && startTime == old(startTime)
      ensures !(old(isRunning) && old(time) > 0) ==> laps == old(laps) && lastLapTime == old(lastLapTime)
      ensures old(isRunning) && old(time) > 0 ==>
        laps == [Lap(|old(laps)| + 1, time, time - old(lastLapTime))] + old(laps) && lastLapTime == time
    {
      if isRunning && time > 0 {
        var lapTime := time - lastLapTime;
        var newLap := Lap(|laps| + 1, time, lapTime);
        ghost var prev := laps;
        laps := [newLap] + laps;
        lastLapTime := time;
        assert laps[1..] == prev;
        forall i | 0 <= i < |laps|
          ensures laps[i].id == |laps| - i && laps[i].time == LapSum(laps[i..])
        {
          if i > 0 {
            assert laps[i..] == prev[i - 1..];
          }
        }
      }
    }

    /** `handleReset`: stopped at zero with no laps. */
    method HandleReset()
      modifies this
      ensures Valid() && !isRunning && time == 0 && laps == [] && lastLapTime == 0 && startTime == old(startTime)
    {
      isRunning := false;
      time := 0;
      laps := [];
      lastLapTime := 0;
    }
  }

  /** With consistent laps the ids are never 0, so from two laps on both ends are reported. */
  lemma ConsistentLapsHaveBestAndWorst(laps: seq<Lap>)
    requires LapsConsistent(laps) && |laps| >= 2
    ensures GetBestAndWorstLap(laps).best.Some? && GetBestAndWorstLap(laps).worst.Some?
  {
    BestAndWorstSpec(laps);
  }
}
