/** The older once-a-second timer driven by animation frames: a list of callbacks run, in
    order, whenever at least a second has passed since the last run. Callbacks are known by
    identity only; which of them throw is a parameter of each frame; `Date.now()` is a
    parameter; the screen wake lock is granted or refused by a parameter. */
module LegacyTimer {
  import opened Seqs

  /** A callback, by identity (the `===` that `indexOf` compares with). */
  type Callback = nat

  /** Once a second. */
  const TickIntervalMs: int := 1000

  /** `indexOf`: the first position of `c` in `s`, or -1. */
  function IndexOf(s: seq<Callback>, c: Callback): (r: int)
    ensures -1 <= r < |s|
    ensures r == -1 <==> c !in s
    ensures r >= 0 ==> s[r] == c && c !in s[..r]
  {
    if s == [] then -1
    else if s[0] == c then 0
    else
      var k := IndexOf(s[1..], c);
      assert k >= 0 ==> s[1..][..k] == s[1..k + 1];
      if k == -1 then -1 else k + 1
  }

  /** The list after `splice(indexOf(c), 1)` when `c` is there, the list itself otherwise. */
  function RemoveFirst(s: seq<Callback>, c: Callback): seq<Callback> {
    var i := IndexOf(s, c);
    if i == -1 then s else s[..i] + s[i + 1..]
  }

  /** Removing takes away exactly one copy of a registered callback, and nothing otherwise. */
  lemma RemoveFirstSpec(s: seq<Callback>, c: Callback)
    ensures c in s ==> multiset(RemoveFirst(s, c)) == multiset(s) - multiset{c}
    ensures c in s ==> |RemoveFirst(s, c)| == |s| - 1
    ensures c !in s ==> RemoveFirst(s, c) == s
  {
    if c in s {
      var i := IndexOf(s, c);
      assert s == s[..i] + [c] + s[i + 1..];
      calc {
        multiset(s);
        multiset(s[..i]) + multiset{c} + multiset(s[i + 1..]);
      }
    }
  }

  /** The first position of a callback is unaffected by what follows it. */
  lemma {:induction false} IndexOfAppend(s: seq<Callback>, t: seq<Callback>, c: Callback)
    requires c in s
    ensures IndexOf(s + t, c) == IndexOf(s, c)
  {
    if s[0] != c {
      assert (s + t)[1..] == s[1..] + t;
      IndexOfAppend(s[1..], t, c);
    }
  }

  /** Adding a callback that was not registered and removing it again restores the list;
      with a duplicate, removing drops the earlier copy and keeps the one just added. */
  lemma AddThenRemove(s: seq<Callback>, c: Callback)
    ensures c !in s ==> RemoveFirst(s + [c], c) == s
    ensures c in s ==> RemoveFirst(s + [c], c) == RemoveFirst(s, c) + [c]
  {
    var i := IndexOf(s + [c], c);
    if c in s {
      assert (s + [c])[..IndexOf(s, c)] == s[..IndexOf(s, c)];
      IndexOfAppend(s, [c], c);
      assert (s + [c])[i + 1..] == s[i + 1..] + [c];
    } else {
      assert c in (s + [c]);
      assert i == |s|;
      assert (s + [c])[..i] == s;
    }
  }

  /** The instance: callbacks, running flag, time of the last run, the pending animation
      frame and the wake lock; `invoked` and `errors` record what the frames did. */
  class HighPrecisionTimer {
    var callbacks: seq<Callback>
    var isRunning: bool
    var lastTime: int
    var framePending: bool
    var wakeLock: bool
    /** every callback invocation, in order */
    var invoked: seq<Callback>
    /** the callbacks whose throw was caught and reported */
    var errors: seq<Callback>

    /** A frame is only ever pending while the timer runs. */
    ghost predicate Valid()
      reads this
    {
      framePending ==> isRunning
    }

    constructor ()
      ensures Valid() && callbacks == [] && !isRunning && lastTime == 0
      ensures !framePending && !wakeLock && invoked == [] && errors == []
    {
      callbacks, isRunning, lastTime, framePending, wakeLock := [], false, 0, false, false;
      invoked, errors := [], [];
    }

    /** `addCallback`: appended, duplicates allowed. */
    method AddCallback(c: Callback)
      modifies this
      ensures callbacks == old(callbacks) + [c]
      ensures isRunning == old(isRunning) && lastTime == old(lastTime) && framePending == old(framePending)
      ensures wakeLock == old(wakeLock) && invoked == old(invoked) && errors == old(errors)
    {
      callbacks := callbacks + [c];
    }

    /** `removeCallback`: the first occurrence goes; an unknown callback changes nothing. */
    method RemoveCallback(c: Callback)
      modifies this
      ensures callbacks == RemoveFirst(old(callbacks), c)
      ensures isRunning == old(isRunning) && lastTime == old(lastTime) && framePending == old(framePending)
      ensures wakeLock == old(wakeLock) && invoked == old(invoked) && errors == old(errors)
    {
      var index := IndexOf(callbacks, c);
      if index != -1 {
        callbacks := callbacks[..index] + callbacks[index + 1..];
      }
    }

    /** The `forEach` of a frame: every callback in order, each throw caught and reported,
        later callbacks run regardless. */
    method RunCallbacks(throws: Callback -> bool)
      modifies this
      ensures invoked == old(invoked) + old(callbacks)
      ensures errors == old(errors) + Filter(old(callbacks), throws)
      ensures callbacks == old(callbacks) && isRunning == old(isRunning) && lastTime == old(lastTime)
      ensures framePending == old(framePending) && wakeLock == old(wakeLock)
    {
      var cbs := callbacks;
      var calls, caught := invoked, errors;
      var i := 0;
      while i < |cbs|
        invariant 0 <= i <= |cbs|
        invariant calls == old(invoked) + cbs[..i]
        invariant caught == old(errors) + Filter(cbs[..i], throws)
        modifies {}
      {
        var callback := cbs[i];
        calls := calls + [callback];
        if throws(callback) {
          caught := caught + [callback];
        }
        assert cbs[..i + 1] == cbs[..i] + [callback];
        FilterConcat(cbs[..i], [callback], throws);
        i := i + 1;
      }
      assert cbs[..i] == cbs;
      invoked, errors := calls, caught;
    }

    /** One animation frame (`tick`): nothing at all when stopped; otherwise the callbacks run
        when a second or more has passed, the clock is reset to `now`, and the next frame is
        requested. */
    method Tick(now: int, throws: Callback -> bool)
      requires Valid()
      modifies this
      ensures Valid() && callbacks == old(callbacks) && isRunning == old(isRunning) && wakeLock == old(wakeLock)
      ensures !old(isRunning) ==>
        framePending == old(framePending) && lastTime == old(lastTime) && invoked == old(invoked) && errors == old(errors)
      ensures old(isRunning) ==> framePending
      ensures old(isRunning) && now - old(lastTime) >= TickIntervalMs ==>
        lastTime == now && invoked == old(invoked) + callbacks && errors == old(errors) + Filter(callbacks, throws)
      ensures old(isRunning) && now - old(lastTime) < TickIntervalMs ==>
        lastTime == old(lastTime) && invoked == old(invoked) && errors == old(errors)
    {
      if !isRunning {
        return;
      }
      if now - lastTime >= TickIntervalMs {
        RunCallbacks(throws);
        lastTime := now;
      }
      framePending := true;
    }

    /** `start`: ignored while running; otherwise runs from `now`, asks for the wake lock and
        takes the first frame at once, which runs no callback since no time has passed. */
    method Start(now: int, wakeLockGranted: bool, throws: Callback -> bool)
      requires Valid()
      modifies this
      ensures Valid() && isRunning && callbacks == old(callbacks)
      ensures invoked == old(invoked) && errors == old(errors)
      ensures old(isRunning) ==>
        lastTime == old(lastTime) && framePending == old(framePending) && wakeLock == old(wakeLock)
      ensures !old(isRunning) ==> lastTime == now && framePending && wakeLock == (old(wakeLock) || wakeLockGranted)
    {
      if isRunning {
        return;
      }
      isRunning := true;
      lastTime := now;
      if wakeLockGranted {
        wakeLock := true;
      }
      Tick(now, throws);
    }

    /** `stop`: not running, no frame pending, wake lock released. */
    method Stop()
      modifies this
      ensures Valid() && !isRunning && !framePending && !wakeLock
      ensures callbacks == old(callbacks) && lastTime == old(lastTime)
      ensures invoked == old(invoked) && errors == old(errors)
    {
      isRunning := false;
      if framePending {
        framePending := false;
      }
      if wakeLock {
        wakeLock := false;
      }
    }
  }

  /** Starting twice is starting once. */
  method StartIsIdempotent(t: HighPrecisionTimer, now: int, later: int, granted: bool)
    requires t.Valid() && !t.isRunning && !t.wakeLock
    modifies t
    ensures t.isRunning && t.lastTime == now && t.wakeLock == granted && t.invoked == old(t.invoked)
  {
    t.Start(now, granted, _ => false);
    t.Start(later, !granted, _ => false);
  }
}
