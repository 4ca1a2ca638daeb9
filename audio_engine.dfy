/** The synthesised alarm sounds and the engine that loops one of them. Web Audio itself is
    outside the model: a tone that starts is an event in the engine's log, the nodes it
    creates are one token, and whether an audio context or a wake lock can be obtained is an
    input of the operation that asks for one. */
module AudioEngine {
  import opened Wrappers
  import opened AlarmStore

  // ---------------------------------------------------------------------------------------
  // The sound catalog

  datatype Waveform = Sine | Square | Sawtooth | Triangle

  /** Attack, decay and release in milliseconds; the sustain level as a fraction of the volume. */
  datatype Envelope = Envelope(attackMs: nat, decayMs: nat, sustain: real, releaseMs: nat)

  /** One synthesised sound; the duration is in milliseconds. */
  datatype SoundData = SoundData(name: string, frequency: nat, waveform: Waveform, durationMs: nat, envelope: Envelope)

  /** `SOUND_DEFINITIONS`: the eleven sounds, keyed by id. */
  const SoundDefinitions: map<string, SoundData> := map[
    "clock" := SoundData("时钟", 800, Square, 1000, Envelope(10, 100, 0.3, 500)),
    "beep" := SoundData("蜂鸣声", 1000, Sine, 500, Envelope(10, 50, 0.8, 100)),
    "rooster" := SoundData("公鸡声", 600, Sawtooth, 2000, Envelope(100, 300, 0.4, 800)),
    "siren" := SoundData("警笛声", 440, Triangle, 1500, Envelope(50, 100, 0.7, 300)),
    "nuclear" := SoundData("核弹", 200, Sawtooth, 3000, Envelope(200, 500, 0.6, 1000)),
    "alien" := SoundData("外星人", 1200, Square, 1800, Envelope(10, 200, 0.5, 400)),
    "rain" := SoundData("雨声", 300, Sine, 4000, Envelope(500, 300, 0.8, 2000)),
    "bomb" := SoundData("炸弹", 80, Sawtooth, 2500, Envelope(10, 800, 0.2, 1500)),
    "mystery" := SoundData("神秘之声", 666, Triangle, 2200, Envelope(300, 400, 0.6, 800)),
    "bell" := SoundData("钟声", 523, Sine, 3000, Envelope(10, 500, 0.3, 2000)),
    "whitenoise" := SoundData("白噪音", 440, Square, 5000, Envelope(100, 0, 1.0, 500))
  ]

  /** Every envelope fits in its sound: attack, decay and release leave a sustain time that is
      not negative, the sustain level is a fraction, and every sound has a name and lasts. */
  lemma EnvelopesFit()
    ensures forall k :: k in SoundDefinitions ==>
      var d := SoundDefinitions[k];
      && d.envelope.attackMs + d.envelope.decayMs + d.envelope.releaseMs <= d.durationMs
      && 0.0 <= d.envelope.sustain <= 1.0
      && d.durationMs > 0 && d.name != ""
  {
  }

  /** Every sound an alarm can be given has a definition. */
  lemma AlarmSoundsDefined()
    ensures forall i :: 0 <= i < |AlarmSounds| ==> AlarmSounds[i] in SoundDefinitions
  {
  }

  /** `SOUND_DEFINITIONS[key]?.name || key`. */
  function GetSoundName(key: string): (r: string)
    ensures key in SoundDefinitions ==> r == SoundDefinitions[key].name
    ensures key !in SoundDefinitions ==> r == key
  {
    if key in SoundDefinitions && SoundDefinitions[key].name != "" then SoundDefinitions[key].name else key
  }

  datatype SoundEntry = SoundEntry(key: string, name: string)

  /** One entry per alarm sound, in order, named from the catalog. */
  function GetAllSounds(): (r: seq<SoundEntry>)
    ensures |r| == |AlarmSounds|
    ensures forall i :: 0 <= i < |r| ==> r[i].key == AlarmSounds[i] && r[i].name == SoundDefinitions[AlarmSounds[i]].name
  {
    AlarmSoundsDefined();
    seq(|AlarmSounds|, i requires 0 <= i < |AlarmSounds| => SoundEntry(AlarmSounds[i], GetSoundName(AlarmSounds[i])))
  }

  /** The delay before the loop plays a sound again: its duration, or one second for an id
      without a definition. */
  function LoopDelayMs(sound: string): (r: nat)
    ensures r > 0
    ensures sound !in SoundDefinitions ==> r == 1000
    ensures sound in SoundDefinitions ==> r == SoundDefinitions[sound].durationMs
  {
    EnvelopesFit();
    if sound in SoundDefinitions then SoundDefinitions[sound].durationMs else 1000
  }

  /** `Math.max(0, Math.min(1, v))` */
  function Clamp01(v: real): (r: real)
    ensures 0.0 <= r <= 1.0
    ensures 0.0 <= v <= 1.0 ==> r == v
    ensures v < 0.0 ==> r == 0.0
    ensures v > 1.0 ==> r == 1.0
  {
    if v < 0.0 then 0.0 else if v > 1.0 then 1.0 else v
  }

  lemma Clamp01Idempotent(v: real)
    ensures Clamp01(Clamp01(v)) == Clamp01(v)
  {
  }

  // ---------------------------------------------------------------------------------------
  // The engine

  /** The audio context: never obtained, obtained (running or suspended), or closed. */
  datatype ContextState = NoContext | Open | Closed

  /** The oscillator and gain node of the last tone started: its sound and start time. */
  datatype Tone = Tone(sound: string, start: int)

  /** The pending loop timer: the sound it plays again and its delay. */
  datatype LoopTimer = LoopTimer(sound: string, delayMs: nat)

  datatype AudioEvent =
    | ToneStarted(sound: string, start: int)
    | GainSet(level: real)
    | TimerCleared
    | NodesReleased(tone: Tone)
    | WakeLockReleased
    | ContextClosed

  /** What `stop()` does to the outside world, given whether a loop timer is pending, the
      current tone and whether the wake lock is held. */
  function StopEvents(loopPending: bool, current: Option<Tone>, wakeLock: bool): (r: seq<AudioEvent>)
    ensures TimerCleared in r <==> loopPending
    ensures WakeLockReleased in r <==> wakeLock
    ensures forall t :: NodesReleased(t) in r <==> current == Some(t)
    ensures |r| <= 3
  {
    (if loopPending then [TimerCleared] else [])
    + (if current.Some? then [NodesReleased(current.value)] else [])
    + (if wakeLock then [WakeLockReleased] else [])
  }

  class AudioEngine {
    var ctx: ContextState
    var volume: real
    var isPlaying: bool
    var loop: Option<LoopTimer>
    var current: Option<Tone>
    var wakeLock: bool
    /** Timers `testSound` has set up to stop the test, not yet fired. */
    var testStops: nat
    var log: seq<AudioEvent>

    /** The volume is a fraction, and a loop timer is pending only while playing, with the
        delay of its sound. */
    ghost predicate Valid()
      reads this
    {
      && 0.0 <= volume <= 1.0
      && (loop.Some? ==> isPlaying && loop.value.delayMs == LoopDelayMs(loop.value.sound))
    }

    /** The constructor starts creating the audio context; `contextAvailable` says whether that
        succeeds. */
    constructor (contextAvailable: bool)
      ensures Valid()
      ensures ctx == (if contextAvailable then Open else NoContext)
      ensures volume == 0.7 && !isPlaying && loop == None && current == None && !wakeLock
      ensures testStops == 0 && log == []
    {
      ctx := if contextAvailable then Open else NoContext;
      volume := 0.7;
      isPlaying, loop, current, wakeLock := false, None, None, false;
      testStops, log := 0, [];
    }

    /** `stop()`: playing ends, the loop timer is cleared, the current nodes are stopped and
        forgotten, and the wake lock is released. */
    method Stop()
      requires Valid()
      modifies this
      ensures Valid()
      ensures !isPlaying && loop == None && current == None && !wakeLock
      ensures log == old(log) + StopEvents(old(loop).Some?, old(current), old(wakeLock))
      ensures ctx == old(ctx) && volume == old(volume) && testStops == old(testStops)
    {
      // clearTimeout, oscillator.stop() and gain.disconnect(), releaseWakeLock(), in order
      log := log + StopEvents(loop.Some?, current, wakeLock);
      isPlaying, loop, current, wakeLock := false, None, None, false;
    }

    /** `ensureAudioContext()`: a context is created if there is none; it fails when there
        still is none. Resuming a suspended context is not observable here. */
    method EnsureContext(contextAvailable: bool) returns (ok: bool)
      modifies this
      ensures ctx == if old(ctx) == NoContext && contextAvailable then Open else old(ctx)
      ensures ok <==> ctx != NoContext
      ensures volume == old(volume) && isPlaying == old(isPlaying) && loop == old(loop) && current == old(current)
      ensures wakeLock == old(wakeLock) && testStops == old(testStops) && log == old(log)
    {
      if ctx == NoContext && contextAvailable {
        ctx := Open;
      }
      ok := ctx != NoContext;
    }

    /** `createComplexTone`: a sound with a definition starts a tone whose nodes become the
        current ones; an unknown id creates nothing. */
    method CreateTone(sound: string, now: int)
      modifies this
      ensures current == if sound in SoundDefinitions then Some(Tone(sound, now)) else old(current)
      ensures log == old(log) + if sound in SoundDefinitions then [ToneStarted(sound, now)] else []
      ensures ctx == old(ctx) && volume == old(volume) && isPlaying == old(isPlaying) && loop == old(loop)
      ensures wakeLock == old(wakeLock) && testStops == old(testStops)
    {
      if sound in SoundDefinitions {
        current := Some(Tone(sound, now));
        log := log + [ToneStarted(sound, now)];
      }
    }

    /** One turn of the loop (`playSound`): nothing at all when not playing; otherwise the tone
        starts and the next turn is scheduled after the sound's duration. */
    method PlaySound(sound: string, now: int)
      requires Valid()
      modifies this
      ensures Valid()
      ensures !old(isPlaying) ==> current == old(current) && loop == old(loop) && log == old(log)
      ensures old(isPlaying) ==>
        && loop == Some(LoopTimer(sound, LoopDelayMs(sound)))
        && current == (if sound in SoundDefinitions then Some(Tone(sound, now)) else old(current))
        && log == old(log) + (if sound in SoundDefinitions then [ToneStarted(sound, now)] else [])
      ensures ctx == old(ctx) && volume == old(volume) && isPlaying == old(isPlaying)
      ensures wakeLock == old(wakeLock) && testStops == old(testStops)
    {
      if !isPlaying {
        return;
      }
      CreateTone(sound, now);
      loop := Some(LoopTimer(sound, LoopDelayMs(sound)));
    }

    /** `play(sound)`: a sound already playing is stopped first; when no audio context can be
        had, nothing plays and the failure is swallowed; otherwise playing starts, the wake
        lock is requested, and the first turn of the loop runs. */
    method Play(sound: string, contextAvailable: bool, wakeLockGranted: bool, now: int)
      requires Valid()
      modifies this
      ensures Valid()
      ensures ctx == if old(ctx) == NoContext && contextAvailable then Open else old(ctx)
      ensures isPlaying <==> ctx != NoContext
      ensures isPlaying ==>
        && loop == Some(LoopTimer(sound, LoopDelayMs(sound)))
        && current == (if sound in SoundDefinitions then Some(Tone(sound, now)) else if old(isPlaying) then None else old(current))
        && wakeLock == (wakeLockGranted || (!old(isPlaying) && old(wakeLock)))
      ensures !isPlaying ==>
        && loop == None
        && current == (if old(isPlaying) then None else old(current))
        && wakeLock == (!old(isPlaying) && old(wakeLock))
      ensures log == old(log)
        + (if old(isPlaying) then StopEvents(old(loop).Some?, old(current), old(wakeLock)) else [])
        + (if isPlaying && sound in SoundDefinitions then [ToneStarted(sound, now)] else [])
      ensures volume == old(volume) && testStops == old(testStops)
    {
      if isPlaying {
        Stop();
      }
      var ok := EnsureContext(contextAvailable);
      if !ok {
        isPlaying := false;
        return;
      }
      isPlaying := true;
      if wakeLockGranted {
        wakeLock := true;
      }
      PlaySound(sound, now);
    }

    /** The loop timer fires: the pending turn, if any, runs again while playing. */
    method LoopTimerFires(now: int)
      requires Valid()
      modifies this
      ensures Valid()
      ensures old(loop).None? ==> loop == None && current == old(current) && log == old(log)
      ensures old(loop).Some? ==>
        var sound := old(loop).value.sound;
        && loop == old(loop)
        && current == (if sound in SoundDefinitions then Some(Tone(sound, now)) else old(current))
        && log == old(log) + (if sound in SoundDefinitions then [ToneStarted(sound, now)] else [])
      ensures ctx == old(ctx) && volume == old(volume) && isPlaying == old(isPlaying)
      ensures wakeLock == old(wakeLock) && testStops == old(testStops)
    {
      if loop.Some? {
        var timer := loop.value;
        loop := None;
        if isPlaying {
          PlaySound(timer.sound, now);
        }
      }
    }

    /** `setVolume(v)`: the volume becomes `v` clamped to [0, 1], and the current gain node,
        if any, is set to it. */
    method SetVolume(v: real)
      requires Valid()
      modifies this
      ensures Valid()
      ensures volume == Clamp01(v)
      ensures log == old(log) + if current.Some? then [GainSet(volume)] else []
      ensures ctx == old(ctx) && isPlaying == old(isPlaying) && loop == old(loop) && current == old(current)
      ensures wakeLock == old(wakeLock) && testStops == old(testStops)
    {
      volume := Clamp01(v);
      if current.Some? {
        log := log + [GainSet(volume)];
      }
    }

    method GetVolume() returns (v: real)
      requires Valid()
      ensures v == volume && 0.0 <= v <= 1.0
    {
      v := volume;
    }

    method IsCurrentlyPlaying() returns (playing: bool)
      ensures playing == isPlaying
    {
      playing := isPlaying;
    }

    /** `testSound(sound, duration)`: the sound plays, and a timer is set to stop it. */
    method TestSound(sound: string, contextAvailable: bool, wakeLockGranted: bool, now: int)
      requires Valid()
      modifies this
      ensures Valid()
      ensures isPlaying <==> ctx != NoContext
      ensures isPlaying ==> loop == Some(LoopTimer(sound, LoopDelayMs(sound)))
      ensures testStops == old(testStops) + 1
    {
      Play(sound, contextAvailable, wakeLockGranted, now);
      testStops := testStops + 1;
    }

    /** A test's timer fires: playback stops only if it is still playing. */
    method TestStopFires()
      requires Valid()
      modifies this
      ensures Valid()
      ensures testStops == if old(testStops) > 0 then old(testStops) - 1 else 0
      ensures old(testStops) > 0 && old(isPlaying) ==>
        && !isPlaying && loop == None && current == None && !wakeLock
        && log == old(log) + StopEvents(old(loop).Some?, old(current), old(wakeLock))
      ensures old(testStops) == 0 || !old(isPlaying) ==>
        isPlaying == old(isPlaying) && loop == old(loop) && current == old(current)
        && wakeLock == old(wakeLock) && log == old(log)
      ensures ctx == old(ctx) && volume == old(volume)
    {
      if testStops > 0 {
        testStops := testStops - 1;
        if isPlaying {
          Stop();
        }
      }
    }

    /** `dispose()`: stops, then closes the audio context unless there is none or it is
        already closed. */
    method Dispose()
      requires Valid()
      modifies this
      ensures Valid()
      ensures !isPlaying && loop == None && current == None && !wakeLock
      ensures ctx == if old(ctx) == NoContext then NoContext else Closed
      ensures log == old(log) + StopEvents(old(loop).Some?, old(current), old(wakeLock))
        + if old(ctx) == Open then [ContextClosed] else []
      ensures volume == old(volume) && testStops == old(testStops)
    {
      Stop();
      if ctx == Open {
        ctx := Closed;
        log := log + [ContextClosed];
      }
    }
  }

  /** After `stop()`, a loop timer that still fires plays nothing. */
  method StopSilencesLoop(engine: AudioEngine, now: int)
    requires engine.Valid()
    modifies engine
    ensures engine.Valid()
    ensures !engine.isPlaying && engine.current == None && engine.loop == None
    ensures engine.log == old(engine.log) + StopEvents(old(engine.loop).Some?, old(engine.current), old(engine.wakeLock))
  {
    engine.Stop();
    engine.LoopTimerFires(now);
  }
}
