/**
 * An emitter: each frame it works out how many particles are due, by an
 * elapsed-time ramp or all at once, and asks its pool for them; the setup
 * callback builds each particle from the emitter's ranges and random draws.
 */
module Emitter {
  import opened Basics
  import Particles

  datatype SpawnMode = Time | Burst

  /** A `[min, max]` pair from the emitter settings. */
  datatype Bounds = Bounds(min: real, max: real)

  datatype Settings = Settings(
    duration: real, nbParticles: nat, spawnMode: SpawnMode, loop: bool, delay: real,
    colorStart: seq<string>, colorEnd: seq<string>,
    particlesLifetime: Bounds, speed: Bounds, size: Bounds,
    startPositionMin: Vec3, startPositionMax: Vec3,
    startRotationMin: Vec3, startRotationMax: Vec3,
    rotationSpeedMin: Vec3, rotationSpeedMax: Vec3,
    directionMin: Vec3, directionMax: Vec3)

  /** The settings an emitter uses for every field it is not given. */
  const Defaults: Settings := Settings(
    1.0, 1000, Time, false, 0.0,
    ["blue", "skyblue"], [],
    Bounds(0.5, 6.0), Bounds(5.0, 20.0), Bounds(0.1, 1.0),
    Vec3(-1.0, -1.0, -1.0), Vec3(1.0, 1.0, 1.0),
    Origin, Origin, Origin, Origin, Origin, Origin)

  /** The time ramp divides by the duration; a burst does not. */
  predicate Schedulable(s: Settings) {
    s.spawnMode == Time ==> s.duration != 0.0
  }

  // ---------------------------------------------------------------------------
  // The per-frame schedule

  /** How many particles should have been requested by `elapsed`. */
  function Target(s: Settings, elapsed: real): (n: int)
    requires Schedulable(s)
    ensures 0 <= n
    ensures s.spawnMode == Burst ==> n == s.nbParticles
  {
    if s.spawnMode == Burst then s.nbParticles
    else MaxInt(0, ((elapsed - s.delay) / s.duration * (s.nbParticles as real)).Floor)
  }

  /** The outcome of one frame: the count passed to `emit` (0 when it is not called),
      and the new values of the two counters. */
  datatype FrameResult = FrameResult(rate: nat, emitted: int, elapsed: real)

  /** One frame of the schedule, from the counters `emitted` and `elapsed`. */
  function Step(s: Settings, emitted: int, elapsed: real, delta: real): (r: FrameResult)
    requires Schedulable(s)
    ensures r.elapsed == elapsed + delta
    ensures elapsed < s.delay ==> r.rate == 0
    ensures !s.loop && emitted >= s.nbParticles ==> r.rate == 0
    ensures r.rate > 0 ==> r.emitted == emitted + r.rate == Target(s, elapsed)
    ensures r.rate == 0 ==> r.emitted == emitted
    ensures emitted <= r.emitted
    // A frame that may emit, past the delay and behind the target, requests what is due.
    ensures (s.loop || emitted < s.nbParticles) && s.delay <= elapsed && emitted < Target(s, elapsed) ==>
              r.rate == Target(s, elapsed) - emitted
  {
    var due := Target(s, elapsed) - emitted;
    if (emitted < s.nbParticles || s.loop) && due > 0 && elapsed >= s.delay then
      FrameResult(due, emitted + due, elapsed + delta)
    else
      FrameResult(0, emitted, elapsed + delta)
  }

  /** Several frames in a row; `rate` is the total requested over them. */
  function Run(s: Settings, emitted: int, elapsed: real, deltas: seq<real>): (r: FrameResult)
    requires Schedulable(s)
    decreases |deltas|
  {
    if deltas == [] then FrameResult(0, emitted, elapsed)
    else
      var f := Step(s, emitted, elapsed, deltas[0]);
      var rest := Run(s, f.emitted, f.elapsed, deltas[1..]);
      FrameResult(f.rate + rest.rate, rest.emitted, rest.elapsed)
  }

  /** Over any run, the counter grows by exactly the number of particles requested. */
  lemma {:induction false} RunCountsRequests(s: Settings, emitted: int, elapsed: real, deltas: seq<real>)
    requires Schedulable(s)
    ensures Run(s, emitted, elapsed, deltas).emitted == emitted + Run(s, emitted, elapsed, deltas).rate
    decreases |deltas|
  {
    if deltas != [] {
      var f := Step(s, emitted, elapsed, deltas[0]);
      RunCountsRequests(s, f.emitted, f.elapsed, deltas[1..]);
    }
  }

  /** A burst emitter that starts from zero requests either nothing or exactly
      `nbParticles` over any number of frames, and all of them in its first frame
      past the delay. */
  lemma {:induction false} BurstRequestsOnce(s: Settings, emitted: int, elapsed: real, deltas: seq<real>)
    requires s.spawnMode == Burst && (emitted == 0 || emitted == s.nbParticles)
    ensures var r := Run(s, emitted, elapsed, deltas);
            r.emitted == s.nbParticles || r.emitted == emitted
    ensures var r := Run(s, emitted, elapsed, deltas);
            emitted == s.nbParticles ==> r.rate == 0
    ensures emitted == 0 && 0 < s.nbParticles && deltas != [] && s.delay <= elapsed ==>
            Step(s, emitted, elapsed, deltas[0]).rate == s.nbParticles
    decreases |deltas|
  {
    if deltas != [] {
      var f := Step(s, emitted, elapsed, deltas[0]);
      BurstRequestsOnce(s, f.emitted, f.elapsed, deltas[1..]);
    }
  }

  /** The frame counter never decreases over a run. */
  lemma {:induction false} RunNeverDecreases(s: Settings, emitted: int, elapsed: real, deltas: seq<real>)
    requires Schedulable(s)
    ensures emitted <= Run(s, emitted, elapsed, deltas).emitted
    ensures Run(s, emitted, elapsed, deltas).elapsed == elapsed + Sum(deltas)
    decreases |deltas|
  {
    if deltas != [] {
      var f := Step(s, emitted, elapsed, deltas[0]);
      RunNeverDecreases(s, f.emitted, f.elapsed, deltas[1..]);
    }
  }

  function Sum(xs: seq<real>): real {
    if xs == [] then 0.0 else xs[0] + Sum(xs[1..])
  }

  /** The time ramp over two seconds for 100 particles: 50 are due after one second and
      all 100 after two. */
  lemma RampHalfway()
    ensures var s := Defaults.(duration := 2.0, nbParticles := 100, spawnMode := Time, delay := 0.0);
            Target(s, 1.0) == 50 && Target(s, 2.0) == 100
  {
    var s := Defaults.(duration := 2.0, nbParticles := 100, spawnMode := Time, delay := 0.0);
    assert (1.0 - 0.0) / 2.0 * 100.0 == 50.0;
    assert (2.0 - 0.0) / 2.0 * 100.0 == 100.0;
  }

  /** The time ramp is not capped at `nbParticles`: a non-looping emitter that first runs
      two durations in requests twice its particle count in that frame. */
  lemma RampOvershoots()
    ensures var s := Defaults.(duration := 1.0, nbParticles := 10, spawnMode := Time, loop := false, delay := 0.0);
            Step(s, 0, 2.0, 0.016).rate == 20
  {
    var s := Defaults.(duration := 1.0, nbParticles := 10, spawnMode := Time, loop := false, delay := 0.0);
    assert (2.0 - 0.0) / 1.0 * 10.0 == 20.0;
  }

  /** Looping does not make a burst emitter emit again: once it has requested its
      `nbParticles`, every later frame requests nothing, `loop` or not. */
  lemma LoopingBurstFallsSilent(s: Settings, elapsed: real, delta: real)
    requires s.spawnMode == Burst && s.loop
    ensures Step(s, s.nbParticles, elapsed, delta).rate == 0
    ensures Step(s, s.nbParticles, elapsed, delta).emitted == s.nbParticles
  {
    assert Target(s, elapsed) == s.nbParticles;
  }

  // ---------------------------------------------------------------------------
  // The setup callback

  /** The `Math.random()` draws of one setup call, in the order the callback makes them. */
  datatype Draws = Draws(
    size: real, color: real, position: Vec3, direction: Vec3,
    rotation: Vec3, rotationSpeed: Vec3, lifetime: real, colorEnd: real, speed: real)

  predicate Uniform(d: Draws) {
    && IsUniform(d.size) && IsUniform(d.color) && IsUniform3(d.position)
    && IsUniform3(d.direction) && IsUniform3(d.rotation) && IsUniform3(d.rotationSpeed)
    && IsUniform(d.lifetime) && IsUniform(d.colorEnd) && IsUniform(d.speed)
  }

  predicate InBounds(b: Bounds, x: real) {
    b.min <= b.max ==> b.min <= x <= b.max
  }

  /** `v` is `base` plus an offset inside the box `[lo, hi]`. */
  predicate OffsetWithin(lo: Vec3, hi: Vec3, base: Vec3, v: Vec3) {
    Within(lo, hi, Vec3(v.x - base.x, v.y - base.y, v.z - base.z))
  }

  /** One particle from the emitter's settings, its world position and the frame's clock. */
  function Setup(s: Settings, worldPosition: Vec3, time: real, d: Draws): (p: Particles.Particle)
    requires 0 < |s.colorStart| && Uniform(d)
    ensures p.colorStart in s.colorStart
    ensures |s.colorEnd| == 0 ==> p.colorEnd == p.colorStart
    ensures |s.colorEnd| > 0 ==> p.colorEnd in s.colorEnd
    ensures p.scale.x == p.scale.y == p.scale.z && InBounds(s.size, p.scale.x)
    ensures OffsetWithin(s.startPositionMin, s.startPositionMax, worldPosition, p.position)
    ensures Within(s.directionMin, s.directionMax, p.direction)
    ensures Within(s.startRotationMin, s.startRotationMax, p.rotation)
    ensures Within(s.rotationSpeedMin, s.rotationSpeedMax, p.rotationSpeed)
    ensures p.birthTime == time && InBounds(s.particlesLifetime, p.duration)
    ensures InBounds(s.speed, p.speed)
  {
    var randSize := RandFloat(s.size.min, s.size.max, d.size);
    var color := s.colorStart[RandInt(0, |s.colorStart| - 1, d.color)];
    var offset := RandVec(s.startPositionMin, s.startPositionMax, d.position);
    assert Vec3(worldPosition.x + offset.x - worldPosition.x, worldPosition.y + offset.y - worldPosition.y,
                worldPosition.z + offset.z - worldPosition.z) == offset;
    Particles.Particle(
      Add(worldPosition, offset),
      RandVec(s.startRotationMin, s.startRotationMax, d.rotation),
      Vec3(randSize, randSize, randSize),
      RandVec(s.directionMin, s.directionMax, d.direction),
      RandVec(s.rotationSpeedMin, s.rotationSpeedMax, d.rotationSpeed),
      time,
      RandFloat(s.particlesLifetime.min, s.particlesLifetime.max, d.lifetime),
      color,
      if |s.colorEnd| > 0 then s.colorEnd[RandInt(0, |s.colorEnd| - 1, d.colorEnd)] else color,
      RandFloat(s.speed.min, s.speed.max, d.speed))
  }

  // ---------------------------------------------------------------------------
  // The emitter's counters

  class VFXEmitter {
    const settings: Settings
    var emitted: int
    var elapsedTime: real

    constructor (settings: Settings)
      ensures this.settings == settings && emitted == 0 && elapsedTime == 0.0
    {
      this.settings := settings;
      emitted, elapsedTime := 0, 0.0;
    }

    /** The builder panel's restart button. */
    method OnRestart()
      modifies this
      ensures emitted == 0 && elapsedTime == 0.0
    {
      emitted := 0;
      elapsedTime := 0.0;
    }

    /** The per-frame body; `rate` is the count passed to `emit` this frame, 0 when there is no call. */
    method Frame(delta: real) returns (rate: nat)
      requires Schedulable(settings)
      modifies this
      ensures var r := Step(settings, old(emitted), old(elapsedTime), delta);
              rate == r.rate && emitted == r.emitted && elapsedTime == r.elapsed
    {
      rate := 0;
      if emitted < settings.nbParticles || settings.loop {
        var particlesToEmit :=
          if settings.spawnMode == Burst then settings.nbParticles
          else MaxInt(0, ((elapsedTime - settings.delay) / settings.duration * (settings.nbParticles as real)).Floor);
        var due := particlesToEmit - emitted;
        if due > 0 && elapsedTime >= settings.delay {
          rate := due;
          emitted := emitted + due;
        }
      }
      elapsedTime := elapsedTime + delta;
    }
  }
}
