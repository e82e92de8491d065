/**
 * The fireworks list: each launch appends one record, and a later sweep drops the
 * records older than their four-second life.
 */
module Fireworks {
  import opened Basics

  /** The React key `${now}-${salt}-${index}`, kept as its three parts. */
  datatype FireworkId = FireworkId(createdAt: int, salt: int, index: nat)

  datatype Firework = Firework(
    id: FireworkId, position: Vec3, velocity: Vec3, delay: real, color: seq<string>, time: int)

  /** Milliseconds a firework is kept: the longest fuse plus the longest particle life. */
  const Lifespan: int := 4000

  /** The random draws of one launch, in call order: the key's salt, the three velocity
      components and the fuse delay. */
  datatype Draws = Draws(salt: real, velocity: Vec3, delay: real)

  predicate Uniform(d: Draws) {
    IsUniform(d.salt) && IsUniform3(d.velocity) && IsUniform(d.delay)
  }

  /** A firework launched from the origin; `keyClock` and `spawnClock` are the two readings of
      `Date.now()`, for the key and for the spawn time. */
  function NewFirework(index: nat, keyClock: int, spawnClock: int, d: Draws): (f: Firework)
    requires Uniform(d)
    ensures f.id.createdAt == keyClock && f.id.index == index && 0 <= f.id.salt <= 100
    ensures f.position == Origin && f.color == ["skyblue", "pink"] && f.time == spawnClock
    ensures -8.0 <= f.velocity.x <= 8.0 && 5.0 <= f.velocity.y <= 10.0 && -8.0 <= f.velocity.z <= 8.0
    ensures 0.8 <= f.delay <= 2.0
  {
    Firework(
      FireworkId(keyClock, RandInt(0, 100, d.salt), index),
      Origin,
      Vec3(RandFloat(-8.0, 8.0, d.velocity.x), RandFloat(5.0, 10.0, d.velocity.y), RandFloat(-8.0, 8.0, d.velocity.z)),
      RandFloat(0.8, 2.0, d.delay),
      ["skyblue", "pink"],
      spawnClock)
  }

  /** The list after one launch: the earlier records in order, then one new record whose key
      carries the earlier length. */
  function AddFirework(fireworks: seq<Firework>, keyClock: int, spawnClock: int, d: Draws): (r: seq<Firework>)
    requires Uniform(d)
    ensures |r| == |fireworks| + 1 && r[..|fireworks|] == fireworks
    ensures r[|fireworks|].id.index == |fireworks| && r[|fireworks|].time == spawnClock
  {
    fireworks + [NewFirework(|fireworks|, keyClock, spawnClock, d)]
  }

  predicate Alive(f: Firework, now: int) {
    now - f.time < Lifespan
  }

  /** The sweep at time `now`: the records still alive. */
  function Prune(fireworks: seq<Firework>, now: int): (r: seq<Firework>)
    ensures |r| <= |fireworks|
    ensures forall f :: f in r <==> f in fireworks && Alive(f, now)
  {
    if fireworks == [] then []
    else
      var rest := Prune(fireworks[1..], now);
      assert forall f :: f in fireworks <==> f == fireworks[0] || f in fireworks[1..];
      if Alive(fireworks[0], now) then [fireworks[0]] + rest else rest
  }

  /** Sweeping a concatenation sweeps each part in place, so the sweep keeps the order. */
  lemma {:induction false} PruneConcat(xs: seq<Firework>, ys: seq<Firework>, now: int)
    ensures Prune(xs + ys, now) == Prune(xs, now) + Prune(ys, now)
  {
    if xs == [] {
      assert xs + ys == ys;
    } else {
      assert (xs + ys)[1..] == xs[1..] + ys;
      PruneConcat(xs[1..], ys, now);
      var head, rest := xs[0], Prune(xs[1..], now);
      if Alive(head, now) {
        assert [head] + (rest + Prune(ys, now)) == ([head] + rest) + Prune(ys, now);
      }
    }
  }

  /** A second sweep at the same time removes nothing more. */
  lemma {:induction false} PruneIdempotent(fireworks: seq<Firework>, now: int)
    ensures Prune(Prune(fireworks, now), now) == Prune(fireworks, now)
  {
    if fireworks != [] {
      PruneIdempotent(fireworks[1..], now);
      var rest := Prune(fireworks[1..], now);
      if Alive(fireworks[0], now) {
        assert ([fireworks[0]] + rest)[1..] == rest;
      }
    }
  }

  /** A launch followed by a sweep keeps the earlier survivors in order and the new record
      exactly when it is still young. */
  lemma SweepAfterLaunch(fireworks: seq<Firework>, keyClock: int, spawnClock: int, d: Draws, now: int)
    requires Uniform(d)
    ensures var f := NewFirework(|fireworks|, keyClock, spawnClock, d);
            Prune(AddFirework(fireworks, keyClock, spawnClock, d), now) ==
            Prune(fireworks, now) + (if now - spawnClock < Lifespan then [f] else [])
  {
    var f := NewFirework(|fireworks|, keyClock, spawnClock, d);
    PruneConcat(fireworks, [f], now);
    assert Prune([f], now) == (if Alive(f, now) then [f] else []) by {
      assert [f][1..] == [];
    }
  }
}
