/**
 * The particle pool of the VFX engine: a fixed number of slots stored in
 * parallel attribute arrays, a circular write cursor that wraps and
 * overwrites old slots, and the bookkeeping that turns the cursor's movement
 * since the last upload into update ranges for every attribute.
 */
module Particles {
  import opened Basics
  import opened Arith

  datatype Rgb = Rgb(r: real, g: real, b: real)

  /** One particle as an emitter's setup callback produces it. */
  datatype Particle = Particle(
    position: Vec3, rotation: Vec3, scale: Vec3,
    direction: Vec3, rotationSpeed: Vec3,
    birthTime: real, duration: real,
    colorStart: string, colorEnd: string,
    speed: real)

  /** The instance matrix composed from position, rotation and scale; its sixteen entries stay opaque. */
  datatype Transform = Transform(position: Vec3, rotation: Vec3, scale: Vec3)

  const Identity: Transform := Transform(Origin, Origin, Vec3(1.0, 1.0, 1.0))

  /** What one slot holds across the seven instanced attributes. */
  datatype Slot = Slot(
    matrix: Transform, color: Rgb, colorEnd: Rgb, direction: Vec3,
    birthTime: real, duration: real, speed: real, rotationSpeed: Vec3)

  /** A slot of freshly allocated, zero-filled attribute arrays. */
  const EmptySlot: Slot := Slot(Identity, Rgb(0.0, 0.0, 0.0), Rgb(0.0, 0.0, 0.0), Origin, 0.0, 0.0, 0.0, Origin)

  /** The attributes' item sizes, in the order the upload step visits them:
      matrix, colour, end colour, direction, lifetime, speed, rotation speed. */
  const ItemSizes: seq<nat> := [16, 3, 3, 3, 2, 1, 3]

  /** What a slot holds after particle `p` is written to it; `style` resolves a CSS colour name. */
  function Stored(p: Particle, style: string -> Rgb): Slot {
    Slot(Transform(p.position, p.rotation, p.scale), style(p.colorStart), style(p.colorEnd),
         p.direction, p.birthTime, p.duration, p.speed, p.rotationSpeed)
  }

  /** What the slots receive from a batch, in call order. */
  function StoredAll(batch: seq<Particle>, style: string -> Rgb): seq<Slot> {
    seq(|batch|, i requires 0 <= i < |batch| => Stored(batch[i], style))
  }

  // ---------------------------------------------------------------------------
  // Ring writes

  /** The slots after writing `batch` one element at a time from slot `start`,
      advancing and wrapping the cursor after each write. */
  function RingWrite<T>(slots: seq<T>, start: nat, batch: seq<T>): (r: seq<T>)
    requires 0 < |slots|
    ensures |r| == |slots|
    decreases |batch|
  {
    if batch == [] then slots
    else
      var k := |batch| - 1;
      RingWrite(slots, start, batch[..k])[(start + k) % |slots| := batch[k]]
  }

  /** Writing one more element of the batch updates the slot under the advanced cursor. */
  lemma RingWriteExtend<T>(slots: seq<T>, start: nat, batch: seq<T>, i: nat)
    requires 0 < |slots| && i < |batch|
    ensures RingWrite(slots, start, batch[..i + 1]) == RingWrite(slots, start, batch[..i])[(start + i) % |slots| := batch[i]]
  {
    assert batch[..i + 1][..i] == batch[..i];
  }

  /** Slot `j` holds the last batch element whose write landed on it, or its old value
      when none did; `d` counts the writes that followed the last one to `j`. */
  lemma {:induction false} RingWriteAt<T>(slots: seq<T>, start: nat, batch: seq<T>, j: int)
    requires 0 < |slots| && 0 <= j < |slots|
    ensures var d := (start + |batch| - 1 - j) % |slots|;
            RingWrite(slots, start, batch)[j] == if d < |batch| then batch[|batch| - 1 - d] else slots[j]
  {
    if batch != [] {
      var n, k := |slots|, |batch| - 1;
      var prefix := batch[..k];
      RingWriteAt(slots, start, prefix, j);
      var d := (start + k - j) % n;
      var d' := (start + k - 1 - j) % n;
      ModStep(start + k - 1 - j, n);
      ModZero(start + k, j, n);
      if j == (start + k) % n {
        assert d == 0;
      } else {
        assert d == d' + 1;
      }
    }
  }

  /** Without a full lap, the i-th element lands in slot `(start + i) % n` and every slot
      more than `|batch|` steps past `start` keeps its value. */
  lemma RingWriteNoLap<T>(slots: seq<T>, start: nat, batch: seq<T>)
    requires 0 < |slots| && |batch| <= |slots|
    ensures forall i :: 0 <= i < |batch| ==> RingWrite(slots, start, batch)[(start + i) % |slots|] == batch[i]
    ensures forall j :: 0 <= j < |slots| && (j - start) % |slots| >= |batch| ==> RingWrite(slots, start, batch)[j] == slots[j]
  {
    forall i | 0 <= i < |batch| ensures RingWrite(slots, start, batch)[(start + i) % |slots|] == batch[i] {
      RingWriteAt(slots, start, batch, (start + i) % |slots|);
      LastWriteDistance(start, |batch|, i, |slots|);
    }
    forall j | 0 <= j < |slots| && (j - start) % |slots| >= |batch| ensures RingWrite(slots, start, batch)[j] == slots[j] {
      RingWriteAt(slots, start, batch, j);
      WriteOffset(start, |batch|, j, |slots|);
    }
  }

  /** Without a full lap, the write of element `i` is followed by `count - 1 - i` others. */
  lemma LastWriteDistance(start: int, count: nat, i: nat, n: int)
    requires 0 < n && i < count <= n
    ensures (start + count - 1 - (start + i) % n) % n == count - 1 - i
  {
    var m := count - 1 - i;
    var q := (start + i) / n;
    assert start + i == q * n + (start + i) % n;
    ModShift(m, q, n);
    ModOfSmall(m, n);
  }

  /** If the last write to slot `j` came `d` writes before the end, then `j` is
      `|batch| - 1 - d` steps past `start`. */
  lemma WriteOffset(start: int, count: nat, j: int, n: int)
    requires 0 < n && count <= n
    ensures var d := (start + count - 1 - j) % n;
            d < count ==> (j - start) % n == count - 1 - d
  {
    var x := start + count - 1 - j;
    var d := x % n;
    if d < count {
      var i := count - 1 - d;
      assert j - start == i + -(x / n) * n;
      ModShift(i, -(x / n), n);
      ModOfSmall(i, n);
    }
  }

  /** A full lap or more overwrites every slot. */
  lemma RingWriteFullLap<T>(slots: seq<T>, start: nat, batch: seq<T>, j: int)
    requires 0 < |slots| <= |batch| && 0 <= j < |slots|
    ensures exists i :: |batch| - |slots| <= i < |batch| && RingWrite(slots, start, batch)[j] == batch[i]
  {
    RingWriteAt(slots, start, batch, j);
    var d := (start + |batch| - 1 - j) % |slots|;
    assert RingWrite(slots, start, batch)[j] == batch[|batch| - 1 - d];
  }

  // ---------------------------------------------------------------------------
  // Upload ranges

  /** `addUpdateRange(start, count)`: `count` array elements from `start`. */
  datatype Range = Range(start: int, count: int)

  /** Per attribute: its item size, the update ranges last added and its `needsUpdate` flag. */
  datatype Upload = Upload(itemSize: nat, ranges: seq<Range>, needsUpdate: bool)

  predicate InRanges(rs: seq<Range>, e: int) {
    exists r :: r in rs && r.start <= e < r.start + r.count
  }

  /** The update ranges, in array elements, for an attribute of item size `k` when the
      cursor moved from `last` to `cur`: one span, or two when the cursor wrapped. */
  function DirtyRanges(last: nat, cur: nat, n: nat, k: nat): (rs: seq<Range>)
    requires last < n && cur < n
    ensures |rs| == if last > cur then 2 else 1
    ensures forall r :: r in rs ==> 0 <= r.start && 0 <= r.count && r.start + r.count <= n * k
  {
    MulMonotone(cur, n, k);
    MulMonotone(last, n, k);
    if last > cur then [Range(0, cur * k), Range(last * k, n * k - last * k)]
    else
      MulMonotone(last, cur, k);
      [Range(last * k, cur * k - last * k)]
  }

  /** Element `e` is covered exactly when its slot `e / k` lies in the circular interval
      `[last, cur)`, that is when it is fewer than `(cur - last) % n` steps past `last`. */
  lemma DirtyRangesCover(last: nat, cur: nat, n: nat, k: nat, e: int)
    requires last < n && cur < n && 0 < k && 0 <= e < n * k
    ensures InRanges(DirtyRanges(last, cur, n, k), e) <==> (e / k - last) % n < (cur - last) % n
  {
    var s := e / k;
    DivBelow(e, k, n);
    DivBelow(e, k, cur);
    DivBelow(e, k, last);
    RangesBySlot(last, cur, n, k, e);
    CircularInterval(s, last, cur, n);
  }

  /** In element terms: the ranges are `[last * k, cur * k)`, or its complement when the
      cursor wrapped. */
  lemma RangesBySlot(last: nat, cur: nat, n: nat, k: nat, e: int)
    requires last < n && cur < n && 0 <= e < n * k
    ensures InRanges(DirtyRanges(last, cur, n, k), e) <==>
            if last > cur then e < cur * k || last * k <= e else last * k <= e < cur * k
  {
    var rs := DirtyRanges(last, cur, n, k);
    if last > cur {
      if e < cur * k { assert rs[0] in rs; }
      if last * k <= e { assert rs[1] in rs; }
    } else {
      if last * k <= e < cur * k { assert rs[0] in rs; }
    }
  }

  /** Slot `s` is fewer than `(cur - last) % n` steps past `last` exactly when it lies in
      `[last, cur)` read around the ring. */
  lemma CircularInterval(s: int, last: nat, cur: nat, n: nat)
    requires 0 <= s < n && last < n && cur < n
    ensures (s - last) % n < (cur - last) % n <==>
            if last > cur then s < cur || last <= s else last <= s < cur
  {
    if s >= last { ModOfSmall(s - last, n); } else { ModUnique(s - last, n, -1, s - last + n); }
    if last > cur { ModUnique(cur - last, n, -1, cur - last + n); } else { ModOfSmall(cur - last, n); }
  }

  /** With `K` particles emitted since the last upload, the ranges cover the slots of the
      last `K % n` writes: all written slots when `K < n`, and none when `K` is a multiple of `n`. */
  lemma UploadCoversPending(last: nat, pending: nat, n: nat, k: nat, e: int)
    requires last < n && 0 < k && 0 <= e < n * k
    ensures InRanges(DirtyRanges(last, (last + pending) % n, n, k), e) <==> (e / k - last) % n < pending % n
    ensures pending < n ==> (InRanges(DirtyRanges(last, (last + pending) % n, n, k), e) <==> (e / k - last) % n < pending)
    ensures pending % n == 0 ==> !InRanges(DirtyRanges(last, (last + pending) % n, n, k), e)
  {
    DirtyRangesCover(last, (last + pending) % n, n, k, e);
    ModSubReduced(last + pending, last, n);
    if pending < n { ModOfSmall(pending, n); }
  }

  // ---------------------------------------------------------------------------
  // The pool

  class ParticlePool {
    const nbParticles: nat
    const matrices: array<Transform>   // instanceMatrix: one composed matrix per slot
    const colors: array<real>          // instanceColor: 3 per slot
    const colorsEnd: array<real>       // instanceColorEnd: 3 per slot
    const directions: array<real>      // instanceDirection: 3 per slot
    const lifetimes: array<real>       // instanceLifetime: birth time and duration
    const speeds: array<real>          // instanceSpeed: 1 per slot
    const rotationSpeeds: array<real>  // instanceRotationSpeed: 3 per slot

    var cursor: nat
    var lastCursor: nat
    var needUpdate: bool
    var uploads: seq<Upload>

    /** The slots as a sequence, and the number of particles emitted since the last upload. */
    ghost var Contents: seq<Slot>
    ghost var pending: nat

    ghost predicate Shaped() {
      && matrices.Length == nbParticles
      && colors.Length == 3 * nbParticles && colorsEnd.Length == 3 * nbParticles
      && directions.Length == 3 * nbParticles && lifetimes.Length == 2 * nbParticles
      && speeds.Length == nbParticles && rotationSpeeds.Length == 3 * nbParticles
      && colors != colorsEnd && colors != directions && colors != lifetimes
      && colors != speeds && colors != rotationSpeeds
      && colorsEnd != directions && colorsEnd != lifetimes && colorsEnd != speeds
      && colorsEnd != rotationSpeeds
      && directions != lifetimes && directions != speeds && directions != rotationSpeeds
      && lifetimes != speeds && lifetimes != rotationSpeeds
      && speeds != rotationSpeeds
    }

    /** The slot `j` as the attribute arrays hold it. */
    ghost function SlotAt(j: int): Slot
      requires Shaped() && 0 <= j < nbParticles
      reads matrices, colors, colorsEnd, directions, lifetimes, speeds, rotationSpeeds
    {
      Slot(matrices[j],
           Rgb(colors[3 * j], colors[3 * j + 1], colors[3 * j + 2]),
           Rgb(colorsEnd[3 * j], colorsEnd[3 * j + 1], colorsEnd[3 * j + 2]),
           Vec3(directions[3 * j], directions[3 * j + 1], directions[3 * j + 2]),
           lifetimes[2 * j], lifetimes[2 * j + 1],
           speeds[j],
           Vec3(rotationSpeeds[3 * j], rotationSpeeds[3 * j + 1], rotationSpeeds[3 * j + 2]))
    }

    /** The pool's invariant: the arrays hold `Contents`, both cursors are slot indices,
        the cursor is `pending` writes past `lastCursor`, and nothing is pending while no
        update is flagged. */
    ghost predicate Valid()
      reads this, matrices, colors, colorsEnd, directions, lifetimes, speeds, rotationSpeeds
    {
      Consistent() && (!needUpdate ==> pending == 0)
    }

    ghost predicate Consistent()
      reads this`Contents, this`cursor, this`lastCursor, this`pending, this`uploads
      reads matrices, colors, colorsEnd, directions, lifetimes, speeds, rotationSpeeds
    {
      Shaped() && Holds() && Counters()
    }

    /** The attribute arrays hold `Contents`. */
    ghost predicate Holds()
      requires Shaped()
      reads this`Contents, matrices, colors, colorsEnd, directions, lifetimes, speeds, rotationSpeeds
    {
      && |Contents| == nbParticles
      && (forall j :: 0 <= j < nbParticles ==> SlotAt(j) == Contents[j])
    }

    /** Both cursors are slot indices, `pending` writes apart, and every attribute keeps its item size. */
    ghost predicate Counters()
      reads this`cursor, this`lastCursor, this`pending, this`uploads
    {
      && 0 < nbParticles
      && cursor < nbParticles && lastCursor < nbParticles
      && cursor == (lastCursor + pending) % nbParticles
      && |uploads| == |ItemSizes|
      && (forall a :: 0 <= a < |uploads| ==> uploads[a].itemSize == ItemSizes[a])
    }

    constructor (n: nat)
      requires 0 < n
      ensures Valid() && nbParticles == n
      ensures cursor == 0 && lastCursor == 0 && !needUpdate && pending == 0
      ensures Contents == seq(n, _ => EmptySlot)
      ensures uploads == seq(|ItemSizes|, a requires 0 <= a < |ItemSizes| => Upload(ItemSizes[a], [], false))
      ensures fresh(matrices) && fresh(colors) && fresh(colorsEnd) && fresh(directions)
      ensures fresh(lifetimes) && fresh(speeds) && fresh(rotationSpeeds)
    {
      nbParticles := n;
      matrices := new Transform[n](_ => Identity);
      colors := new real[3 * n](_ => 0.0);
      colorsEnd := new real[3 * n](_ => 0.0);
      directions := new real[3 * n](_ => 0.0);
      lifetimes := new real[2 * n](_ => 0.0);
      speeds := new real[n](_ => 0.0);
      rotationSpeeds := new real[3 * n](_ => 0.0);
      cursor, lastCursor, needUpdate := 0, 0, false;
      uploads := seq(|ItemSizes|, a requires 0 <= a < |ItemSizes| => Upload(ItemSizes[a], [], false));
      Contents := seq(n, _ => EmptySlot);
      pending := 0;
      new;
      ModOfSmall(0, n);
      assert Counters();
      forall j | 0 <= j < n
        ensures SlotAt(j) == Contents[j]
      {
        assert colors[3 * j] == colors[3 * j + 1] == colors[3 * j + 2] == 0.0;
      }
    }

    /** `attribute.set(vals, offset)`: copies `vals` into `a` from index `offset`; every
        other element keeps its value. */
    static method SetItems(a: array<real>, offset: nat, vals: seq<real>)
      requires offset + |vals| <= a.Length
      modifies a
      ensures forall e :: 0 <= e < a.Length ==>
        a[e] == if offset <= e < offset + |vals| then vals[e - offset] else old(a[e])
    {
      forall e | offset <= e < offset + |vals| {
        a[e] := vals[e - offset];
      }
    }

    /** Writes one particle's attributes to slot `s`: the matrix at index `s` and, for an
        attribute of item size `k`, the elements `[s * k, (s + 1) * k)`; every other slot keeps its value. */
    method WriteSlot(s: nat, v: Slot)
      requires Shaped() && s < nbParticles
      modifies matrices, colors, colorsEnd, directions, lifetimes, speeds, rotationSpeeds
      ensures SlotAt(s) == v
      ensures forall j :: 0 <= j < nbParticles && j != s ==> SlotAt(j) == old(SlotAt(j))
    {
      matrices[s] := v.matrix;
      SetItems(colors, 3 * s, [v.color.r, v.color.g, v.color.b]);
      SetItems(colorsEnd, 3 * s, [v.colorEnd.r, v.colorEnd.g, v.colorEnd.b]);
      SetItems(rotationSpeeds, 3 * s, [v.rotationSpeed.x, v.rotationSpeed.y, v.rotationSpeed.z]);
      SetItems(lifetimes, 2 * s, [v.birthTime, v.duration]);
      SetItems(speeds, s, [v.speed]);
      SetItems(directions, 3 * s, [v.direction.x, v.direction.y, v.direction.z]);
    }

    /** One turn of the emit loop: write `slot` under the cursor, then advance and wrap the cursor. */
    method WriteNext(slot: Slot)
      requires Consistent()
      modifies this`Contents, this`cursor, this`pending
      modifies matrices, colors, colorsEnd, directions, lifetimes, speeds, rotationSpeeds
      ensures Consistent()
      ensures Contents == old(Contents)[old(cursor) := slot]
      ensures cursor == (old(cursor) + 1) % nbParticles && pending == old(pending) + 1
    {
      WriteSlot(cursor, slot);
      Contents := Contents[cursor := slot];
      assert Holds();
      ModAddOne(lastCursor + pending, nbParticles);
      cursor := cursor + 1;
      cursor := cursor % nbParticles;
      pending := pending + 1;
    }

    /** `emit(count, setup)`: `batch` holds the `count` records the setup callback returns,
        in call order. Each goes to the slot under the cursor, which then advances and wraps. */
    method Emit(batch: seq<Particle>, style: string -> Rgb)
      requires Valid()
      modifies this, matrices, colors, colorsEnd, directions, lifetimes, speeds, rotationSpeeds
      ensures Valid()
      ensures cursor == (old(cursor) + |batch|) % nbParticles
      ensures Contents == RingWrite(old(Contents), old(cursor), StoredAll(batch, style))
      ensures needUpdate && pending == old(pending) + |batch|
      ensures lastCursor == old(lastCursor) && uploads == old(uploads)
    {
      WriteAll(batch, style);
      needUpdate := true;
    }

    /** The emit loop over the batch. */
    method WriteAll(batch: seq<Particle>, style: string -> Rgb)
      requires Consistent()
      modifies this`Contents, this`cursor, this`pending
      modifies matrices, colors, colorsEnd, directions, lifetimes, speeds, rotationSpeeds
      ensures Consistent()
      ensures cursor == (old(cursor) + |batch|) % nbParticles
      ensures Contents == RingWrite(old(Contents), old(cursor), StoredAll(batch, style))
      ensures pending == old(pending) + |batch|
    {
      ghost var written := StoredAll(batch, style);
      ghost var start, before, pending0 := cursor, Contents, pending;
      ModOfSmall(cursor, nbParticles);
      var i := 0;
      while i < |batch|
        invariant 0 <= i <= |batch|
        invariant Consistent()
        invariant cursor == (start + i) % nbParticles
        invariant Contents == RingWrite(before, start, written[..i])
        invariant pending == pending0 + i
      {
        RingWriteExtend(before, start, written, i);
        ModAddOne(start + i, nbParticles);
        WriteNext(Stored(batch[i], style));
        i := i + 1;
      }
      assert written[..|batch|] == written;
    }

    /** `onBeforeRender`: when particles were emitted since the last upload, gives every
        attribute the update ranges for the cursor's movement, then resets the bookkeeping. */
    method OnBeforeRender(meshReady: bool)
      requires Valid()
      modifies this
      ensures Valid()
      ensures Contents == old(Contents) && cursor == old(cursor)
      ensures !old(needUpdate) || !meshReady ==>
        lastCursor == old(lastCursor) && needUpdate == old(needUpdate) && uploads == old(uploads) && pending == old(pending)
      ensures old(needUpdate) && meshReady ==>
        && lastCursor == cursor && !needUpdate && pending == 0
        && forall a :: 0 <= a < |ItemSizes| ==>
             uploads[a] == Upload(ItemSizes[a], DirtyRanges(old(lastCursor), cursor, nbParticles, ItemSizes[a]), true)
    {
      if !needUpdate || !meshReady {
        return;
      }
      for a := 0 to |ItemSizes|
        invariant Valid() && lastCursor == old(lastCursor) && needUpdate && pending == old(pending)
        invariant Contents == old(Contents) && cursor == old(cursor)
        invariant forall b :: 0 <= b < a ==>
          uploads[b] == Upload(ItemSizes[b], DirtyRanges(lastCursor, cursor, nbParticles, ItemSizes[b]), true)
      {
        var k := uploads[a].itemSize;
        var ranges: seq<Range> := [];
        if lastCursor > cursor {
          ranges := ranges + [Range(0, cursor * k)];
          ranges := ranges + [Range(lastCursor * k, nbParticles * k - lastCursor * k)];
        } else {
          ranges := ranges + [Range(lastCursor * k, cursor * k - lastCursor * k)];
        }
        uploads := uploads[a := Upload(k, ranges, true)];
      }
      lastCursor := cursor;
      needUpdate := false;
      pending := 0;
      ModOfSmall(cursor, nbParticles);
    }
  }

  /** The wrap-around scenario: four slots, six particles from slot 0. Slots 0 and 1 hold the fifth and sixth particles, slots 2 and 3 the third and fourth. */
  lemma SixIntoFour<T>(slots: seq<T>, p0: T, p1: T, p2: T, p3: T, p4: T, p5: T)
    requires |slots| == 4
    ensures RingWrite(slots, 0, [p0, p1, p2, p3, p4, p5]) == [p4, p5, p2, p3]
  {
    var b := [p0, p1, p2, p3, p4, p5];
    var r := RingWrite(slots, 0, b);
    RingWriteAt(slots, 0, b, 0);
    RingWriteAt(slots, 0, b, 1);
    RingWriteAt(slots, 0, b, 2);
    RingWriteAt(slots, 0, b, 3);
    assert r[0] == p4 && r[1] == p5 && r[2] == p2 && r[3] == p3;
  }
}
