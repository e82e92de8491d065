/**
 * A trail that follows a target: a fixed number of recent target positions, newest first,
 * drawn as a ribbon of vertex pairs from the oldest point to the newest.
 */
module Trail {
  import opened Basics

  function SqDistance(a: Vec3, b: Vec3): real {
    (a.x - b.x) * (a.x - b.x) + (a.y - b.y) * (a.y - b.y) + (a.z - b.z) * (a.z - b.z)
  }

  /** `distanceTo(a, b) > minDistance`, compared on squares so that no root is needed. */
  predicate FartherThan(a: Vec3, b: Vec3, minDistance: real) {
    minDistance < 0.0 || SqDistance(a, b) > minDistance * minDistance
  }

  /** The queue after `unshift(p)` and `pop()`: `p` in front, the oldest point gone. */
  function Shift(points: seq<Vec3>, p: Vec3): (r: seq<Vec3>)
    requires 0 < |points|
    ensures |r| == |points|
    ensures r[0] == p
    ensures forall i :: 1 <= i < |r| ==> r[i] == points[i - 1]
  {
    ([p] + points)[..|points|]
  }

  /** The queue after the target has been recorded at each of `moves`, in order. */
  function Follow(points: seq<Vec3>, moves: seq<Vec3>): seq<Vec3>
    requires 0 < |points|
    decreases |moves|
  {
    if moves == [] then points else Follow(Shift(points, moves[0]), moves[1..])
  }

  /** After a series of recorded moves, the queue holds the latest moves newest first, and
      then the oldest part of the earlier queue; once there have been as many moves as
      points, it is exactly the last moves in reverse. */
  lemma {:induction false} FollowKeepsLatest(points: seq<Vec3>, moves: seq<Vec3>, i: nat)
    requires 0 < |points| && i < |points|
    ensures |Follow(points, moves)| == |points|
    ensures Follow(points, moves)[i] ==
            if i < |moves| then moves[|moves| - 1 - i] else points[i - |moves|]
    decreases |moves|
  {
    if moves != [] {
      var shifted := Shift(points, moves[0]);
      FollowKeepsLatest(shifted, moves[1..], i);
      if i < |moves| - 1 {
        assert moves[1..][|moves| - 2 - i] == moves[|moves| - 1 - i];
      } else if i == |moves| - 1 {
        assert shifted[0] == moves[0];
      } else {
        assert shifted[i - (|moves| - 1)] == points[i - |moves|];
      }
    }
  }

  /** Vertex `v` of the ribbon: pair `v / 2` comes from the `v / 2`-th oldest point, the
      even vertex half a height below it and the odd one half a height above. */
  function VertexAt(points: seq<Vec3>, height: real, v: nat): Vec3
    requires v < 2 * |points|
  {
    var p := points[|points| - 1 - v / 2];
    if v % 2 == 0 then Vec3(p.x, p.y - height / 2.0, p.z) else Vec3(p.x, p.y + height / 2.0, p.z)
  }

  /** The two vertices of a pair stand one above the other, exactly `height` apart, and the
      first pair is drawn at the oldest point and the last at the newest. */
  lemma VertexPairs(points: seq<Vec3>, height: real, i: nat)
    requires i < |points|
    ensures VertexAt(points, height, 2 * i).x == VertexAt(points, height, 2 * i + 1).x
    ensures VertexAt(points, height, 2 * i).z == VertexAt(points, height, 2 * i + 1).z
    ensures VertexAt(points, height, 2 * i + 1).y - VertexAt(points, height, 2 * i).y == height
    ensures var p := points[|points| - 1 - i];
            && VertexAt(points, height, 2 * i) == Vec3(p.x, p.y - height / 2.0, p.z)
            && VertexAt(points, height, 2 * i + 1) == Vec3(p.x, p.y + height / 2.0, p.z)
  {
    PairIndices(i);
  }

  /** Pair `j` of `vertices` holds the ribbon's vertices `2 * j` and `2 * j + 1`. */
  ghost predicate PairDrawn(vertices: seq<Vec3>, points: seq<Vec3>, height: real, j: nat)
    requires j < |points| && |vertices| == 2 * |points|
  {
    var p := points[|points| - 1 - j];
    vertices[2 * j] == Vec3(p.x, p.y - height / 2.0, p.z) && vertices[2 * j + 1] == Vec3(p.x, p.y + height / 2.0, p.z)
  }

  lemma PairIndices(i: nat)
    ensures (2 * i) / 2 == i && (2 * i) % 2 == 0
    ensures (2 * i + 1) / 2 == i && (2 * i + 1) % 2 == 1
  {
  }

  class SimpleTrail {
    const numPoints: nat
    const height: real
    const minDistance: real
    /** The plane's position attribute: two vertices per point. */
    const vertices: array<Vec3>
    var positions: seq<Vec3>

    ghost predicate Valid()
      reads this
    {
      0 < numPoints && |positions| == numPoints && vertices.Length == 2 * numPoints
    }

    constructor (numPoints: nat, height: real, minDistance: real)
      requires 0 < numPoints
      ensures Valid() && fresh(vertices)
      ensures this.numPoints == numPoints && this.height == height && this.minDistance == minDistance
      ensures positions == seq(numPoints, _ => Origin)
    {
      this.numPoints, this.height, this.minDistance := numPoints, height, minDistance;
      positions := seq(numPoints, _ => Origin);
      vertices := new Vec3[2 * numPoints](_ => Origin);
    }

    /** One frame: `ready` is whether both the mesh and the target exist. The target's
        position is recorded when it is farther than `minDistance` from the newest point,
        and then every vertex is redrawn from the queue. */
    method Frame(ready: bool, target: Vec3)
      requires Valid()
      modifies this, vertices
      ensures Valid()
      ensures !ready ==> positions == old(positions) && vertices[..] == old(vertices[..])
      ensures ready ==> positions ==
                        if FartherThan(old(positions)[0], target, minDistance) then Shift(old(positions), target)
                        else old(positions)
      ensures ready ==> forall v :: 0 <= v < 2 * numPoints ==> vertices[v] == VertexAt(positions, height, v)
    {
      if !ready {
        return;
      }
      if FartherThan(positions[0], target, minDistance) {
        positions := Shift(positions, target);
      }
      Redraw();
    }

    /** The vertex loop: pair `i` is written from the `i`-th oldest point. */
    method Redraw()
      requires Valid()
      modifies vertices
      ensures forall v :: 0 <= v < 2 * numPoints ==> vertices[v] == VertexAt(positions, height, v)
    {
      for i := 0 to numPoints
        invariant forall j :: 0 <= j < i ==> PairDrawn(vertices[..], positions, height, j)
      {
        var point := positions[|positions| - 1 - i];
        ghost var before := vertices[..];
        vertices[i * 2] := Vec3(point.x, point.y - height / 2.0, point.z);
        vertices[i * 2 + 1] := Vec3(point.x, point.y + height / 2.0, point.z);
        forall j | 0 <= j < i
          ensures PairDrawn(vertices[..], positions, height, j)
        {
          assert PairDrawn(before, positions, height, j);
          assert vertices[2 * j] == before[2 * j] && vertices[2 * j + 1] == before[2 * j + 1];
        }
      }
      forall v | 0 <= v < 2 * numPoints
        ensures vertices[v] == VertexAt(positions, height, v)
      {
        PairIndices(v / 2);
        assert PairDrawn(vertices[..], positions, height, v / 2);
      }
    }
  }
}
