/**
 * The emitter tuning panel: its flat colour controls are packed into the colour
 * lists an emitter takes, and an emitter's settings are unpacked back into the
 * panel when it opens. The controls other than colours are kept as `rest`, a map
 * from control name to value.
 */
module Builder {
  import opened Basics

  /** The panel's values; `rest` holds every control other than the colour ones. */
  datatype Panel<V> = Panel(
    rest: map<string, V>, nbColors: int,
    colorStart: string, colorEnd: string,
    colorStart2: string, colorEnd2: string,
    colorStart3: string, colorEnd3: string)
  {
    /** The `k`-th start colour control, counting from 0. */
    function StartAt(k: nat): string
      requires k < 3
    {
      if k == 0 then colorStart else if k == 1 then colorStart2 else colorStart3
    }

    /** The `k`-th end colour control, counting from 0. */
    function EndAt(k: nat): string
      requires k < 3
    {
      if k == 0 then colorEnd else if k == 1 then colorEnd2 else colorEnd3
    }
  }

  /** Emitter settings with colour lists; `rest` holds the other keys the settings supply. */
  datatype Packed<V> = Packed(rest: map<string, V>, colorStart: seq<string>, colorEnd: seq<string>)

  /** How many colours a panel with `nbColors` exports: always the first, and up to three. */
  function ColorCount(nbColors: int): (n: nat)
    ensures 1 <= n <= 3
    ensures 1 <= nbColors <= 3 ==> n == nbColors
  {
    if nbColors <= 1 then 1 else if nbColors == 2 then 2 else 3
  }

  /** The settings the panel exports: the first `ColorCount(nbColors)` start and end controls,
      in order, and every other control as it is. */
  function Pack<V>(p: Panel<V>): (s: Packed<V>)
    ensures s.rest == p.rest
    ensures |s.colorStart| == |s.colorEnd| == ColorCount(p.nbColors)
    ensures forall k :: 0 <= k < |s.colorStart| ==> s.colorStart[k] == p.StartAt(k)
    ensures forall k :: 0 <= k < |s.colorEnd| ==> s.colorEnd[k] == p.EndAt(k)
  {
    var start := [p.colorStart]
      + (if p.nbColors > 1 then [p.colorStart2] else [])
      + (if p.nbColors > 2 then [p.colorStart3] else []);
    var end := [p.colorEnd]
      + (if p.nbColors > 1 then [p.colorEnd2] else [])
      + (if p.nbColors > 2 then [p.colorEnd3] else []);
    Packed(p.rest, start, end)
  }

  /** The values the panel is sent when it opens on existing settings; `None`, or a key
      missing from `rest`, is a value the settings do not supply. */
  datatype Unpacked<V> = Unpacked(
    rest: map<string, V>, nbColors: Option<int>,
    colorStart: Option<string>, colorEnd: Option<string>,
    colorStart2: Option<string>, colorEnd2: Option<string>)

  function Entry(xs: seq<string>, i: nat): Option<string> {
    if i < |xs| then Some(xs[i]) else None
  }

  /** What unpacking yields: the first two colours of each list, and as many colours as
      there are start colours, at most two. */
  function Unpacking<V>(s: Packed<V>): Unpacked<V> {
    Unpacked(
      s.rest,
      if |s.colorStart| == 0 then None else Some(Min(|s.colorStart|, 2)),
      Entry(s.colorStart, 0), Entry(s.colorEnd, 0),
      Entry(s.colorStart, 1), Entry(s.colorEnd, 1))
  }

  /** The loop over the first two positions of the colour lists. */
  method Unpack<V>(s: Packed<V>) returns (u: Unpacked<V>)
    ensures u == Unpacking(s)
  {
    u := Unpacked(s.rest, None, None, None, None, None);
    for i := 0 to 2
      invariant u.rest == s.rest
      invariant u.nbColors == if Min(|s.colorStart|, i) == 0 then None else Some(Min(|s.colorStart|, i))
      invariant u.colorStart == (if i > 0 then Entry(s.colorStart, 0) else None)
      invariant u.colorStart2 == (if i > 1 then Entry(s.colorStart, 1) else None)
      invariant u.colorEnd == (if i > 0 then Entry(s.colorEnd, 0) else None)
      invariant u.colorEnd2 == (if i > 1 then Entry(s.colorEnd, 1) else None)
    {
      if |s.colorStart| > i {
        if i == 0 {
          u := u.(colorStart := Some(s.colorStart[i]));
        } else {
          u := u.(colorStart2 := Some(s.colorStart[i]));
        }
        u := u.(nbColors := Some(i + 1));
      }
      if |s.colorEnd| > i {
        if i == 0 {
          u := u.(colorEnd := Some(s.colorEnd[i]));
        } else {
          u := u.(colorEnd2 := Some(s.colorEnd[i]));
        }
      }
    }
  }

  function Keep<T>(current: T, update: Option<T>): T {
    if update.Some? then update.value else current
  }

  /** The panel's controls after `set` is sent `update`: every control is named, a supplied
      value replaces the panel's and an undefined one leaves it; keys that are not controls
      are ignored. */
  function Merge<V>(controls: map<string, V>, update: map<string, V>): map<string, V> {
    map k | k in controls :: if k in update then update[k] else controls[k]
  }

  /** The panel after it is sent `u`: supplied values replace the panel's, the rest stay. */
  function Apply<V>(p: Panel<V>, u: Unpacked<V>): Panel<V> {
    Panel(
      Merge(p.rest, u.rest), Keep(p.nbColors, u.nbColors),
      Keep(p.colorStart, u.colorStart), Keep(p.colorEnd, u.colorEnd),
      Keep(p.colorStart2, u.colorStart2), Keep(p.colorEnd2, u.colorEnd2),
      p.colorStart3, p.colorEnd3)
  }

  /** Opening the panel on settings with at least one start colour and exporting again gives
      back the first two start colours (all of them when there are at most two), the end
      colours at the same positions when the settings have that many, every control the
      settings supply with the settings' value, and every other control with the panel's. */
  lemma {:induction false} SettingsRoundTrip<V>(p: Panel<V>, s: Packed<V>)
    requires 1 <= |s.colorStart|
    ensures var b := Pack(Apply(p, Unpacking(s)));
            && b.rest.Keys == p.rest.Keys
            && (forall k :: k in p.rest && k in s.rest ==> b.rest[k] == s.rest[k])
            && (forall k :: k in p.rest && k !in s.rest ==> b.rest[k] == p.rest[k])
            && b.colorStart == s.colorStart[..Min(|s.colorStart|, 2)]
            && (Min(|s.colorStart|, 2) <= |s.colorEnd| ==> b.colorEnd == s.colorEnd[..Min(|s.colorStart|, 2)])
  {
    var q := Apply(p, Unpacking(s));
    var b := Pack(q);
    var n := Min(|s.colorStart|, 2);
    assert q.nbColors == n;
    assert |b.colorStart| == n;
    forall k | 0 <= k < n
      ensures b.colorStart[k] == s.colorStart[k]
    {
      assert b.colorStart[k] == q.StartAt(k);
    }
    assert b.colorStart == s.colorStart[..n];
    if n <= |s.colorEnd| {
      forall k | 0 <= k < n
        ensures b.colorEnd[k] == s.colorEnd[k]
      {
        assert b.colorEnd[k] == q.EndAt(k);
      }
      assert b.colorEnd == s.colorEnd[..n];
    }
  }

  /** Exporting a panel and opening it again restores every control, except that a panel
      set to three colours comes back set to two. */
  lemma PanelRoundTrip<V>(p: Panel<V>)
    ensures Apply(p, Unpacking(Pack(p))) == p.(nbColors := Min(ColorCount(p.nbColors), 2))
    ensures 1 <= p.nbColors <= 2 ==> Apply(p, Unpacking(Pack(p))) == p
  {
  }
}
