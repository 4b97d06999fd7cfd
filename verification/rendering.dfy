/** The draw queue of a scene (src/engine/Renderer.java): submitted objects
    grouped by zIndex, drawn from the lowest zIndex to the highest and, within
    one zIndex, in submission order; an object that is not part of the UI is
    drawn moved by the camera and then put back. The queue is generic in how
    an object is named. */
module Rendering {
  import opened Text
  import opened Vectors
  import opened Transforms
  import Seqs

  datatype Renderer<H> = Renderer(buckets: map<Int32, seq<H>>)

  /** The constructor: no buckets. */
  function Empty<H>(): (r: Renderer<H>)
    ensures r.buckets == map[]
  {
    Renderer(map[])
  }

  /** The objects submitted at `z`, in order; none when the bucket is absent. */
  function Bucket<H>(r: Renderer<H>, z: Int32): seq<H> {
    if z in r.buckets then r.buckets[z] else []
  }

  /** submit: the bucket of `z` is created on first use, and `h` goes last
      in it; every other bucket stays as it was. */
  function Submit<H>(r: Renderer<H>, z: Int32, h: H): (s: Renderer<H>)
    ensures s.buckets.Keys == r.buckets.Keys + {z}
    ensures Bucket(s, z) == Bucket(r, z) + [h]
    ensures forall k :: k != z ==> Bucket(s, k) == Bucket(r, k)
  {
    Renderer(r.buckets[z := Bucket(r, z) + [h]])
  }

  /** A run of submissions, first to last. */
  function SubmitAll<H>(r: Renderer<H>, ps: seq<(Int32, H)>): Renderer<H>
    decreases |ps|
  {
    if ps == [] then r else SubmitAll(Submit(r, ps[0].0, ps[0].1), ps[1..])
  }

  /** The objects of a run submitted at `z`, in order. */
  function Filter<H>(ps: seq<(Int32, H)>, z: Int32): seq<H> {
    if ps == [] then []
    else (if ps[0].0 == z then [ps[0].1] else []) + Filter(ps[1..], z)
  }

  /** After a run of submissions each bucket holds what it held before,
      followed by the run's objects for that zIndex, in submission order. */
  lemma {:induction false} SubmitAllBuckets<H>(r: Renderer<H>, ps: seq<(Int32, H)>, z: Int32)
    ensures Bucket(SubmitAll(r, ps), z) == Bucket(r, z) + Filter(ps, z)
    decreases |ps|
  {
    if ps != [] {
      SubmitAllBuckets(Submit(r, ps[0].0, ps[0].1), ps[1..], z);
    }
  }

  /** No key lies below `m`. */
  predicate LowerBound(m: int, keys: set<Int32>) {
    forall k :: k in keys ==> m <= k
  }

  /** The least zIndex of a non-empty set. */
  ghost function Least(keys: set<Int32>): (m: Int32)
    requires keys != {}
    ensures m in keys && LowerBound(m, keys)
  {
    LeastExists(keys);
    var m :| m in keys && LowerBound(m, keys);
    m
  }

  lemma {:induction false} LeastExists(keys: set<Int32>)
    requires keys != {}
    ensures exists m :: m in keys && LowerBound(m, keys)
    decreases |keys|
  {
    var x :| x in keys;
    var rest := keys - {x};
    if rest == {} {
      assert keys == {x};
      assert LowerBound(x, keys);
    } else {
      LeastExists(rest);
      var m :| m in rest && LowerBound(m, rest);
      assert keys == rest + {x};
      if x < m {
        assert LowerBound(x, keys);
      } else {
        assert LowerBound(m, keys);
      }
    }
  }

  /** A part of the buckets holding the least zIndex has the same least
      zIndex. */
  lemma LeastOfPart(keys: set<Int32>, part: set<Int32>)
    requires keys != {} && part <= keys && Least(keys) in part
    ensures Least(part) == Least(keys)
  {
    var m := Least(keys);
    var m' := Least(part);
    assert m' in keys;
  }

  /** The reference order: the whole bucket of the least zIndex, then the
      order of the remaining buckets. */
  ghost function DrawOrder<H>(b: map<Int32, seq<H>>): seq<H>
    decreases |b.Keys|
  {
    if b.Keys == {} then []
    else
      var m := Least(b.Keys);
      assert b.Keys - {m} < b.Keys;
      b[m] + DrawOrder(b - {m})
  }

  /** The buckets below `z`. */
  function Below<H>(b: map<Int32, seq<H>>, z: int): (c: map<Int32, seq<H>>)
    ensures forall k :: k in c <==> k in b && k < z
    ensures forall k :: k in c ==> c[k] == b[k]
  {
    map k | k in b && k < z :: b[k]
  }

  /** The buckets at or above `z`. */
  function AtOrAbove<H>(b: map<Int32, seq<H>>, z: int): (c: map<Int32, seq<H>>)
    ensures forall k :: k in c <==> k in b && k >= z
    ensures forall k :: k in c ==> c[k] == b[k]
  {
    map k | k in b && k >= z :: b[k]
  }

  /** A bucket above every other one is drawn last. */
  lemma {:induction false} DrawOrderLast<H>(b: map<Int32, seq<H>>, z: Int32, s: seq<H>)
    requires forall k :: k in b ==> k < z
    ensures DrawOrder(b[z := s]) == DrawOrder(b) + s
    decreases |b.Keys|
  {
    var c := b[z := s];
    if b.Keys == {} {
      assert c.Keys == {z};
      assert c - {z} == map[];
    } else {
      var m := Least(b.Keys);
      assert Least(c.Keys) == m by {
        var m' := Least(c.Keys);
        assert m in c.Keys && m < z;
        assert m' in b.Keys || m' == z;
      }
      assert b.Keys - {m} < b.Keys && c.Keys - {m} < c.Keys;
      var rest := b - {m};
      assert c - {m} == rest[z := s];
      DrawOrderLast(rest, z, s);
      assert DrawOrder(c) == b[m] + (DrawOrder(rest) + s);
      assert DrawOrder(b) == b[m] + DrawOrder(rest);
      Seqs.Assoc(b[m], DrawOrder(rest), s);
    }
  }

  /** Everything below a zIndex is drawn before everything at or above it. */
  lemma {:induction false} DrawOrderSplit<H>(b: map<Int32, seq<H>>, z: int)
    ensures DrawOrder(b) == DrawOrder(Below(b, z)) + DrawOrder(AtOrAbove(b, z))
    decreases |b.Keys|, 1
  {
    if b.Keys != {} {
      var m := Least(b.Keys);
      if m < z {
        SplitLowCase(b, m, z);
      } else {
        SplitHighCase(b, m, z);
      }
    }
  }

  lemma SplitLowCase<H>(b: map<Int32, seq<H>>, m: Int32, z: int)
    requires b.Keys != {} && m == Least(b.Keys) && m < z
    ensures DrawOrder(b) == DrawOrder(Below(b, z)) + DrawOrder(AtOrAbove(b, z))
    decreases |b.Keys|, 0
  {
    var rest := b - {m};
    assert b.Keys - {m} < b.Keys;
    assert DrawOrder(b) == b[m] + DrawOrder(rest);
    DrawOrderSplit(rest, z);
    SplitLow(b, m, z);
    Seqs.Assoc(b[m], DrawOrder(Below(rest, z)), DrawOrder(AtOrAbove(rest, z)));
  }

  /** When nothing lies below `z`, the split is the whole map and nothing. */
  lemma SplitHighCase<H>(b: map<Int32, seq<H>>, m: Int32, z: int)
    requires b.Keys != {} && m == Least(b.Keys) && m >= z
    ensures DrawOrder(b) == DrawOrder(Below(b, z)) + DrawOrder(AtOrAbove(b, z))
  {
    var lo: map<Int32, seq<H>> := map[];
    assert Below(b, z) == lo;
    assert AtOrAbove(b, z) == b;
    assert DrawOrder(lo) == [];
  }

  lemma SplitLow<H>(b: map<Int32, seq<H>>, m: Int32, z: int)
    requires b.Keys != {} && m == Least(b.Keys) && m < z
    ensures DrawOrder(Below(b, z)) == b[m] + DrawOrder(Below(b - {m}, z))
    ensures AtOrAbove(b, z) == AtOrAbove(b - {m}, z)
  {
    var lo := Below(b, z);
    LeastOfPart(b.Keys, lo.Keys);
    assert lo - {m} == Below(b - {m}, z);
  }

  /** Every object of every bucket is drawn. */
  lemma {:induction false} DrawOrderHas<H>(b: map<Int32, seq<H>>, z: Int32, i: nat)
    requires z in b && i < |b[z]|
    ensures b[z][i] in DrawOrder(b)
    decreases |b.Keys|
  {
    var m := Least(b.Keys);
    assert b.Keys - {m} < b.Keys;
    if m != z {
      DrawOrderHas(b - {m}, z, i);
    }
  }

  /** render: find the lowest and the highest zIndex, then walk every zIndex
      between them, skipping the absent ones. */
  method Render<H>(r: Renderer<H>) returns (draws: seq<H>)
    ensures draws == DrawOrder(r.buckets)
    ensures r.buckets == map[] ==> draws == []
  {
    var lowest, highest := Extremes(r.buckets.Keys);
    draws := Sweep(r.buckets, lowest, highest);
  }

  /** The first loop of render: Integer.MAX_VALUE and Integer.MIN_VALUE
      lowered and raised to the least and the greatest key. */
  method Extremes(keys: set<Int32>) returns (lowest: int, highest: int)
    ensures forall k :: k in keys ==> lowest <= k <= highest
    ensures keys != {} ==> lowest in keys && highest in keys
    ensures keys == {} ==> lowest == MAX_INT && highest == MIN_INT
  {
    lowest, highest := MAX_INT, MIN_INT;
    var left := keys;
    ghost var seen := false;
    while left != {}
      invariant left <= keys
      invariant !seen ==> left == keys && lowest == MAX_INT && highest == MIN_INT
      invariant forall k :: k in keys && k !in left ==> lowest <= k <= highest
      invariant seen ==> lowest in keys && highest in keys
      decreases |left|
    {
      var k :| k in left;
      if k < lowest {
        lowest := k;
      }
      if k > highest {
        highest := k;
      }
      left, seen := left - {k}, true;
    }
  }

  /** The second loop of render: every zIndex from `lowest` to `highest`. */
  method Sweep<H>(b: map<Int32, seq<H>>, lowest: int, highest: int) returns (draws: seq<H>)
    requires forall k :: k in b ==> lowest <= k <= highest
    requires b != map[] ==> lowest in b && highest in b
    requires b == map[] ==> lowest > highest
    ensures draws == DrawOrder(b)
  {
    draws := [];
    var z := lowest;
    assert Below(b, z) == map[];
    while z <= highest
      invariant lowest <= z && (b != map[] ==> z <= highest + 1)
      invariant draws == DrawOrder(Below(b, z))
      decreases highest + 1 - z
    {
      if z in b {
        assert Below(b, z + 1) == Below(b, z)[z := b[z]];
        DrawOrderLast(Below(b, z), z, b[z]);
      } else {
        assert Below(b, z + 1) == Below(b, z);
      }
      draws := draws + Bucket(Renderer(b), z);
      z := z + 1;
    }
    assert Below(b, z) == b;
  }

  /** What an object's draw observes: a UI object its own transform; any
      other object its transform with the position moved by minus the camera,
      rotation and scale untouched. */
  function View(t: Transform, isUi: bool, camera: Vector2): (v: Transform)
    ensures isUi ==> v == t
    ensures !isUi ==> v.position.x + camera.x == t.position.x && v.position.y + camera.y == t.position.y
    ensures v.scale == t.scale && v.rotation == t.rotation
  {
    if isUi then t else t.(position := Vector2(t.position.x - camera.x, t.position.y - camera.y))
  }

  /** The transform the renderer saves before the shift and puts back after
      the draw: a new transform at the original position, given the original
      rotation and a copy of the scale. */
  function Saved(t: Transform): Transform {
    FromPosition(t.position).(rotation := t.rotation, scale := Vector2(t.scale.x, t.scale.y))
  }

  /** Putting the saved transform back restores position, rotation and scale. */
  lemma RestoreIsExact(t: Transform)
    ensures Saved(t) == t
  {
  }
}
