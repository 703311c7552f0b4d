/** Bounding boxes of GeoJSON coordinate trees (the bounding-box helpers of
    marble_api/utils/geojson.py).

    A coordinate tree is either a position (a flat list of numbers) or an array
    of coordinate trees, nested as deeply and as unevenly as the input is. The
    bounding box is computed from the leaf positions only: per axis, the least
    and the greatest value, where a position shorter than the longest one counts
    as 0 on the axes it lacks. */
module BBox {
  import opened Wrappers

  /** A JSON coordinate array: a position of numbers, or an array of nested coordinates. */
  datatype Coords = Position(values: seq<real>) | Array(items: seq<Coords>)

  /** Every position and every array in the tree is non-empty. The source reads
      the first element of each array to decide whether it is a position, so an
      empty one raises an index error. */
  ghost predicate Dense(c: Coords)
  {
    match c
    case Position(values) => |values| > 0
    case Array(items) => |items| > 0 && forall i :: 0 <= i < |items| ==> Dense(items[i])
  }

  /** The leaf positions of a coordinate tree in document order; None when the
      traversal hits an empty position or array. */
  function Points(c: Coords): (r: Option<seq<seq<real>>>)
    ensures r.Some? <==> Dense(c)
    ensures r.Some? ==> |r.value| > 0
    ensures r.Some? ==> forall k :: 0 <= k < |r.value| ==> |r.value[k]| > 0
    decreases c
  {
    match c
    case Position(values) => if |values| == 0 then None else Some([values])
    case Array(items) => if |items| == 0 then None else PointsOf(items)
  }

  /** The leaf positions of a list of sibling coordinate trees, in order. */
  function PointsOf(cs: seq<Coords>): (r: Option<seq<seq<real>>>)
    ensures r.Some? <==> forall i :: 0 <= i < |cs| ==> Dense(cs[i])
    ensures r.Some? && |cs| > 0 ==> |r.value| > 0
    ensures r.Some? ==> forall k :: 0 <= k < |r.value| ==> |r.value[k]| > 0
    decreases cs
  {
    if |cs| == 0 then Some([])
    else
      match Points(cs[0])
      case None => None
      case Some(head) =>
        match PointsOf(cs[1..])
        case None => None
        case Some(tail) =>
          assert forall i :: 1 <= i < |cs| ==> cs[i] == cs[1..][i - 1];
          Some(head + tail)
  }

  /** The number of axes of the longest position. */
  function Dim(pts: seq<seq<real>>): (d: nat)
    ensures forall k :: 0 <= k < |pts| ==> |pts[k]| <= d
    ensures |pts| > 0 ==> exists k :: 0 <= k < |pts| && |pts[k]| == d
    ensures |pts| == 0 ==> d == 0
  {
    if |pts| == 0 then 0
    else
      var rest := Dim(pts[1..]);
      assert forall k :: 1 <= k < |pts| ==> pts[k] == pts[1..][k - 1];
      if |pts[0]| >= rest then |pts[0]| else rest
  }

  /** The value of a position on axis i, 0 when the position has no such axis. */
  function Axis(p: seq<real>, i: nat): real
  {
    if i < |p| then p[i] else 0.0
  }

  /** The (padded) values of all positions on axis i. */
  function Column(pts: seq<seq<real>>, i: nat): (col: seq<real>)
    ensures |col| == |pts|
  {
    seq(|pts|, k requires 0 <= k < |pts| => Axis(pts[k], i))
  }

  function Min(xs: seq<real>): (m: real)
    requires |xs| > 0
    ensures exists k :: 0 <= k < |xs| && xs[k] == m
    ensures forall k :: 0 <= k < |xs| ==> m <= xs[k]
  {
    if |xs| == 1 then xs[0]
    else
      var rest := Min(xs[1..]);
      assert forall k :: 1 <= k < |xs| ==> xs[k] == xs[1..][k - 1];
      if xs[0] <= rest then xs[0] else rest
  }

  function Max(xs: seq<real>): (m: real)
    requires |xs| > 0
    ensures exists k :: 0 <= k < |xs| && xs[k] == m
    ensures forall k :: 0 <= k < |xs| ==> xs[k] <= m
  {
    if |xs| == 1 then xs[0]
    else
      var rest := Max(xs[1..]);
      assert forall k :: 1 <= k < |xs| ==> xs[k] == xs[1..][k - 1];
      if xs[0] >= rest then xs[0] else rest
  }

  /** The lower bound of axis i in a flat bounding box [min0, max0, min1, max1, ...]. */
  function Lo(b: seq<real>, i: nat): real
    requires 2 * i + 1 < |b|
  {
    b[2 * i]
  }

  /** The upper bound of axis i in a flat bounding box. */
  function Hi(b: seq<real>, i: nat): real
    requires 2 * i + 1 < |b|
  {
    b[2 * i + 1]
  }

  /** On every axis of b, every position's (zero-padded) value lies between the bounds. */
  ghost predicate Encloses(b: seq<real>, pts: seq<seq<real>>)
    requires |b| == 2 * Dim(pts)
  {
    forall i, k :: 0 <= i < Dim(pts) && 0 <= k < |pts| ==> Lo(b, i) <= Axis(pts[k], i) <= Hi(b, i)
  }

  /** On every axis of b, both bounds are values some position actually takes. */
  ghost predicate Tight(b: seq<real>, pts: seq<seq<real>>)
    requires |b| == 2 * Dim(pts)
  {
    && (forall i :: 0 <= i < Dim(pts) ==> exists k :: 0 <= k < |pts| && Axis(pts[k], i) == Lo(b, i))
    && (forall i :: 0 <= i < Dim(pts) ==> exists k :: 0 <= k < |pts| && Axis(pts[k], i) == Hi(b, i))
  }

  /** b is the bounding box of the positions pts: two entries per axis of the
      longest position, and on each axis the lower entry is the least and the
      upper entry the greatest (zero-padded) value of any position. */
  ghost predicate IsBBoxOf(b: seq<real>, pts: seq<seq<real>>)
  {
    |b| == 2 * Dim(pts) && Encloses(b, pts) && Tight(b, pts)
  }

  /** The list of (min, max) pairs flattened into [min0, max0, min1, max1, ...]. */
  function Flatten(pairs: seq<(real, real)>): (b: seq<real>)
    ensures |b| == 2 * |pairs|
    ensures forall i :: 0 <= i < |pairs| ==> Lo(b, i) == pairs[i].0 && Hi(b, i) == pairs[i].1
  {
    if |pairs| == 0 then []
    else
      var rest := Flatten(pairs[1..]);
      var b := [pairs[0].0, pairs[0].1] + rest;
      assert forall i :: 1 <= i < |pairs| ==> Lo(b, i) == Lo(rest, i - 1) && Hi(b, i) == Hi(rest, i - 1);
      b
  }

  /** Bounds taken as the per-axis minima and maxima of the columns. */
  ghost predicate ColumnBounds(b: seq<real>, pts: seq<seq<real>>)
    requires |pts| > 0
  {
    |b| == 2 * Dim(pts) &&
    forall i :: 0 <= i < Dim(pts) ==> Lo(b, i) == Min(Column(pts, i)) && Hi(b, i) == Max(Column(pts, i))
  }

  lemma ColumnBoundsEnclose(pts: seq<seq<real>>, b: seq<real>)
    requires |pts| > 0 && ColumnBounds(b, pts)
    ensures Encloses(b, pts)
  {
    forall i, k | 0 <= i < Dim(pts) && 0 <= k < |pts|
      ensures Lo(b, i) <= Axis(pts[k], i) <= Hi(b, i)
    {
      assert Column(pts, i)[k] == Axis(pts[k], i);
    }
  }

  lemma ColumnBoundsAreTight(pts: seq<seq<real>>, b: seq<real>)
    requires |pts| > 0 && ColumnBounds(b, pts)
    ensures Tight(b, pts)
  {
    forall i | 0 <= i < Dim(pts)
      ensures exists k :: 0 <= k < |pts| && Axis(pts[k], i) == Lo(b, i)
    {
      var col := Column(pts, i);
      var lo :| 0 <= lo < |col| && col[lo] == Min(col);
      assert Axis(pts[lo], i) == Lo(b, i);
    }
    forall i | 0 <= i < Dim(pts)
      ensures exists k :: 0 <= k < |pts| && Axis(pts[k], i) == Hi(b, i)
    {
      var col := Column(pts, i);
      var hi :| 0 <= hi < |col| && col[hi] == Max(col);
      assert Axis(pts[hi], i) == Hi(b, i);
    }
  }

  /** The per-axis minima and maxima of a non-empty list of positions, axes
      aligned longest-first as zip_longest aligns them, flattened pairwise. */
  function BBoxOfPoints(pts: seq<seq<real>>): (b: seq<real>)
    requires |pts| > 0
    ensures IsBBoxOf(b, pts)
  {
    var minMax := seq(Dim(pts), i requires 0 <= i < Dim(pts) => (Min(Column(pts, i)), Max(Column(pts, i))));
    var b := Flatten(minMax);
    ColumnBoundsEnclose(pts, b);
    ColumnBoundsAreTight(pts, b);
    b
  }

  /** bbox_from_coordinates: the bounding box of the leaf positions of a
      coordinate tree; None when the traversal fails on an empty array. */
  function BBoxFromCoordinates(c: Coords): (r: Option<seq<real>>)
    ensures r.Some? <==> Dense(c)
    ensures r.Some? ==> IsBBoxOf(r.value, Points(c).value)
  {
    match Points(c)
    case None => None
    case Some(pts) => Some(BBoxOfPoints(pts))
  }
}

/** Properties of bounding boxes: a box is determined by the set of leaf
    positions alone, so neither the nesting of the coordinate tree nor the order
    of siblings matters. */
module BBoxFacts {
  import opened Wrappers
  import opened BBox

  /** pts1 and pts2 hold the same positions, in any order and multiplicity. */
  ghost predicate SamePositions(pts1: seq<seq<real>>, pts2: seq<seq<real>>)
  {
    && (forall k :: 0 <= k < |pts1| ==> pts1[k] in pts2)
    && (forall k :: 0 <= k < |pts2| ==> pts2[k] in pts1)
  }

  /** Both optional position lists are present and concatenated, or the result is absent. */
  function Join(a: Option<seq<seq<real>>>, b: Option<seq<seq<real>>>): Option<seq<seq<real>>>
  {
    if a.Some? && b.Some? then Some(a.value + b.value) else None
  }

  lemma {:induction false} DimOfSamePositions(pts1: seq<seq<real>>, pts2: seq<seq<real>>)
    requires SamePositions(pts1, pts2)
    ensures Dim(pts1) == Dim(pts2)
  {
    if |pts1| > 0 {
      var k1 :| 0 <= k1 < |pts1| && |pts1[k1]| == Dim(pts1);
      var j1 := IndexOf(pts1[k1], pts2);
      assert Dim(pts1) <= Dim(pts2);
    }
    if |pts2| > 0 {
      var k2 :| 0 <= k2 < |pts2| && |pts2[k2]| == Dim(pts2);
      var j2 := IndexOf(pts2[k2], pts1);
      assert Dim(pts2) <= Dim(pts1);
    }
  }

  /** Every position of pts1 is one of pts2: the box of pts2 reaches at least as
      far as the box of pts1 on every axis both have. */
  lemma BoxCovers(pts1: seq<seq<real>>, pts2: seq<seq<real>>, b1: seq<real>, b2: seq<real>, i: nat)
    requires forall k :: 0 <= k < |pts1| ==> pts1[k] in pts2
    requires |b1| == 2 * Dim(pts1) && |b2| == 2 * Dim(pts2) && i < Dim(pts1) && i < Dim(pts2)
    requires Tight(b1, pts1) && Encloses(b2, pts2)
    ensures Lo(b2, i) <= Lo(b1, i) && Hi(b1, i) <= Hi(b2, i)
  {
    var k :| 0 <= k < |pts1| && Axis(pts1[k], i) == Lo(b1, i);
    var j := IndexOf(pts1[k], pts2);
    EnclosesAt(b2, pts2, i, j);
    var h :| 0 <= h < |pts1| && Axis(pts1[h], i) == Hi(b1, i);
    var g := IndexOf(pts1[h], pts2);
    EnclosesAt(b2, pts2, i, g);
  }

  lemma AxisBoundsAgree(pts1: seq<seq<real>>, pts2: seq<seq<real>>, b1: seq<real>, b2: seq<real>, i: nat)
    requires SamePositions(pts1, pts2) && Dim(pts1) == Dim(pts2)
    requires IsBBoxOf(b1, pts1) && IsBBoxOf(b2, pts2)
    requires i < Dim(pts1)
    ensures Lo(b1, i) == Lo(b2, i) && Hi(b1, i) == Hi(b2, i)
  {
    BoxCovers(pts1, pts2, b1, b2, i);
    BoxCovers(pts2, pts1, b2, b1, i);
  }

  /** The bounding box of a set of positions is unique: any two boxes meeting the
      specification for the same positions, listed in any order, are equal. */
  lemma EnclosesAt(b: seq<real>, pts: seq<seq<real>>, i: nat, k: nat)
    requires |b| == 2 * Dim(pts) && Encloses(b, pts)
    requires i < Dim(pts) && k < |pts|
    ensures Lo(b, i) <= Axis(pts[k], i) <= Hi(b, i)
  {
  }

  /** A position of a list sits at some index of it. */
  lemma IndexOf(p: seq<real>, pts: seq<seq<real>>) returns (j: nat)
    requires p in pts
    ensures j < |pts| && pts[j] == p
  {
    j :| 0 <= j < |pts| && pts[j] == p;
  }

  /** Two flat boxes with the same bounds on every axis are the same box. */
  lemma SameBoundsSameBox(b1: seq<real>, b2: seq<real>, n: nat)
    requires |b1| == 2 * n && |b2| == 2 * n
    requires forall i :: 0 <= i < n ==> Lo(b1, i) == Lo(b2, i) && Hi(b1, i) == Hi(b2, i)
    ensures b1 == b2
  {
    forall j | 0 <= j < |b1|
      ensures b1[j] == b2[j]
    {
      var i := j / 2;
      if j % 2 == 0 {
        assert b1[j] == Lo(b1, i) && b2[j] == Lo(b2, i);
      } else {
        assert b1[j] == Hi(b1, i) && b2[j] == Hi(b2, i);
      }
    }
  }

  lemma {:induction false} BBoxUnique(pts1: seq<seq<real>>, pts2: seq<seq<real>>, b1: seq<real>, b2: seq<real>)
    requires SamePositions(pts1, pts2)
    requires IsBBoxOf(b1, pts1) && IsBBoxOf(b2, pts2)
    ensures b1 == b2
  {
    DimOfSamePositions(pts1, pts2);
    forall i | 0 <= i < Dim(pts1)
      ensures Lo(b1, i) == Lo(b2, i) && Hi(b1, i) == Hi(b2, i)
    {
      AxisBoundsAgree(pts1, pts2, b1, b2, i);
    }
    SameBoundsSameBox(b1, b2, Dim(pts1));
  }

  /** On every axis the computed box is a proper interval: the lower bound is at
      most the upper bound. */
  lemma BoundsOrdered(c: Coords)
    requires BBoxFromCoordinates(c).Some?
    ensures var b := BBoxFromCoordinates(c).value;
            |b| == 2 * Dim(Points(c).value) &&
            forall i :: 0 <= i < Dim(Points(c).value) ==> Lo(b, i) <= Hi(b, i)
  {
    var b := BBoxFromCoordinates(c).value;
    var pts := Points(c).value;
    forall i | 0 <= i < Dim(pts)
      ensures Lo(b, i) <= Hi(b, i)
    {
      EnclosesAt(b, pts, i, 0);
    }
  }

  /** Two coordinate trees with the same leaf positions, however nested and in
      whatever order, have the same bounding box. */
  lemma {:induction false} SameLeavesSameBBox(c1: Coords, c2: Coords)
    requires Points(c1).Some? && Points(c2).Some?
    requires SamePositions(Points(c1).value, Points(c2).value)
    ensures BBoxFromCoordinates(c1) == BBoxFromCoordinates(c2)
  {
    BBoxUnique(Points(c1).value, Points(c2).value,
               BBoxFromCoordinates(c1).value, BBoxFromCoordinates(c2).value);
  }

  /** The leaves of a concatenation of sibling lists are the leaves of each, in order. */
  lemma {:induction false} PointsOfAppend(a: seq<Coords>, b: seq<Coords>)
    ensures PointsOf(a + b) == Join(PointsOf(a), PointsOf(b))
  {
    if |a| == 0 {
      assert a + b == b;
      if PointsOf(b).Some? {
        assert [] + PointsOf(b).value == PointsOf(b).value;
      }
    } else {
      assert (a + b)[0] == a[0];
      assert (a + b)[1..] == a[1..] + b;
      PointsOfAppend(a[1..], b);
      match Points(a[0])
      case None =>
      case Some(head) =>
        if PointsOf(a[1..]).Some? && PointsOf(b).Some? {
          var t1, t2 := PointsOf(a[1..]).value, PointsOf(b).value;
          assert PointsOf(a[1..] + b) == Some(t1 + t2);
          assert PointsOf(a + b) == Some(head + (t1 + t2));
          assert PointsOf(a) == Some(head + t1);
          assert head + (t1 + t2) == (head + t1) + t2;
        }
    }
  }

  /** Wrapping a coordinate tree in one more array does not change its leaves. */
  lemma {:induction false} WrappingKeepsPoints(c: Coords)
    ensures Points(Array([c])) == Points(c)
  {
    assert [c][1..] == [];
    assert PointsOf([c][1..]) == Some([]);
    if Points(c).Some? {
      assert Points(c).value + [] == Points(c).value;
    }
  }

  /** Splitting a list of siblings into two nested groups does not change the leaves. */
  lemma {:induction false} RegroupingKeepsPoints(cs: seq<Coords>, k: nat)
    requires 0 < k < |cs|
    ensures Points(Array([Array(cs[..k]), Array(cs[k..])])) == Points(Array(cs))
  {
    assert cs == cs[..k] + cs[k..];
    PointsOfAppend(cs[..k], cs[k..]);
    PointsOfAppend([Array(cs[..k])], [Array(cs[k..])]);
    assert [Array(cs[..k]), Array(cs[k..])] == [Array(cs[..k])] + [Array(cs[k..])];
    assert [Array(cs[..k])][1..] == [];
    assert [Array(cs[k..])][1..] == [];
    WrappingKeepsPoints(Array(cs[..k]));
    WrappingKeepsPoints(Array(cs[k..]));
  }

  /** A bare position [x, y] has the bounding box [x, x, y, y]. */
  lemma TwoDimensionalPosition(x: real, y: real)
    ensures BBoxFromCoordinates(Position([x, y])) == Some([x, x, y, y])
  {
    var pts := [[x, y]];
    var b := [x, x, y, y];
    assert Dim(pts) == 2;
    assert Axis(pts[0], 0) == x && Axis(pts[0], 1) == y;
    assert Lo(b, 0) == x && Hi(b, 0) == x && Lo(b, 1) == y && Hi(b, 1) == y;
    assert IsBBoxOf(b, pts);
    BBoxUnique(pts, pts, b, BBoxFromCoordinates(Position([x, y])).value);
  }

  /** A bare position [x, y, z] has the bounding box [x, x, y, y, z, z]. */
  lemma ThreeDimensionalPosition(x: real, y: real, z: real)
    ensures BBoxFromCoordinates(Position([x, y, z])) == Some([x, x, y, y, z, z])
  {
    var pts := [[x, y, z]];
    var b := [x, x, y, y, z, z];
    assert Dim(pts) == 3;
    assert Axis(pts[0], 0) == x && Axis(pts[0], 1) == y && Axis(pts[0], 2) == z;
    assert Lo(b, 0) == x && Hi(b, 0) == x && Lo(b, 1) == y && Hi(b, 1) == y && Lo(b, 2) == z && Hi(b, 2) == z;
    assert IsBBoxOf(b, pts);
    BBoxUnique(pts, pts, b, BBoxFromCoordinates(Position([x, y, z])).value);
  }

  lemma MixedDimensionLeaves()
    ensures Points(Array([Position([1.0, 2.0]), Position([-1.0, -3.0, 33.0])]))
         == Some([[1.0, 2.0], [-1.0, -3.0, 33.0]])
  {
    assert [Position([1.0, 2.0]), Position([-1.0, -3.0, 33.0])][1..] == [Position([-1.0, -3.0, 33.0])];
    assert [Position([-1.0, -3.0, 33.0])][1..] == [];
    assert Points(Position([-1.0, -3.0, 33.0])) == Some([[-1.0, -3.0, 33.0]]);
    assert Points(Position([1.0, 2.0])) == Some([[1.0, 2.0]]);
    assert [[-1.0, -3.0, 33.0]] + [] == [[-1.0, -3.0, 33.0]];
    assert PointsOf([Position([-1.0, -3.0, 33.0])]) == Some([[-1.0, -3.0, 33.0]]);
    assert [[1.0, 2.0]] + [[-1.0, -3.0, 33.0]] == [[1.0, 2.0], [-1.0, -3.0, 33.0]];
  }

  lemma MixedDimensionBox()
    ensures IsBBoxOf([-1.0, 1.0, -3.0, 2.0, 0.0, 33.0], [[1.0, 2.0], [-1.0, -3.0, 33.0]])
  {
    var pts := [[1.0, 2.0], [-1.0, -3.0, 33.0]];
    var b := [-1.0, 1.0, -3.0, 2.0, 0.0, 33.0];
    assert Dim(pts[1..]) == 3;
    assert Dim(pts) == 3;
    assert Axis(pts[0], 0) == 1.0 && Axis(pts[0], 1) == 2.0 && Axis(pts[0], 2) == 0.0;
    assert Axis(pts[1], 0) == -1.0 && Axis(pts[1], 1) == -3.0 && Axis(pts[1], 2) == 33.0;
    assert Lo(b, 0) == -1.0 && Hi(b, 0) == 1.0 && Lo(b, 1) == -3.0 && Hi(b, 1) == 2.0;
    assert Lo(b, 2) == 0.0 && Hi(b, 2) == 33.0;
    assert Encloses(b, pts);
    assert Tight(b, pts);
  }

  /** [[1, 2], [-1, -3, 33]] has the bounding box [-1, 1, -3, 2, 0, 33]: the
      two-dimensional position counts as elevation 0. */
  lemma MixedDimensionLine()
    ensures BBoxFromCoordinates(Array([Position([1.0, 2.0]), Position([-1.0, -3.0, 33.0])]))
         == Some([-1.0, 1.0, -3.0, 2.0, 0.0, 33.0])
  {
    var c := Array([Position([1.0, 2.0]), Position([-1.0, -3.0, 33.0])]);
    var pts := [[1.0, 2.0], [-1.0, -3.0, 33.0]];
    MixedDimensionLeaves();
    MixedDimensionBox();
    BBoxUnique(pts, pts, [-1.0, 1.0, -3.0, 2.0, 0.0, 33.0], BBoxFromCoordinates(c).value);
  }
}
