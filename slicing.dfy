/**
 * Slicing-direction choice of draw_volume (src/volume.c).
 *
 * The view direction is read off the third column of the product of the
 * modelview matrix ctm and the projection matrix proj. Slices are cut
 * across the axis whose component is largest in magnitude (ties go to x,
 * then y), and the sign of that component picks the direction of travel so
 * that slices are composited back to front. Each volume variable then gets
 * a slice count, and the largest of them sizes the interleaved slice list.
 */
module Slicing {
  import opened Layout

  /** A 4 x 4 matrix, indexed as the source's MATRIX array (m[i][j] is the source's m[i][j]). */
  predicate IsMatrix(m: seq<seq<real>>)
  {
    |m| == 4 && forall i :: 0 <= i < 4 ==> |m[i]| == 4
  }

  /** Entry (i, 2) of ctm * proj: row i of ctm against column 2 of proj. */
  function ProductEntry(ctm: seq<seq<real>>, proj: seq<seq<real>>, i: int): real
    requires IsMatrix(ctm) && IsMatrix(proj) && 0 <= i < 4
  {
    ctm[i][0] * proj[0][2] + ctm[i][1] * proj[1][2] + ctm[i][2] * proj[2][2] + ctm[i][3] * proj[3][2]
  }

  /** The view vector (x, y, z): the first three entries of the third column of ctm * proj. */
  datatype View = View(x: real, y: real, z: real)

  function ThirdColumn(ctm: seq<seq<real>>, proj: seq<seq<real>>): (v: View)
    requires IsMatrix(ctm) && IsMatrix(proj)
  {
    View(ProductEntry(ctm, proj, 0), ProductEntry(ctm, proj, 1), ProductEntry(ctm, proj, 2))
  }

  /** Scaling the projection by k scales the view vector by k. */
  lemma ThirdColumnLinear(ctm: seq<seq<real>>, proj: seq<seq<real>>, scaled: seq<seq<real>>, k: real)
    requires IsMatrix(ctm) && IsMatrix(proj) && IsMatrix(scaled)
    requires forall i, j :: 0 <= i < 4 && 0 <= j < 4 ==> scaled[i][j] == k * proj[i][j]
    ensures ThirdColumn(ctm, scaled) == Scale(ThirdColumn(ctm, proj), k)
  {
    assert scaled[0][2] == k * proj[0][2] && scaled[1][2] == k * proj[1][2];
    assert scaled[2][2] == k * proj[2][2] && scaled[3][2] == k * proj[3][2];
    EntryLinear(ctm, proj, scaled, k, 0);
    EntryLinear(ctm, proj, scaled, k, 1);
    EntryLinear(ctm, proj, scaled, k, 2);
  }

  lemma EntryLinear(ctm: seq<seq<real>>, proj: seq<seq<real>>, scaled: seq<seq<real>>, k: real, i: int)
    requires IsMatrix(ctm) && IsMatrix(proj) && IsMatrix(scaled) && 0 <= i < 4
    requires scaled[0][2] == k * proj[0][2] && scaled[1][2] == k * proj[1][2]
    requires scaled[2][2] == k * proj[2][2] && scaled[3][2] == k * proj[3][2]
    ensures ProductEntry(ctm, scaled, i) == k * ProductEntry(ctm, proj, i)
  {
  }

  function Scale(v: View, k: real): View
  {
    View(k * v.x, k * v.y, k * v.z)
  }

  function Abs(a: real): real
  {
    if a < 0.0 then -a else a
  }

  /** The three axes in the order the source tests them. */
  datatype Axis = XAxis | YAxis | ZAxis

  /** The view component along an axis. */
  function Component(v: View, a: Axis): real
  {
    match a
    case XAxis => v.x
    case YAxis => v.y
    case ZAxis => v.z
  }

  /** The position of an axis in the test order, for tie-breaking. */
  function Rank(a: Axis): int
  {
    match a
    case XAxis => 0
    case YAxis => 1
    case ZAxis => 2
  }

  /**
   * The axis slices are cut across: x if |x| >= |y| and |x| >= |z|, else y if
   * |y| >= |x| and |y| >= |z|, else z. The result is the first axis, in the
   * order x, y, z, whose component has the largest magnitude.
   */
  function SliceAxis(v: View): (a: Axis)
    ensures forall b :: Abs(Component(v, b)) <= Abs(Component(v, a))
    ensures forall b :: Abs(Component(v, b)) == Abs(Component(v, a)) ==> Rank(a) <= Rank(b)
  {
    var ax, ay, az := Abs(v.x), Abs(v.y), Abs(v.z);
    if ax >= ay && ax >= az then XAxis
    else if ay >= ax && ay >= az then YAxis
    else ZAxis
  }

  /**
   * The slicing direction: along x, west to east when x < 0 and east to west
   * otherwise; along y, south to north when y < 0; along z, bottom to top
   * when z < 0.
   */
  function SliceDirection(v: View): (d: Direction)
    ensures AxisOf(d) == SliceAxis(v)
  {
    match SliceAxis(v)
    case XAxis => if v.x < 0.0 then WestToEast else EastToWest
    case YAxis => if v.y < 0.0 then SouthToNorth else NorthToSouth
    case ZAxis => if v.z < 0.0 then BottomToTop else TopToBottom
  }

  /** The axis a direction slices along. */
  function AxisOf(d: Direction): Axis
  {
    match d
    case WestToEast => XAxis
    case EastToWest => XAxis
    case SouthToNorth => YAxis
    case NorthToSouth => YAxis
    case BottomToTop => ZAxis
    case TopToBottom => ZAxis
  }

  /** The direction that travels the same axis the other way. */
  function Opposite(d: Direction): Direction
  {
    match d
    case WestToEast => EastToWest
    case EastToWest => WestToEast
    case SouthToNorth => NorthToSouth
    case NorthToSouth => SouthToNorth
    case BottomToTop => TopToBottom
    case TopToBottom => BottomToTop
  }

  /** Direction and axis agree, and the direction's polarity is the sign of the chosen component. */
  lemma DirectionPolarity(v: View)
    ensures AxisOf(SliceDirection(v)) == SliceAxis(v)
    ensures var c := Component(v, SliceAxis(v));
      SliceDirection(v) in {WestToEast, SouthToNorth, BottomToTop} <==> c < 0.0
  {
  }

  /** Looking from the other side (the view vector negated) reverses the direction of travel. */
  lemma {:induction false} ReversedViewReversesDirection(v: View)
    requires Component(v, SliceAxis(v)) != 0.0
    ensures SliceDirection(Scale(v, -1.0)) == Opposite(SliceDirection(v))
  {
    var w := Scale(v, -1.0);
    assert Abs(w.x) == Abs(v.x) && Abs(w.y) == Abs(v.y) && Abs(w.z) == Abs(v.z);
  }

  /** A projection with every entry negated looks from the other side: the direction reverses. */
  lemma NegatedProjectionReversesDirection(ctm: seq<seq<real>>, proj: seq<seq<real>>, negated: seq<seq<real>>)
    requires IsMatrix(ctm) && IsMatrix(proj) && IsMatrix(negated)
    requires forall i, j :: 0 <= i < 4 && 0 <= j < 4 ==> negated[i][j] == -proj[i][j]
    requires var v := ThirdColumn(ctm, proj); Component(v, SliceAxis(v)) != 0.0
    ensures SliceDirection(ThirdColumn(ctm, negated)) == Opposite(SliceDirection(ThirdColumn(ctm, proj)))
  {
    ThirdColumnLinear(ctm, proj, negated, -1.0);
    ReversedViewReversesDirection(ThirdColumn(ctm, proj));
  }

  /** A positive factor ka = k * a keeps the sign and scales the magnitude of a. */
  lemma PositiveScaleKeepsSign(a: real, ka: real, k: real)
    requires 0.0 < k && ka == k * a
    ensures Abs(ka) == k * Abs(a)
    ensures ka < 0.0 <==> a < 0.0
  {
    if a < 0.0 {
      assert k * a < 0.0;
    } else {
      assert 0.0 <= k * a;
    }
  }

  lemma MulNonNegative(k: real, d: real)
    requires 0.0 < k && 0.0 <= d
    ensures 0.0 <= k * d
  {
  }

  /** A positive factor keeps the magnitude order of two components. */
  lemma PositiveScaleKeepsOrder(a: real, b: real, ka: real, kb: real, k: real)
    requires 0.0 < k && ka == k * a && kb == k * b
    ensures Abs(ka) >= Abs(kb) <==> Abs(a) >= Abs(b)
  {
    PositiveScaleKeepsSign(a, ka, k);
    PositiveScaleKeepsSign(b, kb, k);
    var x, y := Abs(a), Abs(b);
    if x >= y {
      MulNonNegative(k, x - y);
    } else {
      MulNonNegative(k, y - x);
      assert k * (y - x) != 0.0;
    }
  }

  /** Two view vectors whose components compare alike in magnitude are cut across the same axis. */
  lemma SameOrderSameAxis(v: View, w: View)
    requires (Abs(w.x) >= Abs(w.y)) == (Abs(v.x) >= Abs(v.y)) && (Abs(w.x) >= Abs(w.z)) == (Abs(v.x) >= Abs(v.z))
    requires (Abs(w.y) >= Abs(w.x)) == (Abs(v.y) >= Abs(v.x)) && (Abs(w.y) >= Abs(w.z)) == (Abs(v.y) >= Abs(v.z))
    ensures SliceAxis(w) == SliceAxis(v)
  {
  }

  /** The magnitude of x against y and z in a positive multiple of a view vector compares as in the original. */
  lemma ScaledXComparesAlike(v: View, w: View, k: real)
    requires 0.0 < k && w == Scale(v, k)
    ensures (Abs(w.x) >= Abs(w.y)) == (Abs(v.x) >= Abs(v.y)) && (Abs(w.x) >= Abs(w.z)) == (Abs(v.x) >= Abs(v.z))
  {
    PositiveScaleKeepsOrder(v.x, v.y, w.x, w.y, k);
    PositiveScaleKeepsOrder(v.x, v.z, w.x, w.z, k);
  }

  /** The magnitude of y against x and z in a positive multiple of a view vector compares as in the original. */
  lemma ScaledYComparesAlike(v: View, w: View, k: real)
    requires 0.0 < k && w == Scale(v, k)
    ensures (Abs(w.y) >= Abs(w.x)) == (Abs(v.y) >= Abs(v.x)) && (Abs(w.y) >= Abs(w.z)) == (Abs(v.y) >= Abs(v.z))
  {
    PositiveScaleKeepsOrder(v.y, v.x, w.y, w.x, k);
    PositiveScaleKeepsOrder(v.y, v.z, w.y, w.z, k);
  }

  /** The components of a positive multiple of a view vector have the original's signs. */
  lemma ScaledSignsAlike(v: View, w: View, k: real)
    requires 0.0 < k && w == Scale(v, k)
    ensures (w.x < 0.0) == (v.x < 0.0) && (w.y < 0.0) == (v.y < 0.0) && (w.z < 0.0) == (v.z < 0.0)
  {
    PositiveScaleKeepsSign(v.x, w.x, k);
    PositiveScaleKeepsSign(v.y, w.y, k);
    PositiveScaleKeepsSign(v.z, w.z, k);
  }

  /** Two view vectors cut across the same axis, with components of the same signs, slice the same way. */
  lemma SameSignsSameDirection(v: View, w: View)
    requires SliceAxis(w) == SliceAxis(v)
    requires (w.x < 0.0) == (v.x < 0.0) && (w.y < 0.0) == (v.y < 0.0) && (w.z < 0.0) == (v.z < 0.0)
    ensures SliceDirection(w) == SliceDirection(v)
  {
  }

  /** Scaling the view vector by a positive factor leaves the slicing direction as it was. */
  lemma {:induction false} ScalingKeepsDirection(v: View, k: real)
    requires 0.0 < k
    ensures SliceDirection(Scale(v, k)) == SliceDirection(v)
  {
    var w := Scale(v, k);
    ScaledXComparesAlike(v, w, k);
    ScaledYComparesAlike(v, w, k);
    SameOrderSameAxis(v, w);
    ScaledSignsAlike(v, w, k);
    SameSignsSameDirection(v, w);
  }

  /** A projection scaled by a positive factor slices the same way: only the view direction matters. */
  lemma ScaledProjectionKeepsDirection(ctm: seq<seq<real>>, proj: seq<seq<real>>, scaled: seq<seq<real>>, k: real)
    requires IsMatrix(ctm) && IsMatrix(proj) && IsMatrix(scaled) && 0.0 < k
    requires forall i, j :: 0 <= i < 4 && 0 <= j < 4 ==> scaled[i][j] == k * proj[i][j]
    ensures SliceDirection(ThirdColumn(ctm, scaled)) == SliceDirection(ThirdColumn(ctm, proj))
  {
    ThirdColumnLinear(ctm, proj, scaled, k);
    ScalingKeepsDirection(ThirdColumn(ctm, proj), k);
  }

  /**
   * The per-variable slice count along the chosen axis: the grid columns nc
   * for x, the rows nr for y, and for z the variable's own level count when
   * the display grid is the variables' grid, otherwise the display levels nl.
   */
  function SliceCount(a: Axis, nr: int, nc: int, nl: int, sameGrid: bool, varLevels: int): int
  {
    match a
    case XAxis => nc
    case YAxis => nr
    case ZAxis => if sameGrid then varLevels else nl
  }

  /** The largest of zero and the counts (largestslice). */
  function MaxCount(counts: seq<int>): (m: int)
    ensures 0 <= m && forall k :: 0 <= k < |counts| ==> counts[k] <= m
    ensures m == 0 || exists k :: 0 <= k < |counts| && counts[k] == m
  {
    if |counts| == 0 then 0
    else
      var rest := MaxCount(counts[..|counts| - 1]);
      var last := counts[|counts| - 1];
      assert forall k :: 0 <= k < |counts| - 1 ==> counts[k] == counts[..|counts| - 1][k];
      if last > rest then last else rest
  }

  /**
   * The slice counts of the volume variables (numslicepervar) and
   * largestslice, as the direction branch of draw_volume sets them.
   * varLevels[k] is Nl of volume variable k.
   */
  method SliceCounts(a: Axis, nr: int, nc: int, nl: int, sameGrid: bool, varLevels: seq<int>)
    returns (counts: seq<int>, largest: int)
    ensures |counts| == |varLevels|
    ensures forall k :: 0 <= k < |counts| ==> counts[k] == SliceCount(a, nr, nc, nl, sameGrid, varLevels[k])
    ensures a == ZAxis && sameGrid ==> largest == MaxCount(counts)
    ensures !(a == ZAxis && sameGrid) ==> largest == SliceCount(a, nr, nc, nl, sameGrid, 0)
  {
    counts := [];
    if a == ZAxis && sameGrid {
      largest := 0;
      while |counts| < |varLevels|
        invariant |counts| <= |varLevels|
        invariant forall k :: 0 <= k < |counts| ==> counts[k] == varLevels[k]
        invariant largest == MaxCount(counts)
      {
        var n := varLevels[|counts|];
        assert (counts + [n])[..|counts|] == counts;
        counts := counts + [n];
        if n > largest {
          largest := n;
        }
      }
    } else {
      largest := SliceCount(a, nr, nc, nl, sameGrid, 0);
      while |counts| < |varLevels|
        invariant |counts| <= |varLevels|
        invariant forall k :: 0 <= k < |counts| ==> counts[k] == largest
      {
        counts := counts + [largest];
      }
    }
  }

  /**
   * A variable's slice count is the number of slices its build in the
   * chosen direction records: the count and the slice shape agree.
   */
  lemma CountIsShapeSlices(d: Direction, nr: int, nc: int, nl: int, sameGrid: bool, varLevels: int)
    ensures SliceCount(AxisOf(d), nr, nc, nl, sameGrid, varLevels)
         == SliceShape(d, nr, nc, if sameGrid then varLevels else nl).slices
  {
  }

  /**
   * The direction branch of draw_volume: the view vector from the two
   * matrices, the slicing direction, the per-variable counts and
   * largestslice.
   */
  method ChooseSlicing(ctm: seq<seq<real>>, proj: seq<seq<real>>, nr: int, nc: int, nl: int,
                       sameGrid: bool, varLevels: seq<int>)
    returns (d: Direction, counts: seq<int>, largest: int)
    requires IsMatrix(ctm) && IsMatrix(proj)
    ensures d == SliceDirection(ThirdColumn(ctm, proj))
    ensures |counts| == |varLevels|
    ensures forall k :: 0 <= k < |counts| ==> counts[k] == SliceCount(AxisOf(d), nr, nc, nl, sameGrid, varLevels[k])
    ensures forall k :: 0 <= k < |counts| ==> counts[k] <= largest
    ensures AxisOf(d) == ZAxis && sameGrid ==> largest == MaxCount(counts)
    ensures !(AxisOf(d) == ZAxis && sameGrid) ==> largest == SliceCount(AxisOf(d), nr, nc, nl, sameGrid, 0)
  {
    var v := ThirdColumn(ctm, proj);
    d := SliceDirection(v);
    DirectionPolarity(v);
    counts, largest := SliceCounts(SliceAxis(v), nr, nc, nl, sameGrid, varLevels);
  }
}
