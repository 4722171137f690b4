/**
 * The resampled colour lookup of compute_volumePRIME (src/volume.c).
 *
 * A display-grid cell is mapped by the external gridPRIME_to_grid to
 * fractional native-grid coordinates. Outside the native grid the cell gets
 * no contribution. Inside, each coordinate is split into a lower lattice
 * index and a fraction; the upper neighbour is the next index, except at the
 * last index or when the fraction is zero, where it falls back to the lower
 * one. The eight lattice samples are blended trilinearly (rows, then
 * columns, then levels); one missing sample makes the cell missing; the
 * blend goes through the same quantisation as the direct path.
 */
module Resample {
  import opened Radix
  import opened Quantization

  /** Fractional native-grid coordinates (grow, gcol, glev). */
  datatype GridPoint = GridPoint(row: real, col: real, lev: real)

  /** The native-grid bounds test of the source: not (g < 0 or g >= N) on each axis. */
  predicate Inside(g: GridPoint, nr: int, nc: int, nl: int)
  {
    !(g.row < 0.0 || g.col < 0.0 || g.lev < 0.0 ||
      g.row >= nr as real || g.col >= nc as real || g.lev >= nl as real)
  }

  /** The lower and upper lattice neighbour along one axis and the fraction between them. */
  datatype Bracket = Bracket(lower: int, upper: int, frac: real)

  /**
   * The neighbours of coordinate x on an axis of n points: lower is (int) x,
   * upper is lower + 1 except at the last index or when the fraction is 0.
   */
  function Neighbours(x: real, n: int): (b: Bracket)
    requires 0.0 <= x < n as real
    ensures 0 <= b.lower < n && 0 <= b.upper < n
    ensures b.lower as real <= x < b.lower as real + 1.0
    ensures 0.0 <= b.frac < 1.0 && b.lower as real + b.frac == x
    ensures b.upper == b.lower + 1 || b.upper == b.lower
    ensures b.upper == b.lower <==> (b.lower == n - 1 || b.frac == 0.0)
  {
    var lower := x.Floor;
    var upper := if lower == n - 1 then lower else lower + 1;
    var frac := x - lower as real;
    Bracket(lower, if frac == 0.0 then lower else upper, frac)
  }

  /** The offset of native lattice point (level l, column c, row r): (l * Nc + c) * Nr + r. */
  function NativeOffset(nr: int, nc: int, l: int, c: int, r: int): int
  {
    Compose(l, c, r, nc, nr)
  }

  /** The eight lattice corners read for one cell, in the order s1 .. s8 of the source. */
  function CornerOffsets(nr: int, nc: int, br: Bracket, bc: Bracket, bl: Bracket): seq<int>
  {
    [ NativeOffset(nr, nc, bl.lower, bc.lower, br.lower),
      NativeOffset(nr, nc, bl.lower, bc.lower, br.upper),
      NativeOffset(nr, nc, bl.lower, bc.upper, br.lower),
      NativeOffset(nr, nc, bl.lower, bc.upper, br.upper),
      NativeOffset(nr, nc, bl.upper, bc.lower, br.lower),
      NativeOffset(nr, nc, bl.upper, bc.lower, br.upper),
      NativeOffset(nr, nc, bl.upper, bc.upper, br.lower),
      NativeOffset(nr, nc, bl.upper, bc.upper, br.upper) ]
  }

  /** The corners of an inside point, as the source computes them. */
  function Corners(g: GridPoint, nr: int, nc: int, nl: int): seq<int>
    requires Inside(g, nr, nc, nl)
  {
    CornerOffsets(nr, nc, Neighbours(g.row, nr), Neighbours(g.col, nc), Neighbours(g.lev, nl))
  }

  /** All eight reads of an inside point stay in the native grid [0, Nr * Nc * Nl). */
  lemma CornersInGrid(g: GridPoint, nr: int, nc: int, nl: int)
    requires Inside(g, nr, nc, nl)
    ensures |Corners(g, nr, nc, nl)| == 8
    ensures forall k :: 0 <= k < 8 ==> 0 <= Corners(g, nr, nc, nl)[k] < nr * nc * nl
  {
    var br, bc, bl := Neighbours(g.row, nr), Neighbours(g.col, nc), Neighbours(g.lev, nl);
    assert nl * nc * nr == nr * nc * nl;
    ComposeBounds(bl.lower, bc.lower, br.lower, nl, nc, nr);
    ComposeBounds(bl.lower, bc.lower, br.upper, nl, nc, nr);
    ComposeBounds(bl.lower, bc.upper, br.lower, nl, nc, nr);
    ComposeBounds(bl.lower, bc.upper, br.upper, nl, nc, nr);
    ComposeBounds(bl.upper, bc.lower, br.lower, nl, nc, nr);
    ComposeBounds(bl.upper, bc.lower, br.upper, nl, nc, nr);
    ComposeBounds(bl.upper, bc.upper, br.lower, nl, nc, nr);
    ComposeBounds(bl.upper, bc.upper, br.upper, nl, nc, nr);
  }

  /** The source's trilinear blend of s1 .. s8 with row, column and level fractions. */
  function Trilinear(s: seq<real>, fr: real, fc: real, fl: real): real
    requires |s| == 8
  {
    (s[0] * (1.0 - fr) * (1.0 - fc)
     + s[1] * fr * (1.0 - fc)
     + s[2] * (1.0 - fr) * fc
     + s[3] * fr * fc) * (1.0 - fl)
    + (s[4] * (1.0 - fr) * (1.0 - fc)
       + s[5] * fr * (1.0 - fc)
       + s[6] * (1.0 - fr) * fc
       + s[7] * fr * fc) * fl
  }

  /** Linear interpolation a + (b - a) * t, written as the source weights it. */
  function Lerp(a: real, b: real, t: real): real
  {
    a * (1.0 - t) + b * t
  }

  lemma NonNegativeProduct(x: real, y: real)
    requires 0.0 <= x && 0.0 <= y
    ensures 0.0 <= x * y
  {
  }

  /** A weight in [0, 1] keeps the interpolant between any bounds of its two ends. */
  lemma LerpWithin(a: real, b: real, t: real, lo: real, hi: real)
    requires lo <= a <= hi && lo <= b <= hi && 0.0 <= t <= 1.0
    ensures lo <= Lerp(a, b, t) <= hi
  {
    NonNegativeProduct(a - lo, 1.0 - t);
    NonNegativeProduct(b - lo, t);
    NonNegativeProduct(hi - a, 1.0 - t);
    NonNegativeProduct(hi - b, t);
    assert Lerp(a, b, t) - lo == (a - lo) * (1.0 - t) + (b - lo) * t;
    assert hi - Lerp(a, b, t) == (hi - a) * (1.0 - t) + (hi - b) * t;
  }

  /** The source's expanded formula is interpolation along rows, then columns, then levels. */
  lemma TrilinearIsNestedLerp(s: seq<real>, fr: real, fc: real, fl: real)
    requires |s| == 8
    ensures Trilinear(s, fr, fc, fl) ==
      Lerp(Lerp(Lerp(s[0], s[1], fr), Lerp(s[2], s[3], fr), fc),
           Lerp(Lerp(s[4], s[5], fr), Lerp(s[6], s[7], fr), fc), fl)
  {
    var bottom := s[0] * (1.0 - fr) * (1.0 - fc) + s[1] * fr * (1.0 - fc) + s[2] * (1.0 - fr) * fc + s[3] * fr * fc;
    var top := s[4] * (1.0 - fr) * (1.0 - fc) + s[5] * fr * (1.0 - fc) + s[6] * (1.0 - fr) * fc + s[7] * fr * fc;
    assert bottom == Lerp(Lerp(s[0], s[1], fr), Lerp(s[2], s[3], fr), fc);
    assert top == Lerp(Lerp(s[4], s[5], fr), Lerp(s[6], s[7], fr), fc);
  }

  /**
   * The blend is a convex combination: if every corner lies in [lo, hi], so
   * does the blended value.
   */
  lemma TrilinearWithin(s: seq<real>, fr: real, fc: real, fl: real, lo: real, hi: real)
    requires |s| == 8 && forall k :: 0 <= k < 8 ==> lo <= s[k] <= hi
    requires 0.0 <= fr <= 1.0 && 0.0 <= fc <= 1.0 && 0.0 <= fl <= 1.0
    ensures lo <= Trilinear(s, fr, fc, fl) <= hi
  {
    TrilinearIsNestedLerp(s, fr, fc, fl);
    LerpWithin(s[0], s[1], fr, lo, hi);
    LerpWithin(s[2], s[3], fr, lo, hi);
    LerpWithin(s[4], s[5], fr, lo, hi);
    LerpWithin(s[6], s[7], fr, lo, hi);
    LerpWithin(Lerp(s[0], s[1], fr), Lerp(s[2], s[3], fr), fc, lo, hi);
    LerpWithin(Lerp(s[4], s[5], fr), Lerp(s[6], s[7], fr), fc, lo, hi);
    LerpWithin(Lerp(Lerp(s[0], s[1], fr), Lerp(s[2], s[3], fr), fc),
               Lerp(Lerp(s[4], s[5], fr), Lerp(s[6], s[7], fr), fc), fl, lo, hi);
  }

  /** The samples at the given offsets, in order. */
  function Gather(data: seq<Sample>, offsets: seq<int>): (s: seq<Sample>)
    requires forall k :: 0 <= k < |offsets| ==> 0 <= offsets[k] < |data|
    ensures |s| == |offsets| && forall k :: 0 <= k < |offsets| ==> s[k] == data[offsets[k]]
  {
    seq(|offsets|, k requires 0 <= k < |offsets| => data[offsets[k]])
  }

  /** The eight samples read for an inside point. */
  function CornerSamples(data: seq<Sample>, g: GridPoint, nr: int, nc: int, nl: int): (s: seq<Sample>)
    requires |data| == nr * nc * nl && Inside(g, nr, nc, nl)
    ensures |s| == 8
  {
    CornersInGrid(g, nr, nc, nl);
    Gather(data, Corners(g, nr, nc, nl))
  }

  predicate AnyMissing(s: seq<Sample>)
  {
    exists k :: 0 <= k < |s| && s[k].Missing?
  }

  /** The values of samples none of which is missing. */
  function Values(s: seq<Sample>): (vs: seq<real>)
    requires !AnyMissing(s)
    ensures |vs| == |s| && forall k :: 0 <= k < |s| ==> s[k] == Value(vs[k])
  {
    seq(|s|, k requires 0 <= k < |s| => s[k].v)
  }

  /**
   * The colour index of one display cell on the resampled path, given the
   * native-grid point gridPRIME_to_grid maps it to.
   */
  function ResampledIndex(data: seq<Sample>, nr: int, nc: int, nl: int, lo: real, hi: real, g: GridPoint): (r: byte)
    requires |data| == nr * nc * nl
    ensures !Inside(g, nr, nc, nl) ==> r == NoContribution
  {
    if !Inside(g, nr, nc, nl) then NoContribution
    else
      var s := CornerSamples(data, g, nr, nc, nl);
      if AnyMissing(s) then NoContribution
      else
        var br, bc, bl := Neighbours(g.row, nr), Neighbours(g.col, nc), Neighbours(g.lev, nl);
        Quantize(Value(Trilinear(Values(s), br.frac, bc.frac, bl.frac)), lo, hi)
  }

  /** A point outside the native grid contributes nothing and reads no data. */
  lemma OutsideIsNoContribution(data: seq<Sample>, nr: int, nc: int, nl: int, lo: real, hi: real, g: GridPoint)
    requires |data| == nr * nc * nl && !Inside(g, nr, nc, nl)
    ensures ResampledIndex(data, nr, nc, nl, lo, hi, g) == NoContribution
  {
  }

  /** One unit past the last native row is outside: no contribution. */
  lemma PastLastRowIsNoContribution(data: seq<Sample>, nr: int, nc: int, nl: int, lo: real, hi: real, col: real, lev: real)
    requires |data| == nr * nc * nl
    ensures ResampledIndex(data, nr, nc, nl, lo, hi, GridPoint(nr as real, col, lev)) == NoContribution
  {
  }

  /** A missing corner makes the whole cell missing. */
  lemma MissingCornerIsNoContribution(data: seq<Sample>, nr: int, nc: int, nl: int, lo: real, hi: real, g: GridPoint, k: int)
    requires |data| == nr * nc * nl && Inside(g, nr, nc, nl)
    requires 0 <= k < 8 && CornerSamples(data, g, nr, nc, nl)[k].Missing?
    ensures ResampledIndex(data, nr, nc, nl, lo, hi, g) == NoContribution
  {
    var s := CornerSamples(data, g, nr, nc, nl);
    assert s[k].Missing?;
  }

  /**
   * When all eight corners are present and inside [lo, hi], the blended value
   * is too, so the cell gets a real colour index in [0, 254].
   */
  lemma PresentCornersGiveColour(data: seq<Sample>, nr: int, nc: int, nl: int, lo: real, hi: real, g: GridPoint)
    requires |data| == nr * nc * nl && Inside(g, nr, nc, nl) && lo < hi
    requires forall k :: 0 <= k < 8 ==>
      CornerSamples(data, g, nr, nc, nl)[k].Value? && lo <= CornerSamples(data, g, nr, nc, nl)[k].v <= hi
    ensures ResampledIndex(data, nr, nc, nl, lo, hi, g) <= LutSize - 1
  {
    var s := CornerSamples(data, g, nr, nc, nl);
    assert !AnyMissing(s);
    var vs := Values(s);
    var br, bc, bl := Neighbours(g.row, nr), Neighbours(g.col, nc), Neighbours(g.lev, nl);
    TrilinearWithin(vs, br.frac, bc.frac, bl.frac, lo, hi);
    QuantizeInRange(Trilinear(vs, br.frac, bc.frac, bl.frac), lo, hi);
  }

  /**
   * At an exact lattice point every fraction is zero, every upper neighbour
   * falls back to the lower one, and the resampled index is the direct
   * quantisation of that lattice sample.
   */
  lemma LatticePointIsDirect(data: seq<Sample>, nr: int, nc: int, nl: int, lo: real, hi: real, r: int, c: int, l: int)
    requires |data| == nr * nc * nl && 0 <= r < nr && 0 <= c < nc && 0 <= l < nl
    ensures 0 <= NativeOffset(nr, nc, l, c, r) < |data|
    ensures ResampledIndex(data, nr, nc, nl, lo, hi, GridPoint(r as real, c as real, l as real))
         == Quantize(data[NativeOffset(nr, nc, l, c, r)], lo, hi)
  {
    var g := GridPoint(r as real, c as real, l as real);
    ComposeBounds(l, c, r, nl, nc, nr);
    assert nl * nc * nr == nr * nc * nl;
    var br, bc, bl := Neighbours(g.row, nr), Neighbours(g.col, nc), Neighbours(g.lev, nl);
    assert br == Bracket(r, r, 0.0) && bc == Bracket(c, c, 0.0) && bl == Bracket(l, l, 0.0);
    var o := NativeOffset(nr, nc, l, c, r);
    var s := CornerSamples(data, g, nr, nc, nl);
    assert forall k :: 0 <= k < 8 ==> s[k] == data[o];
    if !AnyMissing(s) {
      var vs := Values(s);
      assert Trilinear(vs, 0.0, 0.0, 0.0) == vs[0];
    } else {
      var k :| 0 <= k < 8 && s[k].Missing?;
      assert data[o].Missing?;
    }
  }
}
