/**
 * Colour-table quantisation shared by both slice builders of src/volume.c.
 *
 * A grid value is mapped to a byte index into a 256-entry colour table.
 * Index 255 means "no contribution": the sample is missing or lies outside
 * the variable's [min, max] range. In-range values are scaled by
 * (LUT_SIZE - 1) / (max - min) and TRUNCATED (the C code casts to int), so
 * they land in [0, 254].
 */
module Quantization {

  /** A byte of the colour-index buffer (uint_1 in the source). */
  type byte = x: int | 0 <= x < 256

  /** LUT_SIZE in src/volume.c. */
  const LutSize: int := 255

  /** The reserved colour index meaning "draw nothing here". */
  const NoContribution: byte := 255

  /**
   * One grid sample as the grid cache hands it out. The source flags absent
   * data with a sentinel float tested by IS_MISSING; the model keeps that
   * test abstract by tagging the sample.
   */
  datatype Sample = Missing | Value(v: real)

  /** The scaled position of v in [lo, hi], before truncation: (v - lo) * dscale. */
  function Scaled(v: real, lo: real, hi: real): real
    requires lo != hi
  {
    (v - lo) * ((LutSize - 1) as real / (hi - lo))
  }

  /**
   * The colour index of one sample against the range [lo, hi].
   * When lo == hi and v == lo the C code converts NaN (0 * infinity) to int,
   * which is undefined; the model returns 0 there (see README).
   */
  function Quantize(s: Sample, lo: real, hi: real): (r: byte)
    ensures s.Missing? ==> r == NoContribution
    ensures s.Value? && (s.v < lo || s.v > hi) ==> r == NoContribution
  {
    match s
    case Missing => NoContribution
    case Value(v) =>
      if v < lo || v > hi then NoContribution
      else if lo == hi then 0
      else
        ScaledInRange(v, lo, hi);
        Scaled(v, lo, hi).Floor
  }

  /** The scale factor dscale of a proper range is positive and spans 254 over the range. */
  lemma ScaleFactor(lo: real, hi: real)
    requires lo < hi
    ensures (LutSize - 1) as real / (hi - lo) > 0.0
    ensures (hi - lo) * ((LutSize - 1) as real / (hi - lo)) == (LutSize - 1) as real
  {
  }

  /** For lo <= v <= hi the scaled value lies in [0, 254]. */
  lemma ScaledInRange(v: real, lo: real, hi: real)
    requires lo < hi && lo <= v <= hi
    ensures 0.0 <= Scaled(v, lo, hi) <= (LutSize - 1) as real
  {
    var k := (LutSize - 1) as real / (hi - lo);
    ScaleFactor(lo, hi);
    assert 0.0 <= v - lo <= hi - lo;
    assert (v - lo) * k <= (hi - lo) * k;
  }

  /**
   * What an in-range index means: it is the truncation of the scaled value,
   * i.e. r <= (v - lo) * 254 / (hi - lo) < r + 1, and it lies in [0, 254].
   */
  lemma QuantizeInRange(v: real, lo: real, hi: real)
    requires lo < hi && lo <= v <= hi
    ensures 0 <= Quantize(Value(v), lo, hi) <= LutSize - 1
    ensures Quantize(Value(v), lo, hi) as real <= (v - lo) * (LutSize - 1) as real / (hi - lo)
    ensures (v - lo) * (LutSize - 1) as real / (hi - lo) < Quantize(Value(v), lo, hi) as real + 1.0
  {
    ScaledInRange(v, lo, hi);
    assert Scaled(v, lo, hi) == (v - lo) * (LutSize - 1) as real / (hi - lo);
  }

  /**
   * For a proper range, 255 is produced exactly for missing and
   * out-of-range samples: both directions.
   */
  lemma NoContributionIff(s: Sample, lo: real, hi: real)
    requires lo < hi
    ensures Quantize(s, lo, hi) == NoContribution <==> (s.Missing? || s.v < lo || s.v > hi)
  {
    if s.Value? && lo <= s.v <= hi {
      QuantizeInRange(s.v, lo, hi);
    }
  }

  /** The range ends: min maps to 0 and max maps to 254. */
  lemma QuantizeEnds(lo: real, hi: real)
    requires lo < hi
    ensures Quantize(Value(lo), lo, hi) == 0
    ensures Quantize(Value(hi), lo, hi) == LutSize - 1
  {
    var k := (LutSize - 1) as real / (hi - lo);
    ScaleFactor(lo, hi);
    assert Scaled(lo, lo, hi) == 0.0;
    assert Scaled(hi, lo, hi) == (hi - lo) * k;
    assert (hi - lo) * k == (LutSize - 1) as real;
  }

  /** Larger in-range values never get a smaller colour index. */
  lemma QuantizeMonotone(v: real, w: real, lo: real, hi: real)
    requires lo < hi && lo <= v <= w <= hi
    ensures Quantize(Value(v), lo, hi) <= Quantize(Value(w), lo, hi)
  {
    ScaledInRange(v, lo, hi);
    ScaledInRange(w, lo, hi);
    var k := (LutSize - 1) as real / (hi - lo);
    ScaleFactor(lo, hi);
    assert (v - lo) * k <= (w - lo) * k;
    var a, b := Scaled(v, lo, hi), Scaled(w, lo, hi);
    assert a <= b;
    assert Quantize(Value(v), lo, hi) == a.Floor && Quantize(Value(w), lo, hi) == b.Floor;
    assert a.Floor as real <= a && b < b.Floor as real + 1.0;
  }

  /** A mid-range value 50 in [0, 100] gets index 127 (truncation of 127.0). */
  lemma MidRangeIndex()
    ensures Quantize(Value(50.0), 0.0, 100.0) == 127
  {
    assert Scaled(50.0, 0.0, 100.0) == 127.0;
  }
}
