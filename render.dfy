/**
 * The compositor render_volume of src/volume.c, without the graphics calls.
 *
 * The interleaved list is walked back to front. For entry (s, k) the slice s
 * of volume k is drawn as quad strips: strip i joins buffer row i * stride
 * of the slice to row (i + 1) * stride, sampling every stride-th column,
 * and each strip vertex carries the colour-table entry of its colour index.
 * The model returns what would be sent to the graphics library: one list of
 * strip vertices per strip, one list of strips per drawn entry.
 */
module Compositor {
  import opened Radix
  import opened Quantization
  import opened VolumeSlices

  /** One quad-strip vertex: the packed colour ctable[index[p]] and the vertex at position p. */
  datatype StripPoint = StripPoint(colour: int, x: real, y: real, z: real)

  /** What the compositor looks at in a slot: validity, shape, and buffer length. */
  datatype SlotState = SlotState(valid: bool, slices: int, rows: int, cols: int, length: int)

  /** The slot state of a volume. */
  function StateOf(v: Volume): SlotState
    reads v
  {
    SlotState(v.valid, v.slices, v.rows, v.cols, v.index.Length)
  }

  /** The source's test before drawing an entry: the slot holds some slices. */
  predicate GuardAsWritten(st: SlotState)
  {
    st.slices != 0
  }

  /** The test the model uses: the slot holds slices built this frame. */
  predicate Guard(st: SlotState): (b: bool)
    ensures b ==> GuardAsWritten(st)
    ensures st.valid ==> (b <==> GuardAsWritten(st))
  {
    st.valid && st.slices != 0
  }

  /** A volume that the compositor draws. */
  predicate Drawable(v: Volume?)
    reads v
  {
    v != null && Guard(StateOf(v))
  }

  /** The recorded shape lies inside the buffers. */
  predicate Fits(v: Volume)
    reads v, v.index, v.vertex
  {
    0 < v.slices && 1 <= v.rows && 1 <= v.cols &&
    v.slices * v.rows * v.cols <= v.index.Length && v.vertex.Length == 3 * v.index.Length
  }

  /** The stride: VStride when fast drawing is on, and never below 1. */
  function Stride(fastdraw: bool, vstride: int): (stride: int)
    ensures 1 <= stride
    ensures fastdraw && 1 <= vstride ==> stride == vstride
    ensures !fastdraw ==> stride == 1
    ensures fastdraw && vstride <= 0 ==> stride == 1
  {
    var s := if fastdraw then vstride else 1;
    if s <= 0 then 1 else s
  }

  /** rows1: the number of quad strips of a slice with R buffer rows. */
  function StripCount(R: int, stride: int): int
    requires 1 <= stride
  {
    (R - 1) / stride
  }

  /** cols1: the number of column samples per strip of a slice with C columns. */
  function StripLength(C: int, stride: int): int
    requires 1 <= stride
  {
    (C - 1) / stride + 1
  }

  /** Where slice s starts, as the source computes it: s * (R - 1) * C plus the skipped row s * C. */
  function SliceStart(s: int, R: int, C: int): (start: int)
    ensures start == s * (R * C)
  {
    assert s * (R - 1) * C == s * R * C - s * C;
    s * (R - 1) * C + s * C
  }

  /** The two terms of the slice start add up to slice s of an R x C slice layout. */
  lemma SliceStartIsSliceBase(s: int, R: int, C: int)
    ensures SliceStart(s, R, C) == s * (R * C) && SliceStart(s, R, C) == Compose(s, 0, 0, R, C)
  {
    assert s * (R - 1) * C == s * R * C - s * C;
  }

  /** The lower read of strip i, column sample j: cp0[i * stride * cols + j * stride]. */
  function LowerRead(s: int, R: int, C: int, stride: int, i: int, j: int): int
  {
    SliceStart(s, R, C) + i * stride * C + j * stride
  }

  /** The upper read of strip i, column sample j: cp1, one stride of rows further on. */
  function UpperRead(s: int, R: int, C: int, stride: int, i: int, j: int): int
  {
    LowerRead(s, R, C, stride, i, j) + C * stride
  }

  /** Vertex k of strip i: lower and upper reads alternate, column sample by column sample. */
  function StripRead(s: int, R: int, C: int, stride: int, i: int, k: int): int
  {
    if k % 2 == 0 then LowerRead(s, R, C, stride, i, k / 2) else UpperRead(s, R, C, stride, i, k / 2)
  }

  /**
   * Strip i joins buffer row i * stride to row (i + 1) * stride of slice s,
   * at column j * stride, and both rows and the column lie inside the
   * slice: every read of slice s stays in [s * R * C, (s + 1) * R * C).
   */
  lemma {:induction false} StripReadsInSlice(s: int, R: int, C: int, stride: int, i: int, j: int)
    requires 0 <= s && 1 <= R && 1 <= C && 1 <= stride
    requires 0 <= i < StripCount(R, stride) && 0 <= j < StripLength(C, stride)
    ensures (i + 1) * stride <= R - 1 && j * stride <= C - 1
    ensures LowerRead(s, R, C, stride, i, j) == Compose(s, i * stride, j * stride, R, C)
    ensures UpperRead(s, R, C, stride, i, j) == Compose(s, (i + 1) * stride, j * stride, R, C)
    ensures s * (R * C) <= LowerRead(s, R, C, stride, i, j) < UpperRead(s, R, C, stride, i, j) < (s + 1) * (R * C)
  {
    QuotientBound(R - 1, stride, i + 1);
    QuotientBound(C - 1, stride, j);
    var a, b := i * stride, j * stride;
    var base := s * (R * C);
    assert (i + 1) * stride == a + stride;
    SliceStartIsSliceBase(s, R, C);
    ComposeShift(s, a, b, R, C);
    ComposeShift(s, a + stride, b, R, C);
    assert (a + stride) * C == a * C + C * stride;
    MulMono(0, a, C);
    MulMono(a + stride, R - 1, C);
    assert (R - 1) * C == R * C - C;
    assert (s + 1) * (R * C) == base + R * C;
  }

  /** A count below x / d steps of d stays within x. */
  lemma QuotientBound(x: int, d: int, n: int)
    requires 0 <= x && 1 <= d && 0 <= n <= x / d
    ensures n * d <= x
  {
    MulMono(n, x / d, d);
  }

  /** A composed index is the slice base plus the row and column offsets. */
  lemma ComposeShift(s: int, a: int, b: int, R: int, C: int)
    ensures Compose(s, a, b, R, C) == s * (R * C) + a * C + b
  {
    assert (s * R + a) * C == s * R * C + a * C;
  }

  /**
   * With stride 1 and at least two rows, every position of slice s is
   * drawn: rows 0 .. R - 2 as lower reads and row R - 1 as the upper reads
   * of the last strip.
   */
  lemma {:induction false} UnitStrideCoversSlice(s: int, R: int, C: int, r: int, c: int)
    requires 0 <= s && 2 <= R && 1 <= C && 0 <= r < R && 0 <= c < C
    ensures exists i, k :: (0 <= i < StripCount(R, 1) && 0 <= k < 2 * StripLength(C, 1) &&
                            StripRead(s, R, C, 1, i, k) == Compose(s, r, c, R, C))
  {
    assert StripCount(R, 1) == R - 1 && StripLength(C, 1) == C;
    AlternatingReads(s, R, C, 1, r, c);
    AlternatingReads(s, R, C, 1, R - 2, c);
    if r < R - 1 {
      StripReadsInSlice(s, R, C, 1, r, c);
      assert r * 1 == r && c * 1 == c;
      assert StripRead(s, R, C, 1, r, 2 * c) == Compose(s, r, c, R, C);
    } else {
      StripReadsInSlice(s, R, C, 1, R - 2, c);
      assert (R - 2 + 1) * 1 == r && c * 1 == c;
      assert StripRead(s, R, C, 1, R - 2, 2 * c + 1) == Compose(s, r, c, R, C);
    }
  }

  /** The strip vertex for buffer position p. */
  ghost function PointAt(v: Volume, ctable: seq<int>, p: int): StripPoint
    reads v, v.index, v.vertex
    requires 0 <= p < v.index.Length && 3 * p + 2 < v.vertex.Length && |ctable| == 256
  {
    StripPoint(ctable[v.index[p]], v.vertex[3 * p], v.vertex[3 * p + 1], v.vertex[3 * p + 2])
  }

  /** Strip i of slice s as drawn: lower and upper vertices of every column sample. */
  ghost predicate StripImage(strip: seq<StripPoint>, v: Volume, ctable: seq<int>, s: int, stride: int, i: int)
    reads v, v.index, v.vertex
    requires 1 <= stride && |ctable| == 256
  {
    |strip| == 2 * StripLength(v.cols, stride) && StripPrefix(strip, v, ctable, s, stride, i)
  }

  /** The vertices drawn so far of strip i of slice s: vertex k is the point of StripRead(k). */
  ghost predicate StripPrefix(strip: seq<StripPoint>, v: Volume, ctable: seq<int>, s: int, stride: int, i: int)
    reads v, v.index, v.vertex
    requires |ctable| == 256
  {
    forall k :: 0 <= k < |strip| ==>
      var p := StripRead(s, v.rows, v.cols, stride, i, k);
      0 <= p < v.index.Length && 3 * p + 2 < v.vertex.Length && strip[k] == PointAt(v, ctable, p)
  }

  /** Drawing the lower and upper vertex of column sample j extends the strip by two. */
  lemma ExtendStrip(strip: seq<StripPoint>, v: Volume, ctable: seq<int>, s: int, stride: int, i: int, j: int,
                    lower: StripPoint, upper: StripPoint)
    requires |ctable| == 256 && 0 <= j && |strip| == 2 * j && StripPrefix(strip, v, ctable, s, stride, i)
    requires var p0 := LowerRead(s, v.rows, v.cols, stride, i, j);
      0 <= p0 < v.index.Length && 3 * p0 + 2 < v.vertex.Length && lower == PointAt(v, ctable, p0)
    requires var p1 := UpperRead(s, v.rows, v.cols, stride, i, j);
      0 <= p1 < v.index.Length && 3 * p1 + 2 < v.vertex.Length && upper == PointAt(v, ctable, p1)
    ensures StripPrefix(strip + [lower, upper], v, ctable, s, stride, i)
  {
    AlternatingReads(s, v.rows, v.cols, stride, i, j);
    var t := strip + [lower, upper];
    forall k | 0 <= k < |t|
      ensures var p := StripRead(s, v.rows, v.cols, stride, i, k);
        0 <= p < v.index.Length && 3 * p + 2 < v.vertex.Length && t[k] == PointAt(v, ctable, p)
    {
      if k < |strip| {
        assert t[k] == strip[k];
      }
    }
  }

  /** Slice s as drawn: one strip per pair of sampled rows. */
  ghost predicate SliceImage(strips: seq<seq<StripPoint>>, v: Volume, ctable: seq<int>, s: int, stride: int)
    reads v, v.index, v.vertex
    requires 1 <= stride && |ctable| == 256
  {
    |strips| == StripCount(v.rows, stride) &&
    forall i :: 0 <= i < |strips| ==> StripImage(strips[i], v, ctable, s, stride, i)
  }

  /**
   * The compositor loop over the interleaved list (local[e], owner[e]).
   * It stops at the first entry whose volume is not drawable and reports
   * failure; the entries before it have been drawn.
   */
  method RenderVolumes(vols: seq<Volume?>, ctables: seq<seq<int>>, local: array<int>, owner: array<int>,
                       fastdraw: bool, vstride: int)
    returns (ok: bool, image: seq<seq<seq<StripPoint>>>)
    requires local.Length == owner.Length && |ctables| == |vols|
    requires forall k :: 0 <= k < |ctables| ==> |ctables[k]| == 256
    requires forall e :: 0 <= e < owner.Length ==> 0 <= owner[e] < |vols| && 0 <= local[e]
    requires forall k :: 0 <= k < |vols| && Drawable(vols[k]) ==> Fits(vols[k])
    requires forall e :: 0 <= e < owner.Length && Drawable(vols[owner[e]]) ==> local[e] < vols[owner[e]].slices
    ensures ok <==> forall e :: 0 <= e < owner.Length ==> Drawable(vols[owner[e]])
    ensures |image| <= owner.Length && (ok ==> |image| == owner.Length)
    ensures !ok ==> |image| < owner.Length && !Drawable(vols[owner[|image|]])
    ensures forall e :: 0 <= e < |image| ==>
      Drawable(vols[owner[e]]) &&
      SliceImage(image[e], vols[owner[e]], ctables[owner[e]], local[e], Stride(fastdraw, vstride))
  {
    var stride := Stride(fastdraw, vstride);
    image := [];
    var alls := 0;
    while alls < owner.Length
      invariant 0 <= alls <= owner.Length && |image| == alls
      invariant forall e :: 0 <= e < alls ==> Drawable(vols[owner[e]])
      invariant forall e :: 0 <= e < alls ==>
        SliceImage(image[e], vols[owner[e]], ctables[owner[e]], local[e], stride)
    {
      var s, k := local[alls], owner[alls];
      var v := vols[k];
      if v == null || !Guard(StateOf(v)) {
        return false, image;
      }
      var strips := RenderSlice(v, ctables[k], s, stride);
      image := image + [strips];
      alls := alls + 1;
    }
    ok := true;
  }

  /** Slice s of one volume: the strips 0 .. rows1 - 1. */
  method RenderSlice(v: Volume, ctable: seq<int>, s: int, stride: int) returns (strips: seq<seq<StripPoint>>)
    requires Fits(v) && 0 <= s < v.slices && |ctable| == 256 && 1 <= stride
    ensures SliceImage(strips, v, ctable, s, stride)
  {
    strips := [];
    var i := 0;
    while i < StripCount(v.rows, stride)
      invariant 0 <= i <= StripCount(v.rows, stride) && |strips| == i
      invariant forall i' :: 0 <= i' < i ==> StripImage(strips[i'], v, ctable, s, stride, i')
    {
      var strip := RenderStrip(v, ctable, s, stride, i);
      strips := strips + [strip];
      i := i + 1;
    }
  }

  /** Strip i of slice s: for each column sample, the lower then the upper vertex. */
  method RenderStrip(v: Volume, ctable: seq<int>, s: int, stride: int, i: int) returns (strip: seq<StripPoint>)
    requires Fits(v) && 0 <= s < v.slices && |ctable| == 256 && 1 <= stride
    requires 0 <= i < StripCount(v.rows, stride)
    ensures StripImage(strip, v, ctable, s, stride, i)
  {
    strip := [];
    var j := 0;
    while j < StripLength(v.cols, stride)
      invariant 0 <= j <= StripLength(v.cols, stride) && |strip| == 2 * j
      invariant StripPrefix(strip, v, ctable, s, stride, i)
    {
      var lower, upper := ReadSample(v, ctable, s, stride, i, j);
      ExtendStrip(strip, v, ctable, s, stride, i, j, lower, upper);
      strip := strip + [lower, upper];
      j := j + 1;
    }
  }

  /** Column sample j of strip i of slice s: the vertex on the lower row and the one on the upper row. */
  method ReadSample(v: Volume, ctable: seq<int>, s: int, stride: int, i: int, j: int) returns (lower: StripPoint, upper: StripPoint)
    requires Fits(v) && 0 <= s < v.slices && |ctable| == 256 && 1 <= stride
    requires 0 <= i < StripCount(v.rows, stride) && 0 <= j < StripLength(v.cols, stride)
    ensures var p0 := LowerRead(s, v.rows, v.cols, stride, i, j);
      0 <= p0 < v.index.Length && 3 * p0 + 2 < v.vertex.Length && lower == PointAt(v, ctable, p0)
    ensures var p1 := UpperRead(s, v.rows, v.cols, stride, i, j);
      0 <= p1 < v.index.Length && 3 * p1 + 2 < v.vertex.Length && upper == PointAt(v, ctable, p1)
  {
    var R, C := v.rows, v.cols;
    SliceEndInBuffer(v, s);
    StripReadsInSlice(s, R, C, stride, i, j);
    var p0 := LowerRead(s, R, C, stride, i, j);
    var p1 := p0 + C * stride;
    ghost var base, end := s * (R * C), (s + 1) * (R * C);
    assert 0 <= base by {
      MulMono(0, R, C);
      MulMono(0, s, R * C);
    }
    assert p1 == UpperRead(s, R, C, stride, i, j);
    assert 0 <= base <= p0 < p1 < end <= v.index.Length;
    lower := ReadPoint(v, ctable, p0);
    upper := ReadPoint(v, ctable, p1);
  }

  /** Slice s of a fitting volume ends inside the buffers. */
  lemma SliceEndInBuffer(v: Volume, s: int)
    requires Fits(v) && 0 <= s < v.slices
    ensures (s + 1) * (v.rows * v.cols) <= v.index.Length && v.vertex.Length == 3 * v.index.Length
  {
    MulMono(s + 1, v.slices, v.rows * v.cols);
    assert v.slices * (v.rows * v.cols) == v.slices * v.rows * v.cols;
  }

  /** One strip vertex: colour-table entry and vertex coordinates at buffer position p. */
  method ReadPoint(v: Volume, ctable: seq<int>, p: int) returns (pt: StripPoint)
    requires 0 <= p < v.index.Length && 3 * p + 2 < v.vertex.Length && |ctable| == 256
    ensures pt == PointAt(v, ctable, p)
  {
    pt := StripPoint(ctable[v.index[p]], v.vertex[3 * p], v.vertex[3 * p + 1], v.vertex[3 * p + 2]);
  }

  /** Vertices 2j and 2j + 1 of a strip are the lower and upper reads of column sample j. */
  lemma AlternatingReads(s: int, R: int, C: int, stride: int, i: int, j: int)
    ensures StripRead(s, R, C, stride, i, 2 * j) == LowerRead(s, R, C, stride, i, j)
    ensures StripRead(s, R, C, stride, i, 2 * j + 1) == UpperRead(s, R, C, stride, i, j)
  {
    assert (2 * j) % 2 == 0 && (2 * j) / 2 == j && (2 * j + 1) % 2 == 1 && (2 * j + 1) / 2 == j;
  }

  /**
   * A slot left invalid with the shape of an earlier build passes the
   * source's test and is read past its buffer: built bottom to top for
   * nr = 2, nc = 4, nl = 2 (2 slices of 2 x 4, 16 bytes), its grid then
   * missing in a frame sliced along x, where round 3 of nc = 4 slices asks
   * for slice 3, whose start 24 lies beyond the 16-byte buffer.
   */
  lemma StaleSlotPassesGuard()
    ensures var st := SlotState(false, 2, 2, 4, 16);
      var s := 3;
      GuardAsWritten(st) && !Guard(st) && SliceStart(s, st.rows, st.cols) >= st.length
  {
  }
}
