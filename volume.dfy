/**
 * The per-variable volume slot of src/volume.c and the two slice builders
 * compute_volume (direct) and compute_volumePRIME (resampled).
 *
 * A slot owns a vertex buffer (three coordinates per grid point) and a
 * colour-index buffer (one byte per grid point), both sized for the largest
 * grid when the slot is allocated. A builder overwrites the first
 * slices * rows * cols entries of both, in traversal order for the chosen
 * direction, records the slice shape and direction, and marks the slot valid.
 *
 * The six direction cases of each builder run the same triple loop over
 * (slice, row, column) counters; they differ only in the grid cell a slot
 * names (Layout.CellAt), in where the vertex goes, and in how the colour
 * index is found (Sampler). The model writes that loop once.
 */
module VolumeSlices {
  import opened Radix
  import opened Quantization
  import opened Layout
  import opened Resample

  /** The map projections that matter here; every other projection behaves like Flat. */
  datatype Projection = Flat | Cylindrical | Spherical

  /**
   * Where a builder's colour indices come from: the variable's own grid on
   * the direct path, or the native grid of size gnr x gnc x gnl read through
   * the display-to-native map gridPRIME_to_grid on the resampled path.
   */
  datatype Sampler =
    | Direct(data: seq<Sample>, lo: real, hi: real)
    | Resampled(data: seq<Sample>, gnr: int, gnc: int, gnl: int, lo: real, hi: real, toNative: Cell -> GridPoint)

  /** The data buffer has the size the sampler reads it with. */
  predicate SamplerFits(sm: Sampler, nr: int, nc: int, nl: int)
  {
    match sm
    case Direct(data, _, _) => |data| == nr * nc * nl
    case Resampled(data, gnr, gnc, gnl, _, _, _) => |data| == gnr * gnc * gnl
  }

  /** The colour index a builder stores for one display-grid cell. */
  function CellIndex(sm: Sampler, nr: int, nc: int, nl: int, cell: Cell): byte
    requires SamplerFits(sm, nr, nc, nl) && InGrid(cell, nr, nc, nl)
  {
    match sm
    case Direct(data, lo, hi) =>
      GridOffsetRoundTrip(nr, nc, nl, cell);
      Quantize(data[GridOffset(nr, nc, cell)], lo, hi)
    case Resampled(data, gnr, gnc, gnl, lo, hi, toNative) =>
      ResampledIndex(data, gnr, gnc, gnl, lo, hi, toNative(cell))
  }

  /**
   * The colouring of a build as one function of the cell: what CellIndex
   * gives inside the display grid (cells outside it are never coloured).
   */
  function Colouring(sm: Sampler, nr: int, nc: int, nl: int): (colour: Cell -> byte)
    requires SamplerFits(sm, nr, nc, nl)
  {
    (cell: Cell) => if InGrid(cell, nr, nc, nl) then CellIndex(sm, nr, nc, nl, cell) else NoContribution
  }

  /** The colour index a build with the given colouring stores at buffer position p. */
  function IndexAt(colour: Cell -> byte, d: Direction, nr: int, nc: int, nl: int, p: int): byte
    requires 0 < nr && 0 < nc && 0 < nl
  {
    colour(PositionCell(d, nr, nc, nl, p))
  }

  /** The display box Xmin .. Xmax, Ymin .. Ymax of the display context. */
  datatype Frame = Frame(xmin: real, xmax: real, ymin: real, ymax: real)

  /**
   * The vertex inputs of one build: the box, the grid spacings dx and dy,
   * the per-variable shift dfrac and the depth zs[il] of every level.
   */
  datatype Geometry = Geometry(frame: Frame, dx: real, dy: real, dfrac: real, zs: seq<real>)

  /**
   * The spacing of n points across [lo, hi]: (hi - lo) / (n - 1).
   * For a single point the C division is by zero; no vertex of such an axis
   * ever uses the spacing except through the dfrac shift (see README).
   */
  function Spacing(lo: real, hi: real, n: int): (h: real)
    ensures n > 1 ==> lo + (n - 1) as real * h == hi
  {
    if n > 1 then (hi - lo) / (n - 1) as real else 0.0
  }

  /**
   * The shift of variable volvar among numvolvars volumes:
   * volvar * 0.1 / numvolvars, a fraction of one grid step below 0.1.
   */
  function Shift(volvar: int, numvolvars: int): (f: real)
    requires 0 <= volvar < numvolvars
    ensures 0.0 <= f < 0.1
    ensures volvar == 0 ==> f == 0.0
  {
    volvar as real * 0.1 / numvolvars as real
  }

  /** Later variables in the volume list are shifted further. */
  lemma ShiftIncreasing(v1: int, v2: int, numvolvars: int)
    requires 0 <= v1 < v2 < numvolvars
    ensures Shift(v1, numvolvars) < Shift(v2, numvolvars)
  {
    var n := numvolvars as real;
    assert v1 as real * 0.1 < v2 as real * 0.1;
    assert v1 as real * 0.1 / n < v2 as real * 0.1 / n;
  }

  /**
   * The depth of level il for a build in direction d: gridlevel_to_z of the
   * level, pushed up (bottom to top) or down (top to bottom) by dfrac times
   * the local level spacing dz; the spacing below level il, or above it for
   * level 0. The other directions use the level depth unshifted.
   */
  function LevelDepth(levelZ: int -> real, lowlev: int, d: Direction, dfrac: real, il: int): (z: real)
    ensures d != BottomToTop && d != TopToBottom ==> z == levelZ(il + lowlev)
    ensures dfrac == 0.0 ==> z == levelZ(il + lowlev)
  {
    var z := levelZ(il + lowlev);
    var dz := if il != 0 then z - levelZ(il - 1 + lowlev) else levelZ(il + 1 + lowlev) - z;
    match d
    case BottomToTop => z + dz * dfrac
    case TopToBottom => z - dz * dfrac
    case _ => z
  }

  /** The zs table of a build with nl levels. */
  method LevelDepths(levelZ: int -> real, lowlev: int, d: Direction, dfrac: real, nl: int) returns (zs: seq<real>)
    requires 0 <= nl
    ensures |zs| == nl
    ensures forall il :: 0 <= il < nl ==> zs[il] == LevelDepth(levelZ, lowlev, d, dfrac, il)
  {
    zs := [];
    var il := 0;
    if d == BottomToTop {
      while il < nl
        invariant 0 <= il <= nl && |zs| == il
        invariant forall k :: 0 <= k < il ==> zs[k] == LevelDepth(levelZ, lowlev, d, dfrac, k)
      {
        var dz;
        if il != 0 {
          dz := levelZ(il + lowlev) - levelZ(il - 1 + lowlev);
        } else {
          dz := levelZ(il + 1 + lowlev) - levelZ(il + lowlev);
        }
        var z := levelZ(il + lowlev) + dz * dfrac;
        assert z == LevelDepth(levelZ, lowlev, d, dfrac, il);
        zs := zs + [z];
        il := il + 1;
      }
    } else if d == TopToBottom {
      while il < nl
        invariant 0 <= il <= nl && |zs| == il
        invariant forall k :: 0 <= k < il ==> zs[k] == LevelDepth(levelZ, lowlev, d, dfrac, k)
      {
        var dz;
        if il != 0 {
          dz := levelZ(il + lowlev) - levelZ(il - 1 + lowlev);
        } else {
          dz := levelZ(il + 1 + lowlev) - levelZ(il + lowlev);
        }
        var z := levelZ(il + lowlev) - dz * dfrac;
        assert z == LevelDepth(levelZ, lowlev, d, dfrac, il);
        zs := zs + [z];
        il := il + 1;
      }
    } else {
      while il < nl
        invariant 0 <= il <= nl && |zs| == il
        invariant forall k :: 0 <= k < il ==> zs[k] == LevelDepth(levelZ, lowlev, d, dfrac, k)
      {
        assert levelZ(il + lowlev) == LevelDepth(levelZ, lowlev, d, dfrac, il);
        zs := zs + [levelZ(il + lowlev)];
        il := il + 1;
      }
    }
  }

  /**
   * With evenly spaced levels (step h > 0) and bottom-to-top slicing, the
   * slices of variable volvar sit volvar * 0.1 / numvolvars of a step above
   * their level: later variables strictly higher, all strictly below the
   * next level. Top to bottom mirrors this downwards.
   */
  lemma ShiftedDepthsInterleave(levelZ: int -> real, z0: real, h: real, lowlev: int, il: int, v1: int, v2: int, numvolvars: int)
    requires forall k :: levelZ(k) == z0 + k as real * h
    requires 0.0 < h && 0 <= v1 < v2 < numvolvars
    ensures var a := LevelDepth(levelZ, lowlev, BottomToTop, Shift(v1, numvolvars), il);
            var b := LevelDepth(levelZ, lowlev, BottomToTop, Shift(v2, numvolvars), il);
            levelZ(il + lowlev) <= a < b < levelZ(il + lowlev + 1)
    ensures var a := LevelDepth(levelZ, lowlev, TopToBottom, Shift(v1, numvolvars), il);
            var b := LevelDepth(levelZ, lowlev, TopToBottom, Shift(v2, numvolvars), il);
            levelZ(il + lowlev - 1) < b < a <= levelZ(il + lowlev)
  {
    var f1, f2 := Shift(v1, numvolvars), Shift(v2, numvolvars);
    ShiftIncreasing(v1, v2, numvolvars);
    var z := levelZ(il + lowlev);
    assert levelZ(il - 1 + lowlev) == z - h;
    assert levelZ(il + 1 + lowlev) == z + h;
    assert levelZ(il + lowlev + 1) == z + h;
    assert levelZ(il + lowlev - 1) == z - h;
    assert h * f1 < h * f2 < h;
  }

  /**
   * The vertex a builder stores for grid cell (il, ir, ic). The source
   * accumulates x += dx and y -= dy across the loops; these are the closed
   * forms of those accumulations. Side-on slicing moves the slice plane by
   * dfrac of a step: x for west/east, y for north/south.
   */
  function VertexOf(geo: Geometry, d: Direction, nr: int, nc: int, cell: Cell): (real, real, real)
    requires 0 <= cell.level < |geo.zs|
  {
    var f := geo.frame;
    var x := match d
      case WestToEast => f.xmin + geo.dx * geo.dfrac + cell.col as real * geo.dx
      case EastToWest => f.xmax - geo.dx * geo.dfrac - (nc - 1 - cell.col) as real * geo.dx
      case _ => f.xmin + cell.col as real * geo.dx;
    var y := match d
      case NorthToSouth => f.ymax - geo.dy * geo.dfrac - cell.row as real * geo.dy
      case SouthToNorth => f.ymin + geo.dy * geo.dfrac + (nr - 1 - cell.row) as real * geo.dy
      case WestToEast => f.ymin + (nr - 1 - cell.row) as real * geo.dy
      case EastToWest => f.ymin + (nr - 1 - cell.row) as real * geo.dy
      case _ => f.ymax - cell.row as real * geo.dy;
    (x, y, geo.zs[cell.level])
  }

  /** The vertex of every display cell, for one build. */
  function Placement(geo: Geometry, d: Direction, nr: int, nc: int): Cell -> (real, real, real)
  {
    (cell: Cell) => if 0 <= cell.level < |geo.zs| then VertexOf(geo, d, nr, nc, cell) else (0.0, 0.0, 0.0)
  }

  /** Component k % 3 (x, y or z) of the vertex stored at position k / 3. */
  function VertexComponent(place: Cell -> (real, real, real), d: Direction, nr: int, nc: int, nl: int, k: int): real
    requires 0 < nr && 0 < nc && 0 < nl
  {
    Coord(place(PositionCell(d, nr, nc, nl, k / 3)), k % 3)
  }

  /** Component m of a vertex: x for 0, y for 1, z otherwise. */
  function Coord(v: (real, real, real), m: int): real
  {
    if m == 0 then v.0 else if m == 1 then v.1 else v.2
  }

  /** The three slots of vertex j are 3j, 3j + 1 and 3j + 2. */
  lemma VertexSlots(j: int)
    requires 0 <= j
    ensures (3 * j) / 3 == j && (3 * j) % 3 == 0
    ensures (3 * j + 1) / 3 == j && (3 * j + 1) % 3 == 1
    ensures (3 * j + 2) / 3 == j && (3 * j + 2) % 3 == 2
  {
    DivModUnique(3 * j, 3, j, 0);
    DivModUnique(3 * j + 1, 3, j, 1);
    DivModUnique(3 * j + 2, 3, j, 2);
  }

  /**
   * One volume slot (struct volume). The buffers are sized once, for the
   * largest grid, and reused by every build.
   */
  class Volume {
    const vertex: array<real>
    const index: array<byte>
    var slices: int
    var rows: int
    var cols: int
    var dir: Direction
    var valid: bool
    const oldnr: int
    const oldnc: int
    const oldnl: int

    /** The buffers have the sizes recorded at allocation. */
    ghost predicate Valid()
    {
      index.Length == oldnl * oldnr * oldnc && vertex.Length == 3 * index.Length
    }

    /**
     * The first n buffer positions hold what the triple loop stores there,
     * with the slot-level colouring and placement (s, r, c) -> value and a
     * slice of R rows of C columns: position p belongs to slot
     * (p / (R * C), (p / C) % R, p % C) and vertex slot k to position k / 3.
     */
    ghost predicate Stored(colour: (int, int, int) -> byte, place: (int, int, int) -> (real, real, real),
                           R: int, C: int, n: int)
      reads this, index, vertex
    {
      0 < R && 0 < C && 0 <= n <= index.Length && vertex.Length == 3 * index.Length &&
      (forall p :: 0 <= p < n ==> index[p] == colour(p / (R * C), (p / C) % R, p % C)) &&
      (forall k :: 0 <= k < 3 * n ==>
         vertex[k] == Coord(place((k / 3) / (R * C), ((k / 3) / C) % R, (k / 3) % C), k % 3))
    }

    /**
     * A finished build for direction d: validity, direction, slice shape,
     * and for every position p below nr * nc * nl the colour index and the
     * vertex of the grid cell PositionCell(d, nr, nc, nl, p).
     */
    ghost predicate Built(colour: Cell -> byte, d: Direction, nr: int, nc: int, nl: int, place: Cell -> (real, real, real))
      reads this, index, vertex
    {
      valid && dir == d && Shape(slices, rows, cols) == SliceShape(d, nr, nc, nl) &&
      0 < nr && 0 < nc && 0 < nl &&
      nr * nc * nl <= index.Length && vertex.Length == 3 * index.Length &&
      (forall p :: 0 <= p < nr * nc * nl ==> index[p] == IndexAt(colour, d, nr, nc, nl, p)) &&
      (forall k :: 0 <= k < 3 * (nr * nc * nl) ==> vertex[k] == VertexComponent(place, d, nr, nc, nl, k))
    }

    /** The allocation step of alloc_volume: buffers for nl * nr * nc points, not yet valid. */
    constructor (nr: int, nc: int, nl: int)
      requires 0 <= nr && 0 <= nc && 0 <= nl
      ensures Valid() && !valid
      ensures oldnr == nr && oldnc == nc && oldnl == nl
      ensures index.Length == nl * nr * nc && vertex.Length == 3 * (nl * nr * nc)
      ensures fresh(index) && fresh(vertex)
    {
      valid := false;
      vertex := new real[nl * nr * nc * 3];
      index := new byte[nl * nr * nc];
      oldnr, oldnc, oldnl := nr, nc, nl;
    }

    /**
     * The shared triple loop of both builders: for every slice, row and
     * column counter, in that nesting, store the vertex and colour index of
     * the cell the direction names, advancing j by one and i by three.
     * Only the first nr * nc * nl entries are written; the volume then
     * records the direction and shape and becomes valid.
     */
    method Fill(colour: Cell -> byte, d: Direction, nr: int, nc: int, nl: int, place: Cell -> (real, real, real))
      requires Valid() && 0 < nr && 0 < nc && 0 < nl && nr * nc * nl <= index.Length
      modifies this, index, vertex
      ensures Built(colour, d, nr, nc, nl, place)
      ensures forall p :: nr * nc * nl <= p < index.Length ==> index[p] == old(index[p])
      ensures forall k :: 3 * (nr * nc * nl) <= k < vertex.Length ==> vertex[k] == old(vertex[k])
    {
      var sh := SliceShape(d, nr, nc, nl);
      SizeIsGridSize(d, nr, nc, nl);
      var slotColour := (s: int, r: int, c: int) => colour(CellAt(d, nr, nc, nl, s, r, c));
      var slotPlace := (s: int, r: int, c: int) => place(CellAt(d, nr, nc, nl, s, r, c));
      FillSlices(slotColour, slotPlace, sh.slices, sh.rows, sh.cols);
      dir := d;
      slices, rows, cols := sh.slices, sh.rows, sh.cols;
      valid := true;
    }

    /** The slice loop: slice s occupies positions s * R * C up to (s + 1) * R * C. */
    method FillSlices(colour: (int, int, int) -> byte, place: (int, int, int) -> (real, real, real), S: int, R: int, C: int)
      requires 0 < S && 0 < R && 0 < C && S * R * C <= index.Length && vertex.Length == 3 * index.Length
      modifies index, vertex
      ensures Stored(colour, place, R, C, S * R * C)
      ensures forall p :: S * R * C <= p < index.Length ==> index[p] == old(index[p])
      ensures forall k :: 3 * (S * R * C) <= k < vertex.Length ==> vertex[k] == old(vertex[k])
    {
      var j := 0;
      var s := 0;
      while s < S
        invariant 0 <= s <= S && j == Compose(s, 0, 0, R, C)
        invariant Stored(colour, place, R, C, j)
        invariant forall p :: j <= p < index.Length ==> index[p] == old(index[p])
        invariant forall k :: 3 * j <= k < vertex.Length ==> vertex[k] == old(vertex[k])
      {
        FillSlice(colour, place, S, R, C, s, j);
        SliceCarry(s, R, C);
        j := Compose(s + 1, 0, 0, R, C);
        s := s + 1;
      }
    }

    /** The row loop of slice s, starting at position j0 = s * R * C. */
    method FillSlice(colour: (int, int, int) -> byte, place: (int, int, int) -> (real, real, real),
                     S: int, R: int, C: int, s: int, j0: int)
      requires 0 <= s < S && 0 < R && 0 < C && S * R * C <= index.Length
      requires j0 == Compose(s, 0, 0, R, C) && Stored(colour, place, R, C, j0)
      modifies index, vertex
      ensures Stored(colour, place, R, C, Compose(s + 1, 0, 0, R, C))
      ensures forall p :: Compose(s + 1, 0, 0, R, C) <= p < index.Length ==> index[p] == old(index[p])
      ensures forall k :: 3 * Compose(s + 1, 0, 0, R, C) <= k < vertex.Length ==> vertex[k] == old(vertex[k])
    {
      var j := j0;
      var r := 0;
      while r < R
        invariant 0 <= r <= R && j == Compose(s, r, 0, R, C)
        invariant Stored(colour, place, R, C, j)
        invariant forall p :: j <= p < index.Length ==> index[p] == old(index[p])
        invariant forall k :: 3 * j <= k < vertex.Length ==> vertex[k] == old(vertex[k])
      {
        FillRow(colour, place, S, R, C, s, r, j);
        RowCarry(s, r, R, C);
        j := j + C;
        r := r + 1;
      }
      SliceCarry(s, R, C);
    }

    /** The column loop of row r of slice s, starting at position j0 = (s * R + r) * C. */
    method FillRow(colour: (int, int, int) -> byte, place: (int, int, int) -> (real, real, real),
                   S: int, R: int, C: int, s: int, r: int, j0: int)
      requires 0 <= s < S && 0 <= r < R && 0 < C && S * R * C <= index.Length
      requires j0 == Compose(s, r, 0, R, C) && Stored(colour, place, R, C, j0)
      modifies index, vertex
      ensures Stored(colour, place, R, C, j0 + C)
      ensures forall p :: j0 + C <= p < index.Length ==> index[p] == old(index[p])
      ensures forall k :: 3 * (j0 + C) <= k < vertex.Length ==> vertex[k] == old(vertex[k])
    {
      var i, j := 3 * j0, j0;
      var c := 0;
      while c < C
        invariant 0 <= c <= C && j == j0 + c && i == 3 * j
        invariant Stored(colour, place, R, C, j)
        invariant forall p :: j <= p < index.Length ==> index[p] == old(index[p])
        invariant forall k :: 3 * j <= k < vertex.Length ==> vertex[k] == old(vertex[k])
      {
        ComposeBounds(s, r, c, S, R, C);
        Store(colour, place, R, C, s, r, c, j);
        i, j := i + 3, j + 1;
        c := c + 1;
      }
    }

    /** The loop body: the vertex (at i = 3 * j) and the colour index (at j) of slot (s, r, c). */
    method Store(colour: (int, int, int) -> byte, place: (int, int, int) -> (real, real, real),
                 R: int, C: int, s: int, r: int, c: int, j: int)
      requires 0 <= s && 0 <= r < R && 0 <= c < C
      requires j == Compose(s, r, c, R, C) && j < index.Length && Stored(colour, place, R, C, j)
      modifies index, vertex
      ensures Stored(colour, place, R, C, j + 1)
      ensures forall p :: j + 1 <= p < index.Length ==> index[p] == old(index[p])
      ensures forall k :: 3 * (j + 1) <= k < vertex.Length ==> vertex[k] == old(vertex[k])
    {
      ComposeDecompose(s, r, c, R, C);
      VertexSlots(j);
      var v := place(s, r, c);
      vertex[3 * j], vertex[3 * j + 1], vertex[3 * j + 2] := v.0, v.1, v.2;
      index[j] := colour(s, r, c);
    }

    /**
     * compute_volume: slice the variable's own grid (nr x nc x nl, levels
     * from lowlev) in direction d, as volume volvar of numvolvars.
     */
    method ComputeVolume(data: seq<Sample>, volvar: int, numvolvars: int, nr: int, nc: int, nl: int,
                         lowlev: int, levelZ: int -> real, lo: real, hi: real, d: Direction, frame: Frame)
      requires Valid() && 0 < nr && 0 < nc && 0 < nl && nr * nc * nl <= index.Length
      requires |data| == nr * nc * nl && 0 <= volvar < numvolvars
      modifies this, index, vertex
      ensures Built(Colouring(Direct(data, lo, hi), nr, nc, nl), d, nr, nc, nl,
                    Placement(BuildGeometry(frame, volvar, numvolvars, nr, nc, nl, lowlev, levelZ, d), d, nr, nc))
      ensures forall p :: nr * nc * nl <= p < index.Length ==> index[p] == old(index[p])
      ensures forall k :: 3 * (nr * nc * nl) <= k < vertex.Length ==> vertex[k] == old(vertex[k])
      ensures forall o :: 0 <= o < nr * nc * nl ==>
        0 <= PositionOf(d, nr, nc, nl, o) < index.Length && index[PositionOf(d, nr, nc, nl, o)] == Quantize(data[o], lo, hi)
    {
      var dfrac := Shift(volvar, numvolvars);
      var zs := LevelDepths(levelZ, lowlev, d, dfrac, nl);
      assert zs == Depths(levelZ, lowlev, d, dfrac, nl);
      var dx := Spacing(frame.xmin, frame.xmax, nc);
      var dy := Spacing(frame.ymin, frame.ymax, nr);
      var geo := Geometry(frame, dx, dy, dfrac, zs);
      assert geo == BuildGeometry(frame, volvar, numvolvars, nr, nc, nl, lowlev, levelZ, d);
      Fill(Colouring(Direct(data, lo, hi), nr, nc, nl), d, nr, nc, nl, Placement(geo, d, nr, nc));
      forall o | 0 <= o < nr * nc * nl
        ensures 0 <= PositionOf(d, nr, nc, nl, o) < index.Length
        ensures index[PositionOf(d, nr, nc, nl, o)] == Quantize(data[o], lo, hi)
      {
        DirectIndexOfOffset(data, lo, hi, d, nr, nc, nl, o);
      }
    }

    /**
     * compute_volumePRIME: slice the display grid (nr x nc x nl) in direction
     * d, colouring each cell from the native grid gnr x gnc x gnl through the
     * display-to-native map.
     */
    method ComputeVolumePrime(data: seq<Sample>, gnr: int, gnc: int, gnl: int, toNative: Cell -> GridPoint,
                              volvar: int, numvolvars: int, nr: int, nc: int, nl: int,
                              lowlev: int, levelZ: int -> real, lo: real, hi: real, d: Direction, frame: Frame)
      requires Valid() && 0 < nr && 0 < nc && 0 < nl && nr * nc * nl <= index.Length
      requires |data| == gnr * gnc * gnl && 0 <= volvar < numvolvars
      modifies this, index, vertex
      ensures Built(Colouring(Resampled(data, gnr, gnc, gnl, lo, hi, toNative), nr, nc, nl), d, nr, nc, nl,
                    Placement(BuildGeometry(frame, volvar, numvolvars, nr, nc, nl, lowlev, levelZ, d), d, nr, nc))
      ensures forall p :: nr * nc * nl <= p < index.Length ==> index[p] == old(index[p])
      ensures forall k :: 3 * (nr * nc * nl) <= k < vertex.Length ==> vertex[k] == old(vertex[k])
    {
      var dfrac := Shift(volvar, numvolvars);
      var zs := LevelDepths(levelZ, lowlev, d, dfrac, nl);
      assert zs == Depths(levelZ, lowlev, d, dfrac, nl);
      var dx := Spacing(frame.xmin, frame.xmax, nc);
      var dy := Spacing(frame.ymin, frame.ymax, nr);
      var geo := Geometry(frame, dx, dy, dfrac, zs);
      assert geo == BuildGeometry(frame, volvar, numvolvars, nr, nc, nl, lowlev, levelZ, d);
      var colour := Colouring(Resampled(data, gnr, gnc, gnl, lo, hi, toNative), nr, nc, nl);
      Fill(colour, d, nr, nc, nl, Placement(geo, d, nr, nc));
    }
  }

  /**
   * The vertex inputs of a build of volume volvar of numvolvars: spacings
   * across the display box, the shift, and the shifted level depths.
   */
  function BuildGeometry(frame: Frame, volvar: int, numvolvars: int, nr: int, nc: int, nl: int,
                         lowlev: int, levelZ: int -> real, d: Direction): (geo: Geometry)
    requires 0 <= volvar < numvolvars && 0 <= nl
    ensures |geo.zs| == nl
  {
    var dfrac := Shift(volvar, numvolvars);
    Geometry(frame, Spacing(frame.xmin, frame.xmax, nc), Spacing(frame.ymin, frame.ymax, nr), dfrac,
             Depths(levelZ, lowlev, d, dfrac, nl))
  }

  /** The zs table as a value. */
  function Depths(levelZ: int -> real, lowlev: int, d: Direction, dfrac: real, nl: int): (zs: seq<real>)
    requires 0 <= nl
    ensures |zs| == nl && forall il :: 0 <= il < nl ==> zs[il] == LevelDepth(levelZ, lowlev, d, dfrac, il)
  {
    seq(nl, il requires 0 <= il < nl => LevelDepth(levelZ, lowlev, d, dfrac, il))
  }

  /**
   * On the direct path every grid value is stored exactly once: the byte at
   * the buffer position where grid offset o lands is the quantisation of data[o].
   */
  lemma DirectIndexOfOffset(data: seq<Sample>, lo: real, hi: real, d: Direction, nr: int, nc: int, nl: int, o: int)
    requires 0 < nr && 0 < nc && 0 < nl && |data| == nr * nc * nl && 0 <= o < nr * nc * nl
    ensures 0 <= PositionOf(d, nr, nc, nl, o) < nr * nc * nl
    ensures IndexAt(Colouring(Direct(data, lo, hi), nr, nc, nl), d, nr, nc, nl, PositionOf(d, nr, nc, nl, o))
         == Quantize(data[o], lo, hi)
  {
    TraversalRightInverse(d, nr, nc, nl, o);
    PositionCellInGrid(d, nr, nc, nl, PositionOf(d, nr, nc, nl, o));
  }

  /**
   * For a proper range, a direct build stores 255 at position p exactly
   * when the grid value it reads there is missing or outside [lo, hi].
   */
  lemma DirectNoContributionIff(data: seq<Sample>, lo: real, hi: real, d: Direction, nr: int, nc: int, nl: int, p: int)
    requires 0 < nr && 0 < nc && 0 < nl && |data| == nr * nc * nl && 0 <= p < nr * nc * nl && lo < hi
    ensures 0 <= SourceOffset(d, nr, nc, nl, p) < |data|
    ensures var s := data[SourceOffset(d, nr, nc, nl, p)];
      (IndexAt(Colouring(Direct(data, lo, hi), nr, nc, nl), d, nr, nc, nl, p) == NoContribution) ==
      (s.Missing? || s.v < lo || s.v > hi)
  {
    TraversalLeftInverse(d, nr, nc, nl, p);
    PositionCellInGrid(d, nr, nc, nl, p);
    NoContributionIff(data[SourceOffset(d, nr, nc, nl, p)], lo, hi);
  }

  /**
   * Resampling through the identity map colours a cell exactly as the
   * direct path does, when the native grid is the display grid.
   */
  lemma IdentityResamplingIsDirect(data: seq<Sample>, nr: int, nc: int, nl: int, lo: real, hi: real,
                                   toNative: Cell -> GridPoint, cell: Cell)
    requires |data| == nr * nc * nl && InGrid(cell, nr, nc, nl)
    requires toNative(cell) == GridPoint(cell.row as real, cell.col as real, cell.level as real)
    ensures Colouring(Resampled(data, nr, nc, nl, lo, hi, toNative), nr, nc, nl)(cell)
         == Colouring(Direct(data, lo, hi), nr, nc, nl)(cell)
  {
    LatticePointIsDirect(data, nr, nc, nl, lo, hi, cell.row, cell.col, cell.level);
    GridOffsetIsCompose(nr, nc, cell);
  }

  /**
   * The vertex of a cell differs from the plain lattice point
   * (xmin + ic * dx, ymax - ir * dy) only along the axis the direction
   * slices on, by dfrac of a grid step in the direction of travel.
   */
  lemma LatticeVertex(geo: Geometry, d: Direction, nr: int, nc: int, cell: Cell)
    requires 2 <= nr && 2 <= nc && 0 <= cell.level < |geo.zs|
    requires geo.dx == Spacing(geo.frame.xmin, geo.frame.xmax, nc) && geo.dy == Spacing(geo.frame.ymin, geo.frame.ymax, nr)
    ensures var f, x0, y0 := geo.dfrac, geo.frame.xmin + cell.col as real * geo.dx, geo.frame.ymax - cell.row as real * geo.dy;
      var v := VertexOf(geo, d, nr, nc, cell);
      && v.2 == geo.zs[cell.level]
      && (d == WestToEast ==> v.0 == x0 + geo.dx * f && v.1 == y0)
      && (d == EastToWest ==> v.0 == x0 - geo.dx * f && v.1 == y0)
      && (d == NorthToSouth ==> v.0 == x0 && v.1 == y0 - geo.dy * f)
      && (d == SouthToNorth ==> v.0 == x0 && v.1 == y0 + geo.dy * f)
      && (d.BottomToTop? || d.TopToBottom? ==> v.0 == x0 && v.1 == y0)
  {
    var f := geo.frame;
    match d
    case EastToWest =>
      FarEdge(f.xmin, f.xmax, nc, nc - 1 - cell.col);
      FarEdge(f.ymin, f.ymax, nr, cell.row);
    case WestToEast =>
      FarEdge(f.ymin, f.ymax, nr, cell.row);
    case SouthToNorth =>
      FarEdge(f.ymin, f.ymax, nr, cell.row);
    case _ =>
  }

  /**
   * For a build of volume volvar: side-on directions keep every level at
   * its own depth, and the first volume (dfrac = 0) puts a cell at the same
   * point whatever the direction.
   */
  lemma VertexShiftAlongAxis(frame: Frame, volvar: int, numvolvars: int, nr: int, nc: int, nl: int,
                             lowlev: int, levelZ: int -> real, d: Direction, cell: Cell)
    requires 0 <= volvar < numvolvars && 2 <= nr && 2 <= nc && InGrid(cell, nr, nc, nl)
    ensures var geo := BuildGeometry(frame, volvar, numvolvars, nr, nc, nl, lowlev, levelZ, d);
      var v := VertexOf(geo, d, nr, nc, cell);
      && (!d.BottomToTop? && !d.TopToBottom? ==> v.2 == levelZ(cell.level + lowlev))
      && (volvar == 0 ==> v.0 == frame.xmin + cell.col as real * geo.dx)
      && (volvar == 0 ==> v.1 == frame.ymax - cell.row as real * geo.dy)
      && (volvar == 0 ==> v.2 == levelZ(cell.level + lowlev))
  {
    var geo := BuildGeometry(frame, volvar, numvolvars, nr, nc, nl, lowlev, levelZ, d);
    assert geo.zs[cell.level] == LevelDepth(levelZ, lowlev, d, Shift(volvar, numvolvars), cell.level);
    LatticeVertex(geo, d, nr, nc, cell);
    if volvar == 0 {
      assert geo.dfrac == 0.0;
      assert geo.dx * geo.dfrac == 0.0 && geo.dy * geo.dfrac == 0.0;
      assert LevelDepth(levelZ, lowlev, d, 0.0, cell.level) == levelZ(cell.level + lowlev);
    }
  }

  /** Counting k steps back from the far end of a spaced axis lands on step n - 1 - k from the near end. */
  lemma FarEdge(lo: real, hi: real, n: int, k: int)
    requires 1 < n
    ensures lo + (n - 1 - k) as real * Spacing(lo, hi, n) == hi - k as real * Spacing(lo, hi, n)
  {
    var h := Spacing(lo, hi, n);
    assert (n - 1 - k) as real * h == (n - 1) as real * h - k as real * h;
  }
}
