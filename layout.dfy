/**
 * Slice directions and the traversal of the grid that the slice builders of
 * src/volume.c perform.
 *
 * The grid is stored level-major, then column, then row:
 * data[level * nr * nc + col * nr + row]. A built volume is a stack of
 * `slices` slices of `rows` x `cols` vertices, stored slice by slice, row by
 * row. For each of the six directions, CellAt says which grid cell sits at
 * slice s, row r, column c; the lemmas show that this traversal visits every
 * grid cell exactly once and in the order the direction names.
 */
module Layout {
  import opened Radix

  /** The six slicing directions; Code gives the source's #define values. */
  datatype Direction =
    | BottomToTop
    | TopToBottom
    | EastToWest
    | WestToEast
    | NorthToSouth
    | SouthToNorth

  function Code(d: Direction): (k: int)
    ensures 0 <= k < 6
  {
    match d
    case BottomToTop => 0
    case TopToBottom => 1
    case EastToWest => 2
    case WestToEast => 3
    case NorthToSouth => 4
    case SouthToNorth => 5
  }

  /** The direction a #define value stands for, if any. */
  function FromCode(k: int): (d: Direction)
    requires 0 <= k < 6
    ensures Code(d) == k
  {
    if k == 0 then BottomToTop
    else if k == 1 then TopToBottom
    else if k == 2 then EastToWest
    else if k == 3 then WestToEast
    else if k == 4 then NorthToSouth
    else SouthToNorth
  }

  /** The number of slices, rows per slice and columns per slice of a built volume. */
  datatype Shape = Shape(slices: int, rows: int, cols: int)

  /** A grid cell: level, row and column indices of the grid. */
  datatype Cell = Cell(level: int, row: int, col: int)

  predicate InGrid(cell: Cell, nr: int, nc: int, nl: int)
  {
    0 <= cell.level < nl && 0 <= cell.row < nr && 0 <= cell.col < nc
  }

  /** The shape the builders record in v->slices, v->rows and v->cols. */
  function SliceShape(d: Direction, nr: int, nc: int, nl: int): Shape
  {
    match d
    case BottomToTop => Shape(nl, nr, nc)
    case TopToBottom => Shape(nl, nr, nc)
    case WestToEast => Shape(nc, nl, nr)
    case EastToWest => Shape(nc, nl, nr)
    case NorthToSouth => Shape(nr, nl, nc)
    case SouthToNorth => Shape(nr, nl, nc)
  }

  /** The slice shape only rearranges the grid's extents: slices, rows and columns are nr, nc and nl in some order. */
  lemma SliceShapeRearrangesExtents(d: Direction, nr: int, nc: int, nl: int)
    ensures var sh := SliceShape(d, nr, nc, nl);
      multiset{sh.slices, sh.rows, sh.cols} == multiset{nr, nc, nl}
  {
  }

  /** The number of vertices (and colour indices) a built volume holds. */
  function Size(sh: Shape): int
  {
    sh.slices * sh.rows * sh.cols
  }

  /**
   * The grid cell at slice s, row r, column c of the traversal for d: the
   * loop counters of the six nested loops of compute_volume, read off by
   * position. Levels inside a vertical slice, and rows inside a west/east
   * slice, run from the top index down.
   */
  function CellAt(d: Direction, nr: int, nc: int, nl: int, s: int, r: int, c: int): (cell: Cell)
    ensures SlotOf(d, nr, nc, nl, cell) == (s, r, c)
  {
    match d
    case BottomToTop => Cell(s, r, c)
    case TopToBottom => Cell(nl - 1 - s, r, c)
    case WestToEast => Cell(nl - 1 - r, nr - 1 - c, s)
    case EastToWest => Cell(nl - 1 - r, nr - 1 - c, nc - 1 - s)
    case NorthToSouth => Cell(nl - 1 - r, s, c)
    case SouthToNorth => Cell(nl - 1 - r, nr - 1 - s, c)
  }

  /** Where a grid cell sits in the traversal for d: the inverse of CellAt. */
  function SlotOf(d: Direction, nr: int, nc: int, nl: int, cell: Cell): (int, int, int)
  {
    match d
    case BottomToTop => (cell.level, cell.row, cell.col)
    case TopToBottom => (nl - 1 - cell.level, cell.row, cell.col)
    case WestToEast => (cell.col, nl - 1 - cell.level, nr - 1 - cell.row)
    case EastToWest => (nc - 1 - cell.col, nl - 1 - cell.level, nr - 1 - cell.row)
    case NorthToSouth => (cell.row, nl - 1 - cell.level, cell.col)
    case SouthToNorth => (nr - 1 - cell.row, nl - 1 - cell.level, cell.col)
  }

  /** The offset of a grid cell in the grid array: il * nr * nc + ic * nr + ir. */
  function GridOffset(nr: int, nc: int, cell: Cell): int
  {
    cell.level * nr * nc + cell.col * nr + cell.row
  }

  /** The grid cell stored at offset o of the grid array. */
  function GridCell(nr: int, nc: int, o: int): Cell
    requires 0 < nr && 0 < nc
  {
    Cell(o / (nc * nr), o % nr, (o / nr) % nc)
  }

  /** The buffer position of slice s, row r, column c: ((s * rows) + r) * cols + c. */
  function Position(sh: Shape, s: int, r: int, c: int): int
  {
    Compose(s, r, c, sh.rows, sh.cols)
  }

  /** The grid cell whose colour index the builders store at buffer position p. */
  function PositionCell(d: Direction, nr: int, nc: int, nl: int, p: int): Cell
    requires 0 < nr && 0 < nc && 0 < nl
  {
    var sh := SliceShape(d, nr, nc, nl);
    CellAt(d, nr, nc, nl, p / (sh.rows * sh.cols), (p / sh.cols) % sh.rows, p % sh.cols)
  }

  /** The grid-array offset read for buffer position p. */
  function SourceOffset(d: Direction, nr: int, nc: int, nl: int, p: int): int
    requires 0 < nr && 0 < nc && 0 < nl
  {
    GridOffset(nr, nc, PositionCell(d, nr, nc, nl, p))
  }

  /** The buffer position where the grid value at offset o ends up. */
  function PositionOf(d: Direction, nr: int, nc: int, nl: int, o: int): int
    requires 0 < nr && 0 < nc && 0 < nl
  {
    var slot := SlotOf(d, nr, nc, nl, GridCell(nr, nc, o));
    Position(SliceShape(d, nr, nc, nl), slot.0, slot.1, slot.2)
  }

  /** Every direction's volume holds exactly nr * nc * nl vertices. */
  lemma SizeIsGridSize(d: Direction, nr: int, nc: int, nl: int)
    ensures Size(SliceShape(d, nr, nc, nl)) == nr * nc * nl
  {
    var sh := SliceShape(d, nr, nc, nl);
    match d
    case BottomToTop =>
    case TopToBottom =>
    case WestToEast => assert nc * nl * nr == nr * nc * nl;
    case EastToWest => assert nc * nl * nr == nr * nc * nl;
    case NorthToSouth => assert nr * nl * nc == nr * nc * nl;
    case SouthToNorth => assert nr * nl * nc == nr * nc * nl;
  }

  /** Every slot of the traversal names a grid cell, and SlotOf takes it back. */
  lemma CellAtInGrid(d: Direction, nr: int, nc: int, nl: int, s: int, r: int, c: int)
    requires var sh := SliceShape(d, nr, nc, nl); 0 <= s < sh.slices && 0 <= r < sh.rows && 0 <= c < sh.cols
    ensures InGrid(CellAt(d, nr, nc, nl, s, r, c), nr, nc, nl)
    ensures SlotOf(d, nr, nc, nl, CellAt(d, nr, nc, nl, s, r, c)) == (s, r, c)
  {
  }

  /** Every grid cell has a slot in the traversal, and CellAt takes it back. */
  lemma SlotOfInShape(d: Direction, nr: int, nc: int, nl: int, cell: Cell)
    requires InGrid(cell, nr, nc, nl)
    ensures var sh := SliceShape(d, nr, nc, nl); var slot := SlotOf(d, nr, nc, nl, cell);
      0 <= slot.0 < sh.slices && 0 <= slot.1 < sh.rows && 0 <= slot.2 < sh.cols
    ensures var slot := SlotOf(d, nr, nc, nl, cell); CellAt(d, nr, nc, nl, slot.0, slot.1, slot.2) == cell
  {
  }

  /** The source's offset expression is the mixed-radix composition (level, col, row). */
  lemma GridOffsetIsCompose(nr: int, nc: int, cell: Cell)
    ensures GridOffset(nr, nc, cell) == Compose(cell.level, cell.col, cell.row, nc, nr)
  {
    assert cell.level * nr * nc == cell.level * nc * nr;
  }

  /** A grid cell's offset lies in the grid array and GridCell decodes it. */
  lemma GridOffsetRoundTrip(nr: int, nc: int, nl: int, cell: Cell)
    requires InGrid(cell, nr, nc, nl)
    ensures 0 <= GridOffset(nr, nc, cell) < nr * nc * nl
    ensures GridCell(nr, nc, GridOffset(nr, nc, cell)) == cell
  {
    GridOffsetIsCompose(nr, nc, cell);
    ComposeBounds(cell.level, cell.col, cell.row, nl, nc, nr);
    assert nl * nc * nr == nr * nc * nl;
    ComposeDecompose(cell.level, cell.col, cell.row, nc, nr);
  }

  /** Every grid offset decodes to a grid cell whose offset it is. */
  lemma GridCellRoundTrip(nr: int, nc: int, nl: int, o: int)
    requires 0 < nr && 0 < nc && 0 <= o < nr * nc * nl
    ensures InGrid(GridCell(nr, nc, o), nr, nc, nl)
    ensures GridOffset(nr, nc, GridCell(nr, nc, o)) == o
  {
    assert nr * nc * nl == nl * nc * nr;
    DecomposeCompose(o, nl, nc, nr);
    var cell := GridCell(nr, nc, o);
    GridOffsetIsCompose(nr, nc, cell);
  }

  /** Buffer position p decodes to an in-shape slot whose Position is p. */
  lemma PositionRoundTrip(sh: Shape, p: int)
    requires 0 < sh.rows && 0 < sh.cols && 0 <= p < Size(sh)
    ensures 0 <= p / (sh.rows * sh.cols) < sh.slices
    ensures 0 <= (p / sh.cols) % sh.rows < sh.rows && 0 <= p % sh.cols < sh.cols
    ensures Position(sh, p / (sh.rows * sh.cols), (p / sh.cols) % sh.rows, p % sh.cols) == p
  {
    DecomposeCompose(p, sh.slices, sh.rows, sh.cols);
  }

  /** An in-shape slot's Position lies in the buffer and decodes back to the slot. */
  lemma SlotRoundTrip(sh: Shape, s: int, r: int, c: int)
    requires 0 <= s < sh.slices && 0 <= r < sh.rows && 0 <= c < sh.cols
    ensures 0 <= Position(sh, s, r, c) < Size(sh)
    ensures Position(sh, s, r, c) / (sh.rows * sh.cols) == s
    ensures (Position(sh, s, r, c) / sh.cols) % sh.rows == r
    ensures Position(sh, s, r, c) % sh.cols == c
  {
    ComposeBounds(s, r, c, sh.slices, sh.rows, sh.cols);
    ComposeDecompose(s, r, c, sh.rows, sh.cols);
  }

  /** Every position of the volume names a cell of the grid. */
  lemma PositionCellInGrid(d: Direction, nr: int, nc: int, nl: int, p: int)
    requires 0 < nr && 0 < nc && 0 < nl && 0 <= p < nr * nc * nl
    ensures InGrid(PositionCell(d, nr, nc, nl, p), nr, nc, nl)
  {
    var sh := SliceShape(d, nr, nc, nl);
    SizeIsGridSize(d, nr, nc, nl);
    PositionRoundTrip(sh, p);
    CellAtInGrid(d, nr, nc, nl, p / (sh.rows * sh.cols), (p / sh.cols) % sh.rows, p % sh.cols);
  }

  /** The cell stored at a slot's position is the cell CellAt names for that slot. */
  lemma PositionCellAt(d: Direction, nr: int, nc: int, nl: int, s: int, r: int, c: int)
    requires 0 < nr && 0 < nc && 0 < nl
    requires var sh := SliceShape(d, nr, nc, nl); 0 <= s < sh.slices && 0 <= r < sh.rows && 0 <= c < sh.cols
    ensures var p := Position(SliceShape(d, nr, nc, nl), s, r, c);
      0 <= p < nr * nc * nl && PositionCell(d, nr, nc, nl, p) == CellAt(d, nr, nc, nl, s, r, c)
  {
    SlotRoundTrip(SliceShape(d, nr, nc, nl), s, r, c);
    SizeIsGridSize(d, nr, nc, nl);
  }

  /**
   * Reading the grid in buffer order and putting each value where it is read
   * are inverse: for every position p of the volume, the grid offset read
   * there lies in the grid and maps back to p.
   */
  lemma {:induction false} TraversalLeftInverse(d: Direction, nr: int, nc: int, nl: int, p: int)
    requires 0 < nr && 0 < nc && 0 < nl && 0 <= p < nr * nc * nl
    ensures 0 <= SourceOffset(d, nr, nc, nl, p) < nr * nc * nl
    ensures PositionOf(d, nr, nc, nl, SourceOffset(d, nr, nc, nl, p)) == p
  {
    var sh := SliceShape(d, nr, nc, nl);
    SizeIsGridSize(d, nr, nc, nl);
    PositionRoundTrip(sh, p);
    var s, r, c := p / (sh.rows * sh.cols), (p / sh.cols) % sh.rows, p % sh.cols;
    var cell := CellAt(d, nr, nc, nl, s, r, c);
    CellAtInGrid(d, nr, nc, nl, s, r, c);
    GridOffsetRoundTrip(nr, nc, nl, cell);
  }

  /**
   * ... and for every grid offset o, the position it is stored at lies in the
   * volume and reads o. Together: the traversal is a bijection between the
   * volume's positions and the grid's cells.
   */
  lemma {:induction false} TraversalRightInverse(d: Direction, nr: int, nc: int, nl: int, o: int)
    requires 0 < nr && 0 < nc && 0 < nl && 0 <= o < nr * nc * nl
    ensures 0 <= PositionOf(d, nr, nc, nl, o) < nr * nc * nl
    ensures SourceOffset(d, nr, nc, nl, PositionOf(d, nr, nc, nl, o)) == o
  {
    var sh := SliceShape(d, nr, nc, nl);
    SizeIsGridSize(d, nr, nc, nl);
    GridCellRoundTrip(nr, nc, nl, o);
    var cell := GridCell(nr, nc, o);
    SlotOfInShape(d, nr, nc, nl, cell);
    var slot := SlotOf(d, nr, nc, nl, cell);
    PositionCellAt(d, nr, nc, nl, slot.0, slot.1, slot.2);
  }

  /** Distinct buffer positions read distinct grid cells. */
  lemma TraversalInjective(d: Direction, nr: int, nc: int, nl: int, p: int, q: int)
    requires 0 < nr && 0 < nc && 0 < nl
    requires 0 <= p < nr * nc * nl && 0 <= q < nr * nc * nl && p != q
    ensures SourceOffset(d, nr, nc, nl, p) != SourceOffset(d, nr, nc, nl, q)
  {
    TraversalLeftInverse(d, nr, nc, nl, p);
    TraversalLeftInverse(d, nr, nc, nl, q);
  }

  /**
   * Slices come out in the order the direction names: level ascending for
   * bottom-to-top and descending for top-to-bottom, column ascending for
   * west-to-east and descending for east-to-west, row ascending for
   * north-to-south and descending for south-to-north.
   */
  lemma SliceOrder(d: Direction, nr: int, nc: int, nl: int, s1: int, s2: int, r: int, c: int)
    requires s1 < s2
    ensures var a, b := CellAt(d, nr, nc, nl, s1, r, c), CellAt(d, nr, nc, nl, s2, r, c);
      match d
      case BottomToTop => a.level < b.level
      case TopToBottom => a.level > b.level
      case WestToEast => a.col < b.col
      case EastToWest => a.col > b.col
      case NorthToSouth => a.row < b.row
      case SouthToNorth => a.row > b.row
  {
  }

  /** Inside one slice, a slice's cells share the sliced coordinate. */
  lemma SliceIsPlanar(d: Direction, nr: int, nc: int, nl: int, s: int, r1: int, c1: int, r2: int, c2: int)
    ensures var a, b := CellAt(d, nr, nc, nl, s, r1, c1), CellAt(d, nr, nc, nl, s, r2, c2);
      match d
      case BottomToTop => a.level == b.level
      case TopToBottom => a.level == b.level
      case WestToEast => a.col == b.col
      case EastToWest => a.col == b.col
      case NorthToSouth => a.row == b.row
      case SouthToNorth => a.row == b.row
  {
  }
}
