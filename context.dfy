/**
 * The per-context side of src/volume.c: the volume slots of a context
 * (alloc_volume, free_volume) and the frame driver draw_volume.
 *
 * draw_volume is split in two around the call to renew_volume_memory,
 * which lies outside this model: PrepareFrame lists the volume variables
 * and runs the renew test; DrawFrame gathers the slots, invalidates them,
 * chooses the slicing, rebuilds every slot whose grid is available,
 * builds the interleaved slice list and composites it.
 */
module VolumeContext {
  import opened Radix
  import opened Quantization
  import opened Layout
  import opened Resample
  import opened VolumeSlices
  import opened Slicing
  import opened Interleave
  import opened Compositor

  datatype Option<T> = None | Some(value: T)

  /** The smaller of two counts. */
  function Min(a: int, b: int): int
  {
    if a < b then a else b
  }

  /*
   * ------------------------------------------------------------------
   * The volume-variable list
   * ------------------------------------------------------------------
   */

  /**
   * volumevarlist: with multi-volume rendering, every variable below
   * numVars whose DisplayVolume flag is set, in increasing order; without
   * it, the current volume variable alone.
   */
  method ListVolumeVars(multi: bool, current: int, numVars: int, display: seq<bool>) returns (list: seq<int>)
    requires 0 <= numVars <= |display|
    ensures !multi ==> list == [current]
    ensures multi ==> |list| <= numVars
    ensures multi ==> forall i, j :: 0 <= i < j < |list| ==> list[i] < list[j]
    ensures multi ==> forall x :: x in list <==> 0 <= x < numVars && display[x]
  {
    if !multi {
      return [current];
    }
    list := [];
    var origvar := 0;
    while origvar < numVars
      invariant 0 <= origvar <= numVars && |list| <= origvar
      invariant forall i :: 0 <= i < |list| ==> list[i] < origvar
      invariant forall i, j :: 0 <= i < j < |list| ==> list[i] < list[j]
      invariant forall x :: x in list <==> 0 <= x < origvar && display[x]
    {
      if display[origvar] {
        list := list + [origvar];
      }
      origvar := origvar + 1;
    }
  }

  /*
   * ------------------------------------------------------------------
   * The renew test
   * ------------------------------------------------------------------
   */

  /** What draw_volume remembers per context: prevvolumevarnum, prev_it and prev_ip. */
  datatype History = History(num: int, it: int, ip: seq<int>)

  /**
   * The history before the first frame: no variables, time step -1, and
   * prev_ip -1 throughout. With multi-volume rendering compiled in the
   * source sets every prev_ip entry to -1; without it only entry 0, but a
   * single variable is then listed, so only entry 0 is ever compared.
   */
  function InitialHistory(maxVars: nat): (h: History)
    ensures |h.ip| == maxVars && forall k :: 0 <= k < maxVars ==> h.ip[k] == -1
  {
    History(0, -1, seq(maxVars, _ => -1))
  }

  /** The outcome of one renew test: whether memory is renewed, and the history after it. */
  datatype Renewal = Renewal(renewed: bool, next: History)

  /** The listed variables agree with prev_ip position by position. */
  predicate Matches(list: seq<int>, ip: seq<int>)
    requires |list| <= |ip|
  {
    forall k :: 0 <= k < |list| ==> list[k] == ip[k]
  }

  /**
   * The renew test of draw_volume. A change in the number of listed
   * variables or in the time step renews and records both, leaving prev_ip
   * as it was; otherwise the list is compared with prev_ip and copied into
   * it.
   */
  function Renew(h: History, it: int, list: seq<int>): (r: Renewal)
    requires |list| <= |h.ip|
    ensures |r.next.ip| == |h.ip|
    ensures r.next.num == |list| && r.next.it == it
  {
    if |list| != h.num || it != h.it then Renewal(true, History(|list|, it, h.ip))
    else Renewal(!Matches(list, h.ip), History(h.num, h.it, list + h.ip[|list|..]))
  }

  /** A frame with the remembered count, time step and list renews nothing and changes nothing. */
  lemma {:induction false} QuietFrameKeepsHistory(h: History, it: int, list: seq<int>)
    requires |list| <= |h.ip| && h.num == |list| && h.it == it && list == h.ip[..|list|]
    ensures !Renew(h, it, list).renewed
    ensures Renew(h, it, list).next == h
  {
    assert h.ip == h.ip[..|list|] + h.ip[|list|..];
  }

  /** Memory is kept only when count, time step and list all match what was remembered. */
  lemma {:induction false} KeptOnlyWhenSame(h: History, it: int, list: seq<int>)
    requires |list| <= |h.ip| && !Renew(h, it, list).renewed
    ensures h.num == |list| && h.it == it && list == h.ip[..|list|]
  {
    assert Matches(list, h.ip);
  }

  /**
   * The same frame repeated settles by the third test: the first test
   * records count and time step, the second the list, and the third finds
   * everything as remembered.
   */
  lemma {:induction false} RepeatedFrameSettles(h: History, it: int, list: seq<int>)
    requires |list| <= |h.ip|
    ensures var h1 := Renew(h, it, list).next;
      var h2 := Renew(h1, it, list).next;
      !Renew(h2, it, list).renewed
  {
    var h1 := Renew(h, it, list).next;
    var h2 := Renew(h1, it, list).next;
    assert h2.ip[..|list|] == list;
    QuietFrameKeepsHistory(h2, it, list);
  }

  /**
   * After a change of count or time step, the next identical frame renews
   * again exactly when the list differs from the stale prev_ip, which the
   * first frame left as it was.
   */
  lemma CountChangeRenewsAgainUnlessMatching(h: History, it: int, list: seq<int>)
    requires |list| <= |h.ip| && (|list| != h.num || it != h.it)
    ensures Renew(h, it, list).renewed
    ensures Renew(Renew(h, it, list).next, it, list).renewed <==> !Matches(list, h.ip)
  {
  }

  /**
   * Turning off the last of two variables renews only once: the stale
   * prev_ip[0] already names the variable that remains.
   */
  lemma ShrinkToPrefixRenewsOnce()
    ensures var h := History(2, 0, [2, 3]);
      var r1 := Renew(h, 0, [2]);
      var r2 := Renew(r1.next, 0, [2]);
      r1.renewed && !r2.renewed
  {
    assert [2] + [2, 3][1..] == [2, 3];
  }

  /**
   * For example, a change of count renews twice: going from one variable (5) to two
   * (2 and 3) at the same time step renews on that frame, leaves prev_ip
   * stale, and renews again on the next identical frame.
   */
  lemma CountChangeRenewsTwice()
    ensures var h := History(1, 0, [5, -1]);
      var r1 := Renew(h, 0, [2, 3]);
      var r2 := Renew(r1.next, 0, [2, 3]);
      var r3 := Renew(r2.next, 0, [2, 3]);
      r1.renewed && r1.next.ip == [5, -1] && r2.renewed && r2.next.ip == [2, 3] && !r3.renewed
  {
    assert [2, 3][0] != [5, -1][0];
    assert [2, 3] + [5, -1][2..] == [2, 3];
  }

  /** The first frame after start-up always renews (time steps are never negative). */
  lemma FirstFrameRenews(maxVars: nat, it: int, list: seq<int>)
    requires 0 <= it && |list| <= maxVars
    ensures Renew(InitialHistory(maxVars), it, list).renewed
  {
  }

  /*
   * ------------------------------------------------------------------
   * Per-frame inputs
   * ------------------------------------------------------------------
   */

  /**
   * The grids of a frame: the variables' own grid (ctx Nr x Nc), the
   * display grid (dtx Nr x Nc x Nl from level LowLev) and the display box.
   */
  datatype Setup = Setup(nr: int, nc: int, dnr: int, dnc: int, dnl: int, dlowlev: int, frame: Frame)

  /**
   * One listed variable: its level count Nl and first level LowLev, its
   * MinVal and MaxVal, its level heights (gridlevel_to_z), its
   * display-to-native map (gridPRIME_to_grid), and what get_grid returned
   * for it: None for a null grid.
   */
  datatype VarInput = VarInput(nl: int, lowlev: int, lo: real, hi: real, levelZ: int -> real,
                               toNative: Cell -> GridPoint, grid: Option<seq<Sample>>)

  /** The rows of the grid a frame builds on: ctx Nr on the same grid, dtx Nr otherwise. */
  function BuildRows(sameGrid: bool, setup: Setup): int
  {
    if sameGrid then setup.nr else setup.dnr
  }

  /** The columns of the grid a frame builds on. */
  function BuildCols(sameGrid: bool, setup: Setup): int
  {
    if sameGrid then setup.nc else setup.dnc
  }

  /** The levels of the grid a variable is built on: its own Nl on the same grid, dtx Nl otherwise. */
  function BuildLevels(sameGrid: bool, setup: Setup, vi: VarInput): int
  {
    if sameGrid then vi.nl else setup.dnl
  }

  /**
   * The inputs of one variable fit its slot: positive grids, a grid of
   * the variable's size, and a build that fits the slot's buffers.
   */
  predicate InputFits(sameGrid: bool, setup: Setup, vi: VarInput, length: int)
  {
    0 < setup.nr && 0 < setup.nc && 0 < vi.nl &&
    0 < BuildRows(sameGrid, setup) && 0 < BuildCols(sameGrid, setup) && 0 < BuildLevels(sameGrid, setup, vi) &&
    (vi.grid.Some? ==> |vi.grid.value| == setup.nr * setup.nc * vi.nl) &&
    BuildRows(sameGrid, setup) * BuildCols(sameGrid, setup) * BuildLevels(sameGrid, setup, vi) <= length
  }

  /** The number of slices of variable vi in direction d (numslicepervar). */
  function SliceCountOf(d: Direction, sameGrid: bool, setup: Setup, vi: VarInput): int
  {
    SliceCount(AxisOf(d), BuildRows(sameGrid, setup), BuildCols(sameGrid, setup), setup.dnl, sameGrid, vi.nl)
  }

  /**
   * The state of slot v, listed as volvar of V, after the build step of a
   * frame sliced in direction d: without a grid it stays invalid; with one
   * it holds compute_volume's build on the same grid, or
   * compute_volumePRIME's build of the display grid otherwise.
   */
  ghost predicate BuiltFor(v: Volume, d: Direction, sameGrid: bool, setup: Setup, vi: VarInput, volvar: int, V: int)
    reads v, v.index, v.vertex
    requires 0 <= volvar < V
  {
    match vi.grid
    case None => !v.valid
    case Some(data) =>
      0 < setup.nr && 0 < setup.nc && 0 < vi.nl && |data| == setup.nr * setup.nc * vi.nl &&
      if sameGrid then
        v.Built(Colouring(Direct(data, vi.lo, vi.hi), setup.nr, setup.nc, vi.nl), d, setup.nr, setup.nc, vi.nl,
                Placement(BuildGeometry(setup.frame, volvar, V, setup.nr, setup.nc, vi.nl, vi.lowlev, vi.levelZ, d),
                          d, setup.nr, setup.nc))
      else
        0 <= setup.dnl &&
        v.Built(Colouring(Resampled(data, setup.nr, setup.nc, vi.nl, vi.lo, vi.hi, vi.toNative),
                          setup.dnr, setup.dnc, setup.dnl), d, setup.dnr, setup.dnc, setup.dnl,
                Placement(BuildGeometry(setup.frame, volvar, V, setup.dnr, setup.dnc, setup.dnl, setup.dlowlev, vi.levelZ, d),
                          d, setup.dnr, setup.dnc))
  }

  /*
   * ------------------------------------------------------------------
   * Slots of one frame
   * ------------------------------------------------------------------
   */

  /** The slots, their colour-index buffers and their vertex buffers. */
  function Footprint(vols: seq<Volume?>): set<object>
  {
    (set k | 0 <= k < |vols| && vols[k] != null :: vols[k] as object) +
    (set k | 0 <= k < |vols| && vols[k] != null :: vols[k].index as object) +
    (set k | 0 <= k < |vols| && vols[k] != null :: vols[k].vertex as object)
  }

  /** Every slot present, and no two sharing a slot or a buffer. */
  predicate Separate(vols: seq<Volume?>)
  {
    (forall k :: 0 <= k < |vols| ==> vols[k] != null) &&
    forall i, j :: 0 <= i < j < |vols| ==>
      vols[i] != vols[j] && vols[i].index != vols[j].index && vols[i].vertex != vols[j].vertex
  }

  /** A slot's direction and slice shape are what they were on entry to the enclosing method. */
  twostate predicate Kept(v: Volume)
    reads v
  {
    v.dir == old(v.dir) && v.slices == old(v.slices) && v.rows == old(v.rows) && v.cols == old(v.cols)
  }

  /** invalidate current volumes: every listed slot is marked invalid, nothing else changes. */
  method Invalidate(vols: seq<Volume?>)
    requires forall k :: 0 <= k < |vols| ==> vols[k] != null
    modifies set k | 0 <= k < |vols| :: vols[k]
    ensures forall k :: 0 <= k < |vols| ==> !vols[k].valid
    ensures forall k :: 0 <= k < |vols| ==> Kept(vols[k])
  {
    var volvar := 0;
    while volvar < |vols|
      invariant 0 <= volvar <= |vols|
      invariant forall k :: 0 <= k < volvar ==> !vols[k].valid
      invariant forall k :: 0 <= k < |vols| ==> Kept(vols[k])
    {
      vols[volvar].valid := false;
      volvar := volvar + 1;
    }
  }

  /**
   * The build step for one slot: when its direction differs or it is
   * invalid and the grid is available, rebuild it with the builder the
   * grid setting selects; otherwise leave it as it is.
   */
  method ComputeOne(v: Volume, d: Direction, sameGrid: bool, setup: Setup, vi: VarInput, volvar: int, V: int)
    requires v.Valid() && 0 <= volvar < V && InputFits(sameGrid, setup, vi, v.index.Length)
    modifies v, v.index, v.vertex
    ensures vi.grid.None? || (old(v.dir) == d && old(v.valid)) ==> unchanged(v, v.index, v.vertex)
    ensures vi.grid.Some? && (old(v.dir) != d || !old(v.valid)) ==> BuiltFor(v, d, sameGrid, setup, vi, volvar, V)
  {
    if v.dir != d || !v.valid {
      match vi.grid
      case None =>
      case Some(data) =>
        if sameGrid {
          v.ComputeVolume(data, volvar, V, setup.nr, setup.nc, vi.nl, vi.lowlev, vi.levelZ, vi.lo, vi.hi, d, setup.frame);
        } else {
          v.ComputeVolumePrime(data, setup.nr, setup.nc, vi.nl, vi.toNative, volvar, V,
                               setup.dnr, setup.dnc, setup.dnl, setup.dlowlev, vi.levelZ, vi.lo, vi.hi, d, setup.frame);
        }
    }
  }

  /**
   * The stale slot of the compositor finding, reached through the
   * operations above: a slot allocated for nr = 2, nc = 4, nl = 2 and built
   * bottom to top (2 slices of 2 x 4, 16 bytes), then invalidated by a
   * frame sliced along x whose grid is missing. It keeps the shape of the
   * earlier build, so it passes the source's test but not the corrected
   * one, and the slice that round 3 of that frame asks of it starts past
   * its buffer.
   */
  method StaleSlotAfterMissingGrid() returns (st: SlotState, s: int)
    ensures st == SlotState(false, 2, 2, 4, 16) && s == 3
    ensures GuardAsWritten(st) && !Guard(st) && SliceStart(s, st.rows, st.cols) >= st.length
  {
    var v := new Volume(2, 4, 2);
    var setup := Setup(2, 4, 2, 4, 2, 0, Frame(0.0, 1.0, 0.0, 1.0));
    var levelZ := (l: int) => l as real;
    var toNative := (c: Cell) => GridPoint(c.row as real, c.col as real, c.level as real);
    var first := VarInput(2, 0, 0.0, 1.0, levelZ, toNative, Some(seq(16, _ => Missing)));
    ComputeOne(v, BottomToTop, true, setup, first, 0, 1);
    assert v.slices == 2 && v.rows == 2 && v.cols == 4;
    var second := VarInput(2, 0, 0.0, 1.0, levelZ, toNative, None);
    Invalidate([v]);
    assert [v][0] == v;
    assert !v.valid && v.slices == 2 && v.rows == 2 && v.cols == 4;
    ComputeOne(v, EastToWest, true, setup, second, 0, 1);
    var n := SliceCountOf(EastToWest, true, setup, second);
    assert n == 4;
    s := LocalSlice(3, n, n);
    assert s == 3 * 3 / 3;
    st := StateOf(v);
  }

  /** The build loop of draw_volume over the listed slots, all invalid on entry. */
  method ComputeAll(vols: seq<Volume?>, d: Direction, sameGrid: bool, setup: Setup, vars: seq<VarInput>)
    requires |vars| == |vols| && Separate(vols)
    requires forall k :: 0 <= k < |vols| ==>
      vols[k].Valid() && !vols[k].valid && InputFits(sameGrid, setup, vars[k], vols[k].index.Length)
    modifies Footprint(vols)
    ensures AllBuilt(vols, d, sameGrid, setup, vars)
  {
    var volvar := 0;
    while volvar < |vols|
      invariant 0 <= volvar <= |vols|
      invariant forall k :: 0 <= k < volvar ==> BuiltFor(vols[k], d, sameGrid, setup, vars[k], k, |vols|)
      invariant forall k :: volvar <= k < |vols| ==> !vols[k].valid
    {
      ComputeOne(vols[volvar], d, sameGrid, setup, vars[volvar], volvar, |vols|);
      volvar := volvar + 1;
    }
  }

  /**
   * A listed slot after the build step: it is drawable exactly when its
   * grid was available, and then its shape fits its buffers and its slice
   * count is the variable's numslicepervar.
   */
  lemma {:induction false} DrawableSlot(v: Volume, d: Direction, sameGrid: bool, setup: Setup, vi: VarInput, volvar: int, V: int)
    requires 0 <= volvar < V && InputFits(sameGrid, setup, vi, v.index.Length)
    requires BuiltFor(v, d, sameGrid, setup, vi, volvar, V)
    ensures Drawable(v) <==> vi.grid.Some?
    ensures vi.grid.Some? ==> Fits(v) && v.slices == SliceCountOf(d, sameGrid, setup, vi)
  {
    if vi.grid.Some? {
      var R, C, L := BuildRows(sameGrid, setup), BuildCols(sameGrid, setup), BuildLevels(sameGrid, setup, vi);
      assert Shape(v.slices, v.rows, v.cols) == SliceShape(d, R, C, L);
      SizeIsGridSize(d, R, C, L);
      CountIsShapeSlices(d, R, C, setup.dnl, sameGrid, vi.nl);
    }
  }

  /** What a frame that reached the compositor produced. */
  datatype Outcome =
    | Exited      // a listed variable has no slot: the source calls exit(1)
    | Empty       // no variable is listed
    | Rendered(dir: Direction, counts: seq<int>, largest: int, ok: bool, image: seq<seq<seq<StripPoint>>>)

  /**
   * The slicing of a frame with V listed variables: the direction the view
   * selects, the per-variable slice counts (numslicepervar) and
   * largestslice.
   */
  predicate Sliced(d: Direction, counts: seq<int>, largest: int, V: int, ctm: seq<seq<real>>, proj: seq<seq<real>>,
                   sameGrid: bool, setup: Setup, vars: seq<VarInput>)
    requires IsMatrix(ctm) && IsMatrix(proj) && |vars| == V
  {
    d == SliceDirection(ThirdColumn(ctm, proj)) &&
    |counts| == V &&
    (forall k :: 0 <= k < V ==> counts[k] == SliceCountOf(d, sameGrid, setup, vars[k])) &&
    (forall k :: 0 <= k < V ==> 1 <= counts[k] <= largest) &&
    (AxisOf(d) == ZAxis && sameGrid ==> largest == MaxCount(counts)) &&
    (!(AxisOf(d) == ZAxis && sameGrid) ==>
       largest == SliceCount(AxisOf(d), BuildRows(sameGrid, setup), BuildCols(sameGrid, setup), setup.dnl, sameGrid, 0))
  }

  /** Every listed slot after the build step of a frame sliced in direction d. */
  ghost predicate AllBuilt(vols: seq<Volume?>, d: Direction, sameGrid: bool, setup: Setup, vars: seq<VarInput>)
    reads Footprint(vols)
    requires |vars| == |vols| && forall k :: 0 <= k < |vols| ==> vols[k] != null
  {
    forall k :: 0 <= k < |vols| ==> BuiltFor(vols[k], d, sameGrid, setup, vars[k], k, |vols|)
  }

  /**
   * The compositor's part of a frame: it succeeds exactly when every
   * listed variable had a grid, stopping otherwise at the first entry of a
   * variable without one; every drawn entry e is slice
   * LocalSlice(e / V, ...) of variable e % V.
   */
  ghost predicate Composited(out: Outcome, vols: seq<Volume?>, vars: seq<VarInput>, ctables: seq<seq<int>>, stride: int)
    reads Footprint(vols)
    requires out.Rendered? && |vars| == |vols| && |ctables| == |vols| && |out.counts| == |vols| && 1 <= stride
    requires forall k :: 0 <= k < |vols| ==> vols[k] != null && |ctables[k]| == 256 && 1 <= out.counts[k]
  {
    var V := |vols|;
    0 < V &&
    (out.ok <==> forall k :: 0 <= k < V ==> vars[k].grid.Some?) &&
    |out.image| <= V * out.largest && (out.ok ==> |out.image| == V * out.largest) &&
    (!out.ok ==> 0 < V && vars[|out.image| % V].grid.None?) &&
    forall e :: 0 <= e < |out.image| ==>
      SliceImage(out.image[e], vols[e % V], ctables[e % V], LocalSlice(e / V, out.counts[e % V], out.largest), stride)
  }

  /** The frame drawn with slots vols: slicing, builds and compositing together. */
  ghost predicate Drew(out: Outcome, vols: seq<Volume?>, ctm: seq<seq<real>>, proj: seq<seq<real>>, sameGrid: bool,
                       setup: Setup, vars: seq<VarInput>, ctables: seq<seq<int>>, fastdraw: bool, vstride: int)
    reads Footprint(vols)
    requires out.Rendered? && IsMatrix(ctm) && IsMatrix(proj)
    requires |vars| == |vols| && |ctables| == |vols|
    requires forall k :: 0 <= k < |vols| ==> vols[k] != null && |ctables[k]| == 256
  {
    Sliced(out.dir, out.counts, out.largest, |vols|, ctm, proj, sameGrid, setup, vars) &&
    AllBuilt(vols, out.dir, sameGrid, setup, vars) &&
    Composited(out, vols, vars, ctables, Stride(fastdraw, vstride))
  }

  /**
   * The part of draw_volume after the slots are invalidated: choose the
   * slicing, build every slot, lay out the interleaved slice list and
   * composite it.
   */
  method DrawVolumes(vols: seq<Volume?>, ctm: seq<seq<real>>, proj: seq<seq<real>>, sameGrid: bool, setup: Setup,
                     vars: seq<VarInput>, ctables: seq<seq<int>>, fastdraw: bool, vstride: int)
    returns (out: Outcome)
    requires IsMatrix(ctm) && IsMatrix(proj)
    requires 1 <= |vols| && |vars| == |vols| && |ctables| == |vols| && Separate(vols)
    requires forall k :: 0 <= k < |ctables| ==> |ctables[k]| == 256
    requires forall k :: 0 <= k < |vols| ==>
      vols[k].Valid() && !vols[k].valid && InputFits(sameGrid, setup, vars[k], vols[k].index.Length)
    modifies Footprint(vols)
    ensures out.Rendered? && Drew(out, vols, ctm, proj, sameGrid, setup, vars, ctables, fastdraw, vstride)
  {
    var d, counts, largest := BuildFrame(vols, ctm, proj, sameGrid, setup, vars);
    SlotsDrawable(vols, d, sameGrid, setup, vars, counts);
    out := CompositeFrame(vols, vars, ctables, d, counts, largest, fastdraw, vstride);
  }

  /**
   * The direction branch and the build loop of draw_volume: choose the
   * slicing from the view, then build every listed slot.
   */
  method BuildFrame(vols: seq<Volume?>, ctm: seq<seq<real>>, proj: seq<seq<real>>, sameGrid: bool, setup: Setup,
                    vars: seq<VarInput>)
    returns (d: Direction, counts: seq<int>, largest: int)
    requires IsMatrix(ctm) && IsMatrix(proj)
    requires 1 <= |vols| && |vars| == |vols| && Separate(vols)
    requires forall k :: 0 <= k < |vols| ==>
      vols[k].Valid() && !vols[k].valid && InputFits(sameGrid, setup, vars[k], vols[k].index.Length)
    modifies Footprint(vols)
    ensures Sliced(d, counts, largest, |vols|, ctm, proj, sameGrid, setup, vars)
    ensures AllBuilt(vols, d, sameGrid, setup, vars)
  {
    var V := |vols|;
    var varLevels := seq(V, k requires 0 <= k < V => vars[k].nl);
    d, counts, largest := ChooseSlicing(ctm, proj, BuildRows(sameGrid, setup), BuildCols(sameGrid, setup),
                                        setup.dnl, sameGrid, varLevels);
    ComputeAll(vols, d, sameGrid, setup, vars);
  }

  /**
   * The totalslices setup and the call of render_volume: lay out the
   * interleaved list for the counts and composite it over the built slots.
   */
  method CompositeFrame(vols: seq<Volume?>, vars: seq<VarInput>, ctables: seq<seq<int>>, d: Direction,
                        counts: seq<int>, largest: int, fastdraw: bool, vstride: int)
    returns (out: Outcome)
    requires 1 <= |vols| && |vars| == |vols| && |ctables| == |vols| && |counts| == |vols|
    requires forall k :: 0 <= k < |vols| ==> vols[k] != null && |ctables[k]| == 256 && 1 <= counts[k] <= largest
    requires forall k :: 0 <= k < |vols| ==> (Drawable(vols[k]) <==> vars[k].grid.Some?)
    requires forall k :: 0 <= k < |vols| && vars[k].grid.Some? ==> Fits(vols[k]) && vols[k].slices == counts[k]
    ensures out.Rendered? && out.dir == d && out.counts == counts && out.largest == largest
    ensures Composited(out, vols, vars, ctables, Stride(fastdraw, vstride))
  {
    assert counts[0] <= largest;
    var local, owner := BuildSliceList(counts, largest);
    ListFitsSlots(vols, vars, local, owner, counts, largest);
    var ok, image := RenderVolumes(vols, ctables, local, owner, fastdraw, vstride);
    out := Rendered(d, counts, largest, ok, image);
    CompositedFromList(vols, vars, ctables, local, owner, Stride(fastdraw, vstride), out);
  }

  /** After the build step each listed slot is drawable exactly when its grid was available. */
  lemma SlotsDrawable(vols: seq<Volume?>, d: Direction, sameGrid: bool, setup: Setup, vars: seq<VarInput>, counts: seq<int>)
    requires |vars| == |vols| && |counts| == |vols| && forall k :: 0 <= k < |vols| ==> vols[k] != null
    requires forall k :: 0 <= k < |vols| ==>
      InputFits(sameGrid, setup, vars[k], vols[k].index.Length) && counts[k] == SliceCountOf(d, sameGrid, setup, vars[k])
    requires AllBuilt(vols, d, sameGrid, setup, vars)
    ensures forall k :: 0 <= k < |vols| ==> (Drawable(vols[k]) <==> vars[k].grid.Some?)
    ensures forall k :: 0 <= k < |vols| && vars[k].grid.Some? ==> Fits(vols[k]) && vols[k].slices == counts[k]
  {
    forall k | 0 <= k < |vols|
      ensures Drawable(vols[k]) <==> vars[k].grid.Some?
      ensures vars[k].grid.Some? ==> Fits(vols[k]) && vols[k].slices == counts[k]
    {
      DrawableSlot(vols[k], d, sameGrid, setup, vars[k], k, |vols|);
    }
  }

  /** The interleaved list meets the compositor's demands on the built slots. */
  lemma ListFitsSlots(vols: seq<Volume?>, vars: seq<VarInput>, local: array<int>, owner: array<int>, counts: seq<int>, L: int)
    requires |vars| == |vols| && |counts| == |vols| && 1 <= |vols|
    requires forall k :: 0 <= k < |vols| ==> vols[k] != null && 1 <= counts[k]
    requires forall k :: 0 <= k < |vols| ==> (Drawable(vols[k]) <==> vars[k].grid.Some?)
    requires forall k :: 0 <= k < |vols| && vars[k].grid.Some? ==> Fits(vols[k]) && vols[k].slices == counts[k]
    requires owner.Length == |vols| * L && local.Length == owner.Length && Listed(local, owner, counts, L, owner.Length)
    ensures forall e :: 0 <= e < owner.Length ==> 0 <= owner[e] < |vols| && 0 <= local[e]
    ensures forall k :: 0 <= k < |vols| && Drawable(vols[k]) ==> Fits(vols[k])
    ensures forall e :: 0 <= e < owner.Length && Drawable(vols[owner[e]]) ==> local[e] < vols[owner[e]].slices
  {
  }

  /** The compositor's result over the interleaved list, read back per variable. */
  lemma CompositedFromList(vols: seq<Volume?>, vars: seq<VarInput>, ctables: seq<seq<int>>,
                           local: array<int>, owner: array<int>, stride: int, out: Outcome)
    requires out.Rendered? && |vars| == |vols| && |ctables| == |vols| && |out.counts| == |vols| && 1 <= |vols|
    requires 1 <= out.largest && 1 <= stride
    requires forall k :: 0 <= k < |vols| ==> vols[k] != null && |ctables[k]| == 256 && 1 <= out.counts[k]
    requires forall k :: 0 <= k < |vols| ==> (Drawable(vols[k]) <==> vars[k].grid.Some?)
    requires owner.Length == |vols| * out.largest && local.Length == owner.Length
    requires Listed(local, owner, out.counts, out.largest, owner.Length)
    requires out.ok <==> forall e :: 0 <= e < owner.Length ==> Drawable(vols[owner[e]])
    requires |out.image| <= owner.Length && (out.ok ==> |out.image| == owner.Length)
    requires !out.ok ==> |out.image| < owner.Length && !Drawable(vols[owner[|out.image|]])
    requires forall e :: 0 <= e < |out.image| ==>
      Drawable(vols[owner[e]]) && SliceImage(out.image[e], vols[owner[e]], ctables[owner[e]], local[e], stride)
    ensures Composited(out, vols, vars, ctables, stride)
  {
    var V := |vols|;
    EveryVariableListed(local, owner, out.counts, out.largest);
    if out.ok {
      forall k | 0 <= k < V
        ensures vars[k].grid.Some?
      {
        assert Drawable(vols[owner[k]]);
      }
    } else {
      var e := |out.image|;
      assert owner[e] == e % V && !Drawable(vols[e % V]);
    }
    forall e | 0 <= e < |out.image|
      ensures SliceImage(out.image[e], vols[e % V], ctables[e % V], LocalSlice(e / V, out.counts[e % V], out.largest), stride)
    {
      assert owner[e] == e % V && local[e] == LocalSlice(e / V, out.counts[e % V], out.largest);
    }
  }

  /** Every variable owns an entry of a non-empty interleaved list: entry k of round 0. */
  lemma EveryVariableListed(local: array<int>, owner: array<int>, counts: seq<int>, L: int)
    requires 1 <= L && owner.Length == |counts| * L && Listed(local, owner, counts, L, |counts| * L)
    ensures forall k :: 0 <= k < |counts| ==> k < owner.Length && owner[k] == k
  {
    forall k | 0 <= k < |counts|
      ensures k < owner.Length && owner[k] == k
    {
      MulMono(1, L, |counts|);
      DivModUnique(k, |counts|, 0, k);
    }
  }

  /**
   * draw_volume from the invalidation on, over the slots of the listed
   * variables: invalidate them all, stop when nothing is listed, and draw.
   */
  method DrawListed(vols: seq<Volume?>, ctm: seq<seq<real>>, proj: seq<seq<real>>, sameGrid: bool, setup: Setup,
                    vars: seq<VarInput>, ctables: seq<seq<int>>, fastdraw: bool, vstride: int)
    returns (out: Outcome)
    requires IsMatrix(ctm) && IsMatrix(proj)
    requires |vars| == |vols| && |ctables| == |vols| && Separate(vols)
    requires forall k :: 0 <= k < |ctables| ==> |ctables[k]| == 256
    requires forall k :: 0 <= k < |vols| ==> vols[k].Valid() && InputFits(sameGrid, setup, vars[k], vols[k].index.Length)
    modifies Footprint(vols)
    ensures !out.Exited? && (out.Empty? <==> |vols| == 0)
    ensures out.Rendered? ==> Drew(out, vols, ctm, proj, sameGrid, setup, vars, ctables, fastdraw, vstride)
  {
    Invalidate(vols);
    if |vols| == 0 {
      return Empty;
    }
    out := DrawVolumes(vols, ctm, proj, sameGrid, setup, vars, ctables, fastdraw, vstride);
  }

  /** Neither a context nor its slot table is a slot or a buffer. */
  lemma OutsideFootprint(vols: seq<Volume?>, ctx: Context, table: array<Volume?>)
    ensures ctx !in Footprint(vols) && table !in Footprint(vols)
  {
  }

  /**
   * One context: its volume slots (Volume[MAXVARS]), its NumVars, the
   * display context's VolRender flag, and the renew history draw_volume
   * keeps for it.
   */
  class Context {
    var volRender: bool
    const volumes: array<Volume?>
    const numVars: int
    var prevNum: int
    var prevIt: int
    var prevIp: seq<int>

    /**
     * One history entry per slot, at most one slot per variable, and
     * distinct slots owning distinct buffers.
     */
    ghost predicate Valid()
      reads this, volumes
    {
      1 <= volumes.Length && |prevIp| == volumes.Length && 0 <= numVars <= volumes.Length &&
      (forall j :: 0 <= j < volumes.Length && volumes[j] != null ==> volumes[j].Valid()) &&
      forall i, j :: 0 <= i < volumes.Length && 0 <= j < volumes.Length && i != j &&
                     volumes[i] != null && volumes[j] != null ==>
        volumes[i] != volumes[j] && volumes[i].index != volumes[j].index && volumes[i].vertex != volumes[j].vertex
    }

    /** The history as one value. */
    function Remembered(): History
      reads this
    {
      History(prevNum, prevIt, prevIp)
    }

    /** The slots of the listed variables, in list order (volumelist). */
    function SlotsOf(list: seq<int>): (vols: seq<Volume?>)
      reads this, volumes
      requires forall k :: 0 <= k < |list| ==> 0 <= list[k] < volumes.Length
      ensures |vols| == |list| && forall k :: 0 <= k < |list| ==> vols[k] == volumes[list[k]]
    {
      seq(|list|, k requires 0 <= k < |list| reads volumes => volumes[list[k]])
    }

    /** Every slot with its buffers. */
    function AllSlots(): set<object>
      reads this, volumes
    {
      Footprint(volumes[..])
    }

    /**
     * A context with maxVars empty slots and the history draw_volume sets
     * up on its first call.
     */
    constructor (maxVars: int, nvars: int)
      requires 1 <= maxVars && 0 <= nvars <= maxVars
      ensures Valid() && fresh(volumes) && !volRender && numVars == nvars
      ensures volumes.Length == maxVars && forall j :: 0 <= j < maxVars ==> volumes[j] == null
      ensures Remembered() == InitialHistory(maxVars)
    {
      volRender := false;
      volumes := new Volume?[maxVars](_ => null);
      numVars := nvars;
      prevNum, prevIt, prevIp := 0, -1, seq(maxVars, _ => -1);
    }

    /**
     * alloc_volume: no slot, and volume rendering off, for the cylindrical
     * and spherical projections, for grids of at most one level, when the
     * graphics library cannot blend, or when the buffers cannot be had;
     * otherwise a fresh invalid slot with buffers for nl * nr * nc points,
     * and volume rendering on.
     */
    method AllocVolume(projection: Projection, nr: int, nc: int, nl: int, canBlend: bool, memoryOk: bool)
      returns (v: Volume?)
      requires 0 <= nr && 0 <= nc
      modifies this`volRender
      ensures v == null <==> projection == Cylindrical || projection == Spherical || nl <= 1 || !canBlend || !memoryOk
      ensures volRender <==> v != null
      ensures v != null ==> fresh(v) && fresh(v.index) && fresh(v.vertex) && v.Valid() && !v.valid
      ensures v != null ==> v.oldnr == nr && v.oldnc == nc && v.oldnl == nl && v.index.Length == nl * nr * nc
    {
      if projection == Cylindrical || projection == Spherical {
        volRender := false;
        return null;
      }
      if nl <= 1 {
        volRender := false;
        return null;
      }
      var volren := canBlend;
      v := null;
      if volren {
        if !memoryOk {
          volRender := false;
          return null;
        }
        v := new Volume(nr, nc, nl);
      }
      volRender := v != null;
    }

    /**
     * free_volume: empty the slots of the first min(NumVars, MAXVOLUMEVARS)
     * variables; the others keep their slots.
     */
    method FreeVolume(maxVolumeVars: int)
      requires Valid() && 0 <= maxVolumeVars <= volumes.Length
      modifies volumes
      ensures Valid()
      ensures forall j :: 0 <= j < volumes.Length ==>
        volumes[j] == if j < Min(numVars, maxVolumeVars) then null else old(volumes[j])
    {
      var truenumvars := if numVars > maxVolumeVars then maxVolumeVars else numVars;
      var j := 0;
      while j < truenumvars
        invariant 0 <= j <= truenumvars && Valid()
        invariant forall i :: 0 <= i < volumes.Length ==> volumes[i] == if i < j then null else old(volumes[i])
      {
        if volumes[j] != null {
          volumes[j] := null;
        }
        j := j + 1;
      }
    }

    /**
     * The renew test of draw_volume on this context's history: the result
     * and the new history are those of Renew.
     */
    method CheckRenew(it: int, list: seq<int>) returns (renewed: bool)
      requires |list| <= |prevIp|
      modifies this`prevNum, this`prevIt, this`prevIp
      ensures Renewal(renewed, Remembered()) == Renew(old(Remembered()), it, list)
    {
      renewed := false;
      if |list| != prevNum || it != prevIt {
        renewed := true;
        prevIt := it;
        prevNum := |list|;
      } else {
        var volvar := 0;
        while volvar < |list|
          invariant 0 <= volvar <= |list| && |prevIp| == |old(prevIp)|
          invariant prevNum == old(prevNum) && prevIt == old(prevIt)
          invariant forall k :: 0 <= k < volvar ==> prevIp[k] == list[k]
          invariant forall k :: volvar <= k < |prevIp| ==> prevIp[k] == old(prevIp)[k]
          invariant renewed <==> exists k :: 0 <= k < volvar && list[k] != old(prevIp)[k]
        {
          if list[volvar] != prevIp[volvar] {
            renewed := true;
          }
          prevIp := prevIp[volvar := list[volvar]];
          volvar := volvar + 1;
        }
        assert prevIp == list + old(prevIp)[|list|..];
      }
    }

    /**
     * The part of draw_volume before renew_volume_memory: list the volume
     * variables and run the renew test.
     */
    method PrepareFrame(multi: bool, current: int, display: seq<bool>, it: int)
      returns (list: seq<int>, renewed: bool)
      requires Valid() && numVars <= |display|
      modifies this`prevNum, this`prevIt, this`prevIp
      ensures Valid()
      ensures !multi ==> list == [current]
      ensures multi ==> forall i, j :: 0 <= i < j < |list| ==> list[i] < list[j]
      ensures multi ==> forall x :: x in list <==> 0 <= x < numVars && display[x]
      ensures |list| <= volumes.Length
      ensures Renewal(renewed, Remembered()) == Renew(old(Remembered()), it, list)
    {
      list := ListVolumeVars(multi, current, numVars, display);
      renewed := CheckRenew(it, list);
    }

    /**
     * The part of draw_volume after renew_volume_memory: gather the slots of
     * the listed variables (exit when one is missing), invalidate them,
     * stop when nothing is listed, and draw the frame.
     */
    method DrawFrame(list: seq<int>, ctm: seq<seq<real>>, proj: seq<seq<real>>, sameGrid: bool, setup: Setup,
                     vars: seq<VarInput>, ctables: seq<seq<int>>, fastdraw: bool, vstride: int)
      returns (out: Outcome)
      requires Valid() && IsMatrix(ctm) && IsMatrix(proj)
      requires forall k :: 0 <= k < |list| ==> 0 <= list[k] < volumes.Length
      requires forall i, j :: 0 <= i < j < |list| ==> list[i] != list[j]
      requires |vars| == |list| && |ctables| == |list| && forall k :: 0 <= k < |list| ==> |ctables[k]| == 256
      requires forall k :: 0 <= k < |list| && volumes[list[k]] != null ==>
        InputFits(sameGrid, setup, vars[k], volumes[list[k]].index.Length)
      modifies AllSlots()
      ensures Valid()
      ensures out.Exited? <==> exists k :: 0 <= k < |list| && volumes[list[k]] == null
      ensures out.Empty? <==> |list| == 0
      ensures out.Rendered? ==> Drew(out, SlotsOf(list), ctm, proj, sameGrid, setup, vars, ctables, fastdraw, vstride)
    {
      var vols, missing := GatherSlots(list);
      if missing {
        return Exited;
      }
      ListedSlotsSeparate(list);
      FootprintOfListed(list);
      OutsideFootprint(vols, this, volumes);
      out := DrawListed(vols, ctm, proj, sameGrid, setup, vars, ctables, fastdraw, vstride);
    }

    /** volumelist: the slot of every listed variable, or missing when one has none. */
    method GatherSlots(list: seq<int>) returns (vols: seq<Volume?>, missing: bool)
      requires forall k :: 0 <= k < |list| ==> 0 <= list[k] < volumes.Length
      ensures missing <==> exists k :: 0 <= k < |list| && volumes[list[k]] == null
      ensures !missing ==> vols == SlotsOf(list)
    {
      vols := [];
      var volvar := 0;
      while volvar < |list|
        invariant 0 <= volvar <= |list| && |vols| == volvar
        invariant forall k :: 0 <= k < volvar ==> vols[k] == volumes[list[k]] && vols[k] != null
      {
        if volumes[list[volvar]] == null {
          return vols, true;
        }
        vols := vols + [volumes[list[volvar]]];
        volvar := volvar + 1;
      }
      missing := false;
    }

    /** The slots of distinct listed variables are separate. */
    lemma ListedSlotsSeparate(list: seq<int>)
      requires Valid()
      requires forall k :: 0 <= k < |list| ==> 0 <= list[k] < volumes.Length && volumes[list[k]] != null
      requires forall i, j :: 0 <= i < j < |list| ==> list[i] != list[j]
      ensures Separate(SlotsOf(list))
    {
    }

    /** The listed slots and their buffers are among all slots and buffers. */
    lemma FootprintOfListed(list: seq<int>)
      requires forall k :: 0 <= k < |list| ==> 0 <= list[k] < volumes.Length
      ensures Footprint(SlotsOf(list)) <= AllSlots()
    {
      var vols, all := SlotsOf(list), volumes[..];
      forall o | o in Footprint(vols)
        ensures o in Footprint(all)
      {
        var k :| 0 <= k < |vols| && vols[k] != null && (o == vols[k] || o == vols[k].index || o == vols[k].vertex);
        assert all[list[k]] == vols[k];
      }
    }
  }
}
