# Volume slice compositing in Vis5D+ (src/volume.c)

This project is a Dafny model of the volume renderer of Vis5D+. A
three-dimensional grid of one variable is drawn as a stack of semi-transparent,
axis-aligned slices, composited back to front. The model covers:

- **Volume slots** (`struct volume`, class `VolumeSlices.Volume`). Each slot
  has a vertex buffer and a colour-index buffer, sized once by `alloc_volume`
  for the largest grid and emptied by `free_volume`.
- **The two slice builders**:
  - `compute_volume` reads the variable's own grid.
  - `compute_volumePRIME` resamples a native grid onto the display grid by
    trilinear interpolation.

  Both fill the buffers in the traversal order of one of six slicing
  directions. They quantise every value to a byte index into a 256-entry
  colour table, where 255 means "draw nothing".
- **The compositor** `render_volume`. It walks an interleaved slice list,
  checks each slot, and draws every slice as quad strips, thinned by a
  level-of-detail stride.
- **The non-PEX `draw_volume`**, which in turn:
  1. lists the volume variables;
  2. runs the memory-renewal test;
  3. gathers and invalidates the listed slots;
  4. picks the slicing direction from the modelview and projection matrices;
  5. rebuilds the slots;
  6. interleaves the per-variable slice stacks into one global order and
     composites it.

Modules, in dependency order:

| module | file | contents |
|---|---|---|
| `Radix` | radix.dfy | mixed-radix index arithmetic (`(a * B + b) * C + c`) shared by every buffer and grid index |
| `Quantization` | quantize.dfy | the colour-index quantisation, `LUT_SIZE` |
| `Layout` | layout.dfy | slicing directions, slice shapes, the traversal of each direction and its inverse |
| `Resample` | resample.dfy | neighbour selection, the eight corner reads and the trilinear blend of `compute_volumePRIME` |
| `VolumeSlices` | volume.dfy | the volume slot, the shared triple loop of both builders, vertex placement and level depths |
| `Slicing` | slicing.dfy | the view vector, the slicing direction and the per-variable slice counts |
| `Interleave` | interleave.dfy | the `totalslices` interleaver |
| `Compositor` | render.dfy | `render_volume`: guard, stride, slice start and strip reads |
| `VolumeContext` | context.dfy | the context's slots, `alloc_volume`, `free_volume` and `draw_volume` |

Floating-point values are modelled as mathematical reals. The C cast
`(int)` of a non-negative float is `.Floor`. A grid sample is either
`Missing` (the `IS_MISSING` sentinel) or `Value(v)`.

The six direction cases of each builder share one loop nest over a
(slice, row, column) counter. They differ only in:

- which grid cell a counter triple names (`Layout.CellAt`);
- where the vertex goes (`VolumeSlices.VertexOf`);
- how the colour index is found (`VolumeSlices.Sampler`).

So the model writes that loop once, as `Volume.Fill`. It then proves, for
every direction, that the traversal is a bijection between buffer positions
and grid cells.

## Model

| member | source | states |
|---|---|---|
| Quantization.Quantize | src/volume.c:262-267 | a missing sample, and a sample below min or above max, get colour index 255 |
| Quantization.ScaleFactor | src/volume.c:237 | dscale = (LUT_SIZE - 1) / (max - min) is positive and stretches the range's width to exactly 254 |
| Quantization.QuantizeInRange | src/volume.c:262-267 | an in-range value gets an index in [0, 254] that is the truncation of (v - min) * 254 / (max - min) |
| Quantization.NoContributionIff | src/volume.c:262-267 | for min < max, index 255 is produced exactly when the sample is missing or outside [min, max] (both directions) |
| Quantization.QuantizeEnds | src/volume.c:237-267 | min maps to index 0 and max maps to index 254 |
| Quantization.QuantizeMonotone | src/volume.c:262-267 | a larger in-range value never gets a smaller index |
| Quantization.MidRangeIndex | src/volume.c:267 | the value 50 in [0, 100] gets index 127 |
| Layout.FromCode | src/volume.c:62-67 | each direction code 0..5 names the direction whose code it is |
| Layout.SizeIsGridSize | src/volume.c:241-451 | for every direction, slices * rows * cols of the recorded shape equals nr * nc * nl |
| Layout.SliceShapeRearrangesExtents | src/volume.c:241-451 | the recorded slices, rows and columns are nr, nc and nl in some order |
| Layout.CellAt | src/volume.c:241-451 | the cell a (slice, row, column) counter names is mapped back to that counter by SlotOf |
| Layout.CellAtInGrid | src/volume.c:241-451 | every (slice, row, column) counter triple of a direction's loops names a cell of the grid, and SlotOf takes it back |
| Layout.SlotOfInShape | src/volume.c:241-451 | every grid cell is visited by some counter triple of the slice shape |
| Layout.GridOffsetIsCompose | src/volume.c:252-262 | the data offset il * nr * nc + ic * nr + ir is the mixed-radix number (level, column, row) |
| Layout.GridOffsetRoundTrip | src/volume.c:252-262 | a grid cell's data offset lies in [0, nr * nc * nl) and decodes back to the cell |
| Layout.GridCellRoundTrip | src/volume.c:252-262 | every offset of the data array decodes to a grid cell whose offset it is |
| Layout.PositionRoundTrip | src/volume.c:248-267 | every buffer position j decodes to an in-shape (slice, row, column) whose position is j |
| Layout.SlotRoundTrip | src/volume.c:248-267 | an in-shape (slice, row, column) has a position inside the buffer that decodes back to it |
| Layout.PositionCellInGrid | src/volume.c:241-451 | every buffer position of a built volume stands for a cell of the grid |
| Layout.PositionCellAt | src/volume.c:241-451 | the cell stored at the position of counters (s, r, c) is the cell those loop counters name |
| Layout.TraversalLeftInverse | src/volume.c:241-451 | the grid offset read for buffer position p lies in the grid and is stored back at p |
| Layout.TraversalRightInverse | src/volume.c:241-451 | every grid offset is stored at some buffer position, and that position reads it |
| Layout.TraversalInjective | src/volume.c:241-451 | distinct buffer positions read distinct grid values |
| Layout.SliceOrder | src/volume.c:241-451 | slices advance along the named direction: level up or down, column east or west, row south or north |
| Layout.SliceIsPlanar | src/volume.c:241-451 | all cells of one slice share the sliced coordinate |
| Resample.Neighbours | src/volume.c:550-579 | the lower neighbour is the truncation, the fraction is in [0, 1), both neighbours are in range, and the upper one equals the lower exactly at the last index or at a zero fraction |
| Resample.CornersInGrid | src/volume.c:546-588 | for a point inside the native grid, all eight corner reads lie in [0, Nr * Nc * Nl) |
| Resample.TrilinearIsNestedLerp | src/volume.c:597-604 | the expanded blend is interpolation along rows, then columns, then levels |
| Resample.TrilinearWithin | src/volume.c:597-604 | with fractions in [0, 1], the blend lies between any bounds of its eight corners |
| Resample.OutsideIsNoContribution | src/volume.c:546-549 | a display cell mapped outside the native grid gets index 255 |
| Resample.PastLastRowIsNoContribution | src/volume.c:546-549 | a point one unit past the last native row gets index 255 |
| Resample.MissingCornerIsNoContribution | src/volume.c:590-595 | one missing corner makes the cell's index 255 |
| Resample.PresentCornersGiveColour | src/volume.c:596-611 | eight present corners inside [min, max] give a real colour index in [0, 254] |
| Resample.LatticePointIsDirect | src/volume.c:550-611 | at an exact lattice point, the resampled index is the direct quantisation of that lattice sample |
| VolumeSlices.Spacing | src/volume.c:235-236 | n points spaced dx = (max - min) / (n - 1) put the last point at max |
| VolumeSlices.Shift | src/volume.c:199 | dfrac = volvar * 0.1 / numvolvars lies in [0, 0.1) and is 0 for the first variable |
| VolumeSlices.ShiftIncreasing | src/volume.c:199 | later variables in the volume list are shifted further |
| VolumeSlices.LevelDepths | src/volume.c:203-232 | the zs table has nl entries, each the level height shifted up, down or not at all by dz * dfrac as the direction demands |
| VolumeSlices.ShiftedDepthsInterleave | src/volume.c:199-232 | with evenly spaced levels, the slices of later variables sit strictly higher (bottom to top) or lower (top to bottom) than those of earlier ones, never reaching the next level |
| VolumeSlices.Volume.constructor | src/volume.c:115-132 | a new slot is invalid, records oldnr, oldnc and oldnl, and has buffers for nl * nr * nc points |
| VolumeSlices.Volume.Fill | src/volume.c:239-453 | the slot becomes valid with the direction and shape recorded, and every position p holds the colour index and vertex of the cell the traversal names there; the buffers' tails are unchanged |
| VolumeSlices.Volume.FillSlices | src/volume.c:250-273 | the slice loop stores every (slice, row, column) of the shape in order and leaves the rest of the buffers alone |
| VolumeSlices.Volume.FillSlice | src/volume.c:251-272 | the row loop of one slice extends the stored prefix by one whole slice |
| VolumeSlices.Volume.FillRow | src/volume.c:254-270 | the column loop of one row extends the stored prefix by one row |
| VolumeSlices.Volume.Store | src/volume.c:256-267 | the loop body writes the three vertex coordinates at i = 3j and the colour index at j |
| VolumeSlices.Volume.ComputeVolume | src/volume.c:183-454 | the build of compute_volume: the slot holds, for the chosen direction, the quantisation of the grid value at every traversal position with the vertex of its cell; and the grid value at each offset o lands, quantised, at position PositionOf(o); buffer entries past the build keep their old contents |
| VolumeSlices.Volume.ComputeVolumePrime | src/volume.c:457-1124 | the build of compute_volumePRIME: the same traversal over the display grid, each cell coloured by resampling the native grid at the point the display-to-native map gives; buffer entries past the build keep their old contents |
| VolumeSlices.DirectIndexOfOffset | src/volume.c:250-267 | on the direct path every grid value is stored exactly once, quantised, at the position where it lands |
| VolumeSlices.DirectNoContributionIff | src/volume.c:262-267 | on the direct path, position p holds 255 exactly when the value read there is missing or out of range |
| VolumeSlices.IdentityResamplingIsDirect | src/volume.c:541-611 | resampling through the identity map colours every cell as the direct path does |
| Resample.ResampledIndex | src/volume.c:546-611 | a display cell whose native point lies outside the native grid gets colour index 255 |
| VolumeSlices.LatticeVertex | src/volume.c:241-451 | a cell's vertex is its lattice point (Xmin + ic * dx, Ymax - ir * dy, zs[il]), moved by dfrac of a step along the sliced axis only, in the direction of travel |
| VolumeSlices.VertexShiftAlongAxis | src/volume.c:199-237 | side-on directions keep every level at its own height, and the first variable is never shifted |
| VolumeSlices.LevelDepth | src/volume.c:203-232 | side-on directions, and a shift of 0, give each level its own height |
| Slicing.ThirdColumnLinear | src/volume.c:1605-1610 | the view vector (third column of ctm * proj) scales with the projection |
| Slicing.SliceAxis | src/volume.c:1613-1640 | the chosen axis has the component of largest magnitude, and ties go to x, then y, then z |
| Slicing.DirectionPolarity | src/volume.c:1616-1640 | the direction travels the chosen axis, and it is west to east, south to north or bottom to top exactly when that component is negative |
| Slicing.ReversedViewReversesDirection | src/volume.c:1616-1640 | negating the view vector reverses the direction of travel |
| Slicing.NegatedProjectionReversesDirection | src/volume.c:1605-1640 | negating the projection matrix reverses the direction of travel |
| Slicing.ScalingKeepsDirection | src/volume.c:1613-1640 | a positive multiple of the view vector gives the same slicing direction: the axis of largest magnitude and the sign tests do not change |
| Slicing.ScaledProjectionKeepsDirection | src/volume.c:1605-1640 | scaling the projection matrix by a positive factor leaves the slicing direction unchanged |
| Slicing.SliceDirection | src/volume.c:1613-1640 | the direction travels along the axis SliceAxis chooses |
| Slicing.MaxCount | src/volume.c:1645-1650 | largestslice bounds every count and is one of them (or 0 for no variables) |
| Slicing.SliceCounts | src/volume.c:1616-1658 | numslicepervar is nc along x, nr along y, and along z each variable's own Nl on the same grid (largest their maximum) or the display Nl |
| Slicing.CountIsShapeSlices | src/volume.c:1616-1658 | a variable's slice count is the number of slices its build in that direction records |
| Slicing.ChooseSlicing | src/volume.c:1603-1658 | the direction branch: the direction the view vector selects, with its counts and largestslice bounding them |
| Interleave.LocalSliceAsWritten | src/volume.c:1753-1755 | where the division is defined, the local slice lies in [0, n - 1] |
| Interleave.LocalSlice | src/volume.c:1749-1757 | the local slice is a slice of the variable, and it agrees with the source's formula whenever largestslice is at least 2 |
| Interleave.SingleSliceDividesByZero | src/volume.c:1638-1656 | a single variable whose grid has one level, on the same grid and viewed along z, makes largestslice 1 and the divisor 0 |
| Interleave.LocalSliceMonotone | src/volume.c:1753-1755 | later rounds never go back to an earlier local slice |
| Interleave.LocalSliceEnds | src/volume.c:1753-1755 | round 0 draws slice 0 and the last round draws slice n - 1 |
| Interleave.ClampIsIdle | src/volume.c:1755 | over the rounds below largestslice, the clamp to n - 1 never changes the value |
| Interleave.LocalSliceStep | src/volume.c:1753 | consecutive rounds advance by at most one slice |
| Interleave.EverySliceDrawn | src/volume.c:1749-1763 | every slice of every variable is drawn in some round |
| Interleave.FourIntoEight | src/volume.c:1753 | four slices spread over eight rounds give 0, 0, 0, 1, 1, 2, 2, 3 |
| Interleave.BuildSliceList | src/volume.c:1670-1764 | the list has V * largestslice entries, and entry e is (local slice of round e / V for variable e % V, variable e % V), with local slices from the corrected Interleave.LocalSlice of "## Findings" (slice 0 when largestslice is 1, where the source divides by zero) |
| Interleave.ListRound | src/volume.c:1750-1763 | one round appends one entry per variable, in list order |
| Compositor.Stride | src/volume.c:1215-1223 | the stride is VStride when fast drawing is on and VStride is positive, and 1 when fast drawing is off or VStride is zero or negative; it is never below 1 |
| Compositor.SliceStartIsSliceBase | src/volume.c:1234-1236 | s * (rows - 1) * cols plus the skipped row s * cols is the start of slice s |
| Compositor.SliceStart | src/volume.c:1234-1236 | the start of slice s is s * (rows * cols), the first byte of slice s |
| Compositor.StripReadsInSlice | src/volume.c:1230-1269 | strip i joins buffer rows i * stride and (i + 1) * stride of slice s at column j * stride, and every read stays inside slice s |
| Compositor.UnitStrideCoversSlice | src/volume.c:1230-1269 | with stride 1 every position of a slice is drawn by some strip |
| Compositor.AlternatingReads | src/volume.c:1263-1268 | the vertices of a strip alternate between the lower and the upper row, column sample by column sample |
| Compositor.RenderVolumes | src/volume.c:1168-1275 | with the corrected Compositor.Guard of "## Findings" (a slot must also be valid): the compositor succeeds exactly when every listed entry's slot is drawable, stops at the first that is not, and draws entry e as the strips of slice local[e] of its variable |
| Compositor.RenderSlice | src/volume.c:1230-1274 | a slice is drawn as rows1 strips |
| Compositor.RenderStrip | src/volume.c:1262-1270 | a strip is the lower and upper vertex of each of cols1 column samples |
| Compositor.ReadSample | src/volume.c:1238-1268 | column sample j of strip i reads the lower row at i * stride and the upper row one stride further on, both inside the buffers |
| Compositor.ReadPoint | src/volume.c:1264-1268 | a strip vertex is ctable[index[p]] with the vertex at p |
| Compositor.StaleSlotPassesGuard | src/volume.c:1183 | an invalid slot that keeps an earlier shape passes the source's test, and that can lead to a read beyond its buffer: for example a 16-byte slot of 2 slices of 2 x 4 asked for slice 3 (a stale slot asked for a slice within its old shape reads stale data inside its buffer instead) |
| VolumeContext.StaleSlotAfterMissingGrid | src/volume.c:1183 | a slot built bottom to top and then invalidated by a frame with a missing grid keeps its earlier shape, passes the source's test but not the corrected one, and the slice round 3 of that frame asks for starts past its buffer |
| Compositor.Guard | src/volume.c:1183 | the corrected test passes only slots the source's test passes, and the two agree on valid slots |
| VolumeContext.ListVolumeVars | src/volume.c:1472-1491 | with multi-volume rendering, the list holds exactly the displayed variables below NumVars, in increasing order; otherwise it holds the current volume variable alone |
| VolumeContext.InitialHistory | src/volume.c:1430-1445 | before the first frame no variables are remembered, the time step is -1 and prev_ip is -1 throughout; the source sets only entry 0 when multi-volume rendering is not compiled in, and then lists a single variable, so only entry 0 is ever compared |
| VolumeContext.Renew | src/volume.c:1498-1519 | the new history records the count and the time step |
| VolumeContext.QuietFrameKeepsHistory | src/volume.c:1498-1519 | a frame with the remembered count, time step and list renews nothing and changes nothing |
| VolumeContext.KeptOnlyWhenSame | src/volume.c:1498-1519 | memory is kept only when count, time step and list all match what was remembered |
| VolumeContext.RepeatedFrameSettles | src/volume.c:1498-1519 | the same frame repeated renews nothing on the third test |
| VolumeContext.CountChangeRenewsTwice | src/volume.c:1498-1519 | for example, going from one variable (5) to two (2, 3) at the same time step renews on two consecutive identical frames, because prev_ip is not updated on the first |
| VolumeContext.CountChangeRenewsAgainUnlessMatching | src/volume.c:1498-1519 | a change in count or time step always renews, and the next identical frame renews again exactly when the list differs from the prev_ip the first frame left unchanged |
| VolumeContext.ShrinkToPrefixRenewsOnce | src/volume.c:1498-1519 | turning off the last of two variables ([2, 3] to [2]) renews only once, since the stale prev_ip[0] already matches |
| VolumeContext.FirstFrameRenews | src/volume.c:1498-1507 | the first frame always renews |
| VolumeContext.Invalidate | src/volume.c:1548-1558 | every listed slot is marked invalid, and its direction and slice shape (dir, slices, rows, cols) are kept; nothing outside the slots changes |
| VolumeContext.ComputeOne | src/volume.c:1705-1733 | a slot is rebuilt, by compute_volume on the same grid or compute_volumePRIME otherwise, exactly when its direction differs or it is invalid and its grid is available; otherwise it is untouched |
| VolumeContext.ComputeAll | src/volume.c:1705-1734 | after the build loop every listed slot holds its variable's build for this frame's direction, or stays invalid when its grid is missing |
| VolumeContext.DrawableSlot | src/volume.c:1713-1733 | after the build step a slot is drawable, under the corrected Compositor.Guard of "## Findings" (valid and holding slices), exactly when its grid was available, and then its shape fits its buffers and its slice count is numslicepervar; the source's test would also pass a slot invalidated this frame |
| VolumeContext.SlotsDrawable | src/volume.c:1705-1733 | the same, for every listed slot at once |
| VolumeContext.ListFitsSlots | src/volume.c:1745-1776 | the interleaved list meets the compositor's demands: owners are list positions, and local slices are below the owner's slice count |
| VolumeContext.CompositedFromList | src/volume.c:1749-1776 | the compositor's result read back per variable: entry e is slice LocalSlice(e / V) of variable e % V |
| VolumeContext.EveryVariableListed | src/volume.c:1749-1763 | every variable owns an entry of a non-empty list |
| VolumeContext.BuildFrame | src/volume.c:1575-1734 | the direction branch and the build loop: slicing chosen from the view, and every slot built for it |
| VolumeContext.CompositeFrame | src/volume.c:1670-1776 | the totalslices setup and render call, with the corrected Compositor.Guard and Interleave.LocalSlice of "## Findings": the frame is composited over the built slots, and it succeeds exactly when every variable had a grid |
| VolumeContext.DrawVolumes | src/volume.c:1575-1776 | one frame after invalidation: slicing, builds and compositing together, with the corrected Compositor.Guard and Interleave.LocalSlice of "## Findings" |
| VolumeContext.DrawListed | src/volume.c:1548-1776 | invalidate the listed slots, return with nothing drawn when no variable is listed, and draw otherwise |
| VolumeContext.Context.constructor | src/volume.c:1430-1445 | a context starts with empty slots and the history draw_volume sets up on its first call |
| VolumeContext.Context.AllocVolume | src/volume.c:80-146 | no slot and VolRender off for the cylindrical and spherical projections, for nl <= 1, without blending or without memory; otherwise a fresh invalid slot of nl * nr * nc points with VolRender on |
| VolumeContext.Context.FreeVolume | src/volume.c:148-168 | the slots of the first min(NumVars, MAXVOLUMEVARS) variables become empty, and the others are kept |
| VolumeContext.Context.CheckRenew | src/volume.c:1498-1519 | the renew result and the new history are those of Renew on the remembered history |
| VolumeContext.Context.PrepareFrame | src/volume.c:1472-1526 | the volume-variable list and the renew test of one frame |
| VolumeContext.Context.GatherSlots | src/volume.c:1531-1542 | the slots of the listed variables, or missing exactly when one of them has no slot |
| VolumeContext.Context.DrawFrame | src/volume.c:1531-1776 | the frame exits exactly when a listed variable has no slot, draws nothing exactly when nothing is listed, and otherwise draws as DrawVolumes states (with the corrected Compositor.Guard and Interleave.LocalSlice of "## Findings") |

## Left out

- Graphics calls are not modelled: blending set-up, `glBegin`/`glEnd`, `cpack`, `glColor4ubv`, `glVertex3fv` and the matrix reads. A drawn frame is the sequence of strip vertices (`Compositor.StripPoint`). The matrices are parameters.
- The PEX builds of `draw_volume` (src/volume.c:1301) and `render_volume` (src/volume.c:1198-1211) are left out. So are the PEX field `v->dir = -1` and the `GD_BLEND` query, whose answer is the `canBlend` parameter of `AllocVolume`.
- The SGI GL strip path (src/volume.c:1249-1257) is left out. It passes the vertex array at offset `i*stride*cols+j*stride` without the factor 3 that the OpenGL path uses. The model draws the OpenGL path.
- `renew_volume_memory`, `get_grid`, `release_grid`, `gridlevel_to_z` and `gridPRIME_to_grid` are code outside this file.
  - `renew_volume_memory` is not part of this model. `PrepareFrame` reports whether it would be called, and `DrawFrame` takes the slots as they are afterwards.
  - The other four are inputs: `VarInput.grid` is `None` for a null grid, `levelZ` gives the level heights, and `toNative` is the display-to-native map.
  - Grid release, memory accounting in `allocate`/`deallocate`, and `free` are not modelled.
- `exit(1)` on a listed variable without a slot is the `Exited` outcome. The failed `totalslices` allocation (src/volume.c:1684-1687) is not modelled.
- Floating point is modelled as exact real arithmetic. Float rounding, the float-to-byte store and NaN are not modelled.
- Quantization.Quantize: when min == max and the value equals min, the source computes 0 * infinity and casts NaN to an integer, which is undefined. The model returns index 0 there. Every property proved about quantisation assumes min < max.
- VolumeSlices.Spacing: for an axis of a single point the source divides by zero. The model uses spacing 0, so it does not capture the infinite or NaN coordinates that would result.
- `MULTIVOLUMERENDER` is the `multi` flag of `ListVolumeVars`. `MAXVOLUMEVARS` is a parameter of `FreeVolume`. `MAXVARS` is the slot count given to the `Context` constructor. These constants are defined in headers that are not part of this model.
- The per-context static arrays `prevvolumevarnum`, `prev_it` and `prev_ip` are fields of each `Context`, because the source indexes them by context. The one-time `do_once` set-up is the constructor.
- Per-variable inputs (`VarInput`, colour tables) are indexed by list position rather than by variable number. `ListVolumeVars` gives the map between the two.
- AllocVolume: when buffer allocation fails, the source returns NULL but does not free the struct it already allocated. The model does not capture that leak.
- VolumeContext.DrawVolumes: draws with the corrected Compositor.Guard and Interleave.LocalSlice of "## Findings", not the source's test and formula. It does not model the source's draw of an invalid slot that still holds slices, whether from an earlier build or never built (`alloc_volume` leaves `slices` uninitialised, src/volume.c:115-132), nor its division by zero when largestslice is 1.
- VolumeContext.CompositeFrame: composites with the corrected guard and local-slice formula, as DrawVolumes does.
- VolumeContext.DrawListed: draws through DrawVolumes, with the corrected guard and local-slice formula.
- VolumeContext.Context.DrawFrame: draws through DrawListed, with the corrected guard and local-slice formula.
- VolumeContext.DrawableSlot: states drawability under the corrected Compositor.Guard; the source's test also passes a slot invalidated this frame.
- VolumeContext.SlotsDrawable: as DrawableSlot, for every listed slot.
- VolumeContext.ListFitsSlots: stated for the list built with the corrected Interleave.LocalSlice.
- VolumeContext.CompositedFromList: stated for the corrected Interleave.LocalSlice.
- Interleave.BuildSliceList: builds the list with the corrected Interleave.LocalSlice; the formula as written is `Interleave.LocalSliceAsWritten`.
- Compositor.RenderVolumes: draws with the corrected Compositor.Guard of "## Findings", not the source's test, so it does not model the source's draw of an invalid slot that still holds slices.
- Compositor.Stride: takes one `fastdraw` flag per frame. The source asks `vis5d_check_fastdraw` for every list entry and sets `stride` only when fast drawing is on, so a stride from an earlier entry would survive if fast drawing turned off mid-frame; nothing in the loop changes the flag, so the model does not capture that case.
- Spatial ordering of whole slices across variables is covered through the level depths (`ShiftedDepthsInterleave`) and the interleaved list order. No lemma compares the vertices of different variables' slices directly.

## Findings

| source | as written | input that shows it | evidently intended | confidence | as-written member | corrected member |
|---|---|---|---|---|---|---|
| src/volume.c:1753 | the local slice is computed as `sliceorig*(numslicepervar[volvar]-1)/(largestslice-1)` for every largestslice | largestslice is 1, for example one variable whose grid has a single level, drawn on its own grid and viewed along z; whether draw_volume can receive such a variable is open, since alloc_volume refuses grids of at most one level (src/volume.c:90-93) | when largestslice is 1, every round draws local slice 0 | not executed | Interleave.SingleSliceDividesByZero | Interleave.LocalSlice |
| src/volume.c:1183 | the compositor draws a slot whenever `v->slices` is non-zero, even when `v->valid` is 0 because `get_grid` returned no data this frame | a slot built bottom to top with nr = 2, nc = 4, nl = 2 (16 bytes), whose grid is missing in a frame sliced along x with nc = 4: round 3 asks for slice 3, which starts at byte 24 | only slots built this frame are drawn | not executed | VolumeContext.StaleSlotAfterMissingGrid | Compositor.RenderVolumes |

For the first row:

- `Interleave.LocalSliceAsWritten` is the formula as written.
- `Interleave.LocalSlice` uses slice 0 when largestslice is 1.
- `Interleave.EverySliceDrawn`, `LocalSliceMonotone` and `LocalSliceEnds` prove the intended properties of the corrected definition.

For the second row:

- `Compositor.GuardAsWritten` is the source's test. `Compositor.StaleSlotPassesGuard` states the failing slot state directly, and `VolumeContext.StaleSlotAfterMissingGrid` reaches it through `AllocVolume`'s slot constructor, `ComputeOne`, `Invalidate` and a second `ComputeOne` with no grid.
- `Compositor.Guard`, used by `RenderVolumes`, also requires the slot to be valid.
- `VolumeContext.DrawableSlot` and `Compositor.StripReadsInSlice` then show that every read stays inside its slice.

The model follows the code where the system's own description differs:

- The colour index truncates (`(int)`); it does not round. The value 50 in [0, 100] gets 127, and max gets 254 (`QuantizeEnds`).
- Four slices spread over eight rounds come out as 0, 0, 0, 1, 1, 2, 2, 3 (`FourIntoEight`). They are not each repeated twice.
- A slot with zero slices, or a null slot, stops the compositor after the entries before it have been drawn. So part of a frame may be drawn.
