# ng-graphs axes controller, modelled in Dafny

This project models the core of the `ngGraphs` charting widget: the axes controller
(`AxesCtrl` in `src/graphs.ts`) and the marks it hosts, plus the earlier, simpler controller
of the `ngPlot` module (`src/axes.ts`). The controller

- fills in its options with defaults;
- derives the pixel ranges of the two linear scales and the clip rectangle from the width, the
  height and a four-element padding;
- keeps a registry of children (draw functions) in which removal leaves a hole, so indices
  handed out never shift;
- stores, per slot, the handle (the list of DOM nodes) the child's last draw call returned;
- re-appends every handle's nodes to the drawing region in index order to restore the
  z-order after an incremental redraw.

Files:

- `wrappers.dfy`: `Option`.
- `dom.dfy`: the children of the clipped drawing region, as a list of node ids. It provides
  `Without`, which models `selection.remove()`, and `AppendChild`, which models DOM
  `appendChild`.
- `slots.dfy`: the slot registry and the handles map. It covers the live-slot enumeration of
  `for (var i in children)`, the tombstone left by `delete`, the handles concatenated in slot
  order, and the facts about one full drawing pass.
- `layout.dfy`: the configuration, the defaults, the pixel ranges, the clip rectangle, and the
  steps of a render pass.
- `graphs.dfy`: `Graphs.AxesCtrl` (a class over the registry, the handles and the region),
  `Line`, `Plot` and `Func`.
- `axes.dfy`: `Axes.AxesCtrl`, the earlier controller.

Draw functions and D3 are foreign code. A draw call is represented by the list of fresh nodes
it appends to the drawing region and returns; that list is a parameter of `DrawChild`,
`RedrawChild`, `DrawChildren` and `Render`. "Fresh" means the nodes have no repeats and are
in neither the region nor any stored handle (`Fresh`, `FreshBatch`). `Valid()` is the
controller's invariant:

- only live slots have a handle;
- no node is in two handles, or twice in one;
- the region has no repeated child.

Points where the code behaves differently from what its names or comments suggest:

- `drawChild(i)` on a removed or out-of-range slot throws a `TypeError`, because
  `children[i]` is then undefined (`src/graphs.ts:162`). No state has changed at that point,
  because such a slot never has a handle. The model returns `ok == false` with the state
  unchanged.
- `Func.setData` computes a per-pixel sample count from the x scale's range
  (`src/graphs.ts:373-374`), but `var N = 100` (`src/graphs.ts:376`) overwrites it, so there
  are always 101 samples.
- `Func.xRange`/`yRange` and `Plot.xRange`/`yRange` return `[0, 0]`.
- Both scales are linear, and nothing scales the axes to the data automatically:
  `setOptions` falls back to the domain `[-1, 1]`, and no controller method calls a child's
  `xRange`/`yRange`.

## Model

| member | source | states |
|---|---|---|
| Graphs.AxesCtrl.SetOptions | src/graphs.ts:130-144 | padding is always `[30,30,30,30]`; with no options both domains are `[-1,1]` and both labels `""`; with options each of the two domains and two labels independently takes the configured value or its default |
| Graphs.AxesCtrl.DrawAxes | src/graphs.ts:113-124 | the clip rectangle (`Layout.ClipRect`) is `x = p[3]`, `y = p[0]`, `width = width - p[1] - p[3]`, `height = height - p[0] - p[2]`, and a new, empty drawing region is started |
| Graphs.AxesCtrl.Prepare | src/graphs.ts:61-74 | the part of `render` before the children: options reset as `SetOptions` states, the scene cleared, scales `x: [p[3], width - p[1]]` and inverted `y: [height - p[2], p[0]]`, the clip, an empty drawing region, and the steps options, scene cleared, scales, axes in that order |
| Graphs.AxesCtrl.Render | src/graphs.ts:61-77 | options are reset as `SetOptions` states; scales `x: [p[3], width - p[1]]` and inverted `y: [height - p[2], p[0]]` over the two domains; the clip; the step order options, scene cleared, scales, axes, then one draw per live slot in ascending order; afterwards the handles are exactly the new draw results and the region holds exactly them, in slot order |
| Graphs.AxesCtrl.constructor | src/graphs.ts:147-148 | starts with no children, no handles and an empty region, satisfying the invariant |
| Graphs.AxesCtrl.AddChild | src/graphs.ts:150-152 | returns the old length; the children are the old ones followed by the new child, so earlier slots are unchanged; the handles and the invariant are kept |
| Graphs.AxesCtrl.RmChild | src/graphs.ts:153-157 | the slot's handle (if any) leaves the region and the handles, and a slot without a handle leaves the region as it was; the slot becomes a hole and all other slots and the length are unchanged; an out-of-range or removed index changes nothing |
| Graphs.AxesCtrl.UndrawChild | src/graphs.ts:187-192 | a slot with a handle loses it and its nodes leave the region, other nodes keeping their order; a slot without one changes nothing |
| Graphs.AxesCtrl.DrawChild | src/graphs.ts:159-163 | succeeds exactly for a live slot; then the slot's old handle leaves the region, the new nodes are appended, and the slot's handle is exactly the new nodes while every other slot's handle is untouched; otherwise nothing changes |
| Graphs.AxesCtrl.ReorderElements | src/graphs.ts:165-175 | the region becomes its other nodes in their old order followed by every handle's nodes in ascending slot order; every handle is then in the region; when every handle was in the region before, the set of nodes is unchanged; that condition holds after construction, `Render` and `DrawChildren`, and the operations on single children keep it |
| Graphs.AxesCtrl.RedrawChild | src/graphs.ts:177-180 | `DrawChild` followed by `ReorderElements`: the slot's handle is the new nodes, and the region ends with all handles in ascending slot order |
| Graphs.AxesCtrl.DrawChildren | src/graphs.ts:182-185 | calls `DrawChild` exactly once per live slot, in ascending slot order, and never for a hole; afterwards the handles are exactly the new draw results and the region is its old contents without the old handles followed by the new handles in slot order |
| Layout.XPixelRange | src/graphs.ts:65-71 | the x range is `[p[3], width - p[1]]` |
| Layout.YPixelRange | src/graphs.ts:65-73 | the y range is inverted: `[height - p[2], p[0]]` |
| Layout.ClipSpansScaleRanges | src/graphs.ts:118-121 | the clip rectangle's left and right edges are the ends of the x range, and its top and bottom edges are the ends of the y range |
| Layout.DrawStepsSpec | src/graphs.ts:182-185 | the draw steps of a pass are one `ChildDrawn(i)` per called index, in the order of the calls |
| Dom.WithoutSpec | src/graphs.ts:189 | after `selection.remove()` exactly the region's nodes not in the selection remain, with no repeats if there were none |
| Dom.AppendChild | src/graphs.ts:172 | the node ends up last; the region's node set gains exactly that node; a node already present is moved, not duplicated |
| Slots.Tombstone | src/graphs.ts:156 | `delete children[i]` keeps the length and every other slot and makes slot `i` a hole; an index outside the array changes nothing |
| Slots.LiveSlotsSpec | src/graphs.ts:183 | `for (var i in children)` visits exactly the slots holding a child, each once, in strictly ascending order |
| Slots.LiveSlotsPush | src/graphs.ts:151 | after `push`, the live slots are the old ones followed by the new index |
| Slots.PassRegionClosed | src/graphs.ts:182-185 | part-way through a drawing pass the region is its old contents without the old handles of the slots done, followed by their new handles in slot order |
| Slots.PassDrawnMerge | src/graphs.ts:182-185 | part-way through a drawing pass the slots done hold their new handle and the others their old one |
| Slots.PassLive | src/graphs.ts:182-185 | when a live slot is drawn during the pass, it still holds its old handle, and its new nodes are new to the current region and handles |
| Slots.PassEnd | src/graphs.ts:182-185 | after the pass every slot holds its new handle and the region is the old contents without the old handles, followed by the new handles |
| Slots.HandleStored | src/graphs.ts:159-163 | undrawing a slot and storing fresh nodes as its handle keeps the region and the handles free of repeats |
| Graphs.Line.XRange | src/graphs.ts:259-261 | the x range runs from the x coordinate of the segment's start to that of its end, and contains the x coordinate of every point on the segment |
| Graphs.Line.YRange | src/graphs.ts:262-264 | the y range runs from the y coordinate of the segment's start to that of its end, and contains the y coordinate of every point on the segment |
| Graphs.LineWithinRanges | src/graphs.ts:259-264 | the x and y ranges of a line are its extent: the point at fraction 0 is the start and at fraction 1 the end, and every point of the segment lies within both ranges, whichever way the line runs |
| Graphs.LerpWithin | src/graphs.ts:259-264 | a value a fraction `t` of the way from `a` to `b` lies between them, whichever is larger |
| Graphs.Plot.constructor | src/graphs.ts:290-292 | the constructor calls `setData`: the data are the bound data, or no points when none are bound |
| Graphs.Plot.SetData | src/graphs.ts:295-297 | the data are the bound data when there are some, otherwise `[]` |
| Graphs.Plot.XRange | src/graphs.ts:325-328 | always `[0, 0]`, whatever the data |
| Graphs.Plot.YRange | src/graphs.ts:329-332 | always `[0, 0]`, whatever the data |
| Graphs.Func.SetData | src/graphs.ts:368-384 | the data are the samples of `f` at 101 evenly spaced x positions across the axes' x domain, or across `[0, 1]` without axes, whatever the x scale's pixel range |
| Graphs.Func.constructor | src/graphs.ts:363-366 | stores `f`, then `setData` runs without axes: 101 samples across `[0, 1]` |
| Graphs.PixelSpanSpec | src/graphs.ts:374 | the per-pixel sample count `Math.abs(range[0] - range[1])` does not depend on which way the range runs and is the non-negative difference of the x range's ends; `Func.setData` overwrites it at line 376 |
| Graphs.SamplesSpec | src/graphs.ts:379-381 | the loop's `k` samples are the points `(x_i, f(x_i))` for `i = 0, ..., k - 1` with `x_i = (d[1] - d[0]) * i / N + d[0]` |
| Graphs.SampleEnds | src/graphs.ts:380 | the first x position is `d[0]`, the last is `d[1]`, and consecutive positions are `(d[1] - d[0]) / N` apart |
| Graphs.FuncSampleShape | src/graphs.ts:368-384 | `setData` stores exactly 101 points, the first at `domain[0]`, the last at `domain[1]`, each carrying `f`'s value at its x |
| Axes.AxesCtrl.SetOptions | src/axes.ts:94-108 | padding is always `[30,30,30,30]`; with no options the domains are `[-1,1]` and the labels `""`; with options each field falls back to its default independently |
| Axes.AxesCtrl.Render | src/axes.ts:39-55 | options as `SetOptions` states; scales `x: [p[3], width - p[1]]` and inverted `y: [height - p[2], p[0]]`; the step order options, scene cleared, scales, axes, then one draw per live slot in ascending order |
| Axes.AxesCtrl.constructor | src/axes.ts:111 | starts with no children |
| Axes.AxesCtrl.AddChild | src/axes.ts:113-115 | returns the old length; the children are the old ones followed by the new child |
| Axes.AxesCtrl.RmChild | src/axes.ts:116-118 | the slot becomes a hole without shifting later slots or changing the length; an out-of-range index changes nothing |
| Axes.AxesCtrl.DrawChildren | src/axes.ts:120-123 | invokes every live child exactly once, in ascending index order, skipping holes |

## Left out

- AngularJS wiring is not modelled: directives, `link` functions, `$watch`/`$apply`, the
  resize listener and `offsetWidth` measurement.
- D3 is not modelled. The scale mapping, axis painting, the path generator and SVG attributes
  are foreign. A scale is recorded as its domain and pixel range, and a draw call as the
  nodes it returns. The models of the two `render` methods record what they draw as a
  sequence of steps.
- Numbers are idealised: pixel values as unbounded integers and data values as reals. Floating
  point rounding, `NaN` and infinities are not modelled.
- Draw results come in as parameters, so freshness of the returned nodes is a precondition
  rather than a property of D3. The draw functions of `Line`, `Plot` and `Func` (their
  stroke and colour defaults and their painting) are not modelled.
- The histogram mark and its `d3.layout.histogram` binning are not modelled.
- `Func.xRange`/`yRange` are not modelled. They return `[0, 0]` like `Plot`'s.
- `Plot.setData`'s unused `axes` parameter is dropped. JavaScript's `||` treats every falsy
  `data` value as absent; it is modelled as `None`.
- Before the first `render`, the source leaves some fields of `Graphs.AxesCtrl` undefined:
  `padding`, `xDomain`, `yDomain`, `xLabel`, `yLabel`, `xScale`, `yScale` and
  `drawingRegion`. The same goes for the `$scope` fields of `Axes.AxesCtrl`. `children` and
  `drawnElements` start as `[]` (`src/graphs.ts:147-148`, `src/axes.ts:111`). The
  constructors give the undefined fields default values: an empty region, the default
  domains and padding, empty labels and zero pixel ranges.
- Graphs.AxesCtrl.DrawChild: before the first `render`, a draw on a live slot throws in the
  source, because the draw function calls `append` on the undefined `drawingRegion`. The
  model succeeds and appends to the empty region. `RedrawChild` and `DrawChildren` inherit
  this difference.
- Graphs.AxesCtrl.ReorderElements: before the first `render`, the source throws when it
  reads `drawingRegion[0][0]` (`src/graphs.ts:167`). The model reorders whatever handles
  its own draws have placed in the region before the first `render`. In the source there
  are no such handles, because `drawChild` throws first.
- Graphs.Func.SetData: with axes that have not been rendered, the source throws at
  `axes.xScale.range()` (`src/graphs.ts:373`). The model reads the default zero range.
- Graphs.AxesCtrl.ReorderElements: "the set of nodes is unchanged" is stated under the
  condition `HandlesInRegion()`, that every handle is in the region. The constructor,
  `Render` and `DrawChildren` establish that condition. `AddChild`, `RmChild`, `UndrawChild`,
  `DrawChild`, `RedrawChild` and `ReorderElements` keep it. `Prepare` and `DrawAxes` do not
  keep it: they are the part of `render` before the children are drawn, and they start an
  empty region while the old handles are still stored, as the source does
  (`src/graphs.ts:123`). The drawing pass that follows re-establishes it.
- Graphs.AxesCtrl.DrawChild: the `TypeError` the source throws for a removed or
  out-of-range index is modelled as `ok == false`. The state is unchanged, as it is when the
  source throws.
- Graphs.AxesCtrl.Render: the drawing pass has a precondition that the new nodes are fresh
  with respect to the handles stored before the pass. The nodes detached by the scene clear
  are still named by those stale handles.
