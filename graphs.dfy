/** The axes controller of the `ngGraphs` module and the marks it hosts. The controller owns a
    registry of children (their draw functions), the handle each child's last draw call returned,
    the drawing region those handles live in, and the scales and clip rectangle of the last
    render. Draw functions and D3 are foreign: a draw call is represented by the list of fresh
    nodes it appends to the drawing region and returns. */
module Graphs {
  import opened Wrappers
  import opened Dom
  import opened Slots
  import opened Layout

  class AxesCtrl<D> {
    /** The children of the clipped drawing region (`drawingRegion`). */
    var region: seq<NodeId>
    var xDomain: Range
    var yDomain: Range
    var xScale: LinearScale
    var yScale: LinearScale
    var padding: Padding
    var xLabel: string
    var yLabel: string
    var clip: Rect
    /** `children`: one slot per `addChild`, `None` once removed. */
    var children: seq<Option<D>>
    /** `drawnElements`: slot index to the nodes its draw call returned. */
    var drawn: map<int, seq<NodeId>>

    /** The drawn handles, slot by slot in ascending index order. */
    function DrawnInOrder(): seq<NodeId>
      reads this`drawn, this`children
    {
      InOrder(drawn, 0, |children|)
    }

    ghost predicate Live(index: int)
      reads this`children
    {
      0 <= index < |children| && children[index].Some?
    }

    /** Only live slots have a handle; no node is in two handles or twice in one; and the
        region has distinct children. */
    ghost predicate Valid()
      reads this`region, this`drawn, this`children
    {
      && Distinct(region)
      && (forall k :: k in drawn ==> 0 <= k < |children| && children[k].Some?)
      && Distinct(DrawnInOrder())
    }

    /** What a draw call returns: nodes it has just created, none of them twice, so none of
        them already in the region or in a handle. */
    ghost predicate Fresh(nodes: seq<NodeId>)
      reads this`region, this`drawn, this`children
    {
      Distinct(nodes) && Disjoint(nodes, region) && Disjoint(nodes, DrawnInOrder())
    }

    /** What a full drawing pass returns: fresh nodes for every live slot, no node twice. */
    ghost predicate FreshBatch(produced: map<int, seq<NodeId>>)
      reads this`region, this`drawn, this`children
    {
      var all := InOrder(produced, 0, |children|);
      Distinct(all) && Disjoint(all, region) && Disjoint(all, DrawnInOrder())
    }

    /** Every node of every handle is a child of the region. The constructor, `DrawChildren`
        and `Render` establish it, and the operations on single children keep it. `Prepare` and
        `DrawAxes`, the part of `Render` before the children are drawn, start an empty region
        while the old handles are still stored, so they do not keep it. */
    predicate HandlesInRegion()
      reads this`region, this`drawn, this`children
    {
      forall n :: n in DrawnInOrder() ==> n in region
    }

    constructor ()
      ensures Valid() && HandlesInRegion()
      ensures children == [] && drawn == map[] && region == []
    {
      region := [];
      xDomain, yDomain := DefaultDomain, DefaultDomain;
      padding := DefaultPadding;
      xScale := LinearScale(DefaultDomain, (0, 0));
      yScale := LinearScale(DefaultDomain, (0, 0));
      xLabel, yLabel := "", "";
      clip := Rect(0, 0, 0, 0);
      children := [];
      drawn := map[];
    }

    /** Padding is always reset; each of the domains and labels takes the configured value when
        there is one and its default otherwise, independently of the others. */
    method SetOptions(opts: Option<AxesConfig>)
      modifies this`padding, this`xDomain, this`yDomain, this`xLabel, this`yLabel
      ensures padding == DefaultPadding
      ensures xDomain == if opts.Some? && opts.value.xDomain.Some? then opts.value.xDomain.value else DefaultDomain
      ensures yDomain == if opts.Some? && opts.value.yDomain.Some? then opts.value.yDomain.value else DefaultDomain
      ensures xLabel == if opts.Some? && opts.value.xLabel.Some? then opts.value.xLabel.value else ""
      ensures yLabel == if opts.Some? && opts.value.yLabel.Some? then opts.value.yLabel.value else ""
    {
      padding := DefaultPadding;
      if opts.Some? {
        xDomain := opts.value.xDomain.GetOr(DefaultDomain);
        yDomain := opts.value.yDomain.GetOr(DefaultDomain);
        xLabel := opts.value.xLabel.GetOr("");
        yLabel := opts.value.yLabel.GetOr("");
      } else {
        xDomain := DefaultDomain;
        yDomain := DefaultDomain;
        xLabel := "";
        yLabel := "";
      }
    }

    /** Draws the axis chrome (foreign), sets the clip rectangle and starts a new, empty drawing
        region. */
    method DrawAxes(width: int, height: int)
      modifies this`clip, this`region
      ensures clip == ClipRect(width, height, padding)
      ensures region == []
    {
      clip := ClipRect(width, height, padding);
      region := [];
    }

    /** The steps of `render` before the children are drawn: options, clearing the scene, the
        scales and the axes. The scene clear detaches the old drawing region, and `drawAxes`
        starts a new, empty one. */
    method Prepare(opts: Option<AxesConfig>, width: int, height: int) returns (steps: seq<RenderStep>)
      modifies this`padding, this`xDomain, this`yDomain, this`xLabel, this`yLabel
      modifies this`xScale, this`yScale, this`clip, this`region
      ensures padding == DefaultPadding
      ensures xDomain == if opts.Some? && opts.value.xDomain.Some? then opts.value.xDomain.value else DefaultDomain
      ensures yDomain == if opts.Some? && opts.value.yDomain.Some? then opts.value.yDomain.value else DefaultDomain
      ensures xLabel == if opts.Some? && opts.value.xLabel.Some? then opts.value.xLabel.value else ""
      ensures yLabel == if opts.Some? && opts.value.yLabel.Some? then opts.value.yLabel.value else ""
      ensures xScale == LinearScale(xDomain, (padding.left, width - padding.right))
      ensures yScale == LinearScale(yDomain, (height - padding.bottom, padding.top))
      ensures clip == ClipRect(width, height, padding)
      ensures region == []
      ensures steps == [OptionsReset, SceneCleared, ScalesBuilt, AxesDrawn]
    {
      SetOptions(opts);
      steps := [OptionsReset];
      // svg.selectAll('*').remove(): the old drawing region and everything in it is detached
      region := [];
      steps := steps + [SceneCleared];
      var p := padding;
      xScale, yScale := LinearScale(xDomain, XPixelRange(width, p)), LinearScale(yDomain, YPixelRange(height, p));
      steps := steps + [ScalesBuilt];
      DrawAxes(width, height);
      steps := steps + [AxesDrawn];
    }

    /** The main drawing function: options, clearing the scene, scales, axes, then every
        child. Afterwards the region holds exactly the live children's fresh handles, in
        ascending slot order. */
    method Render(opts: Option<AxesConfig>, width: int, height: int, produced: map<int, seq<NodeId>>)
      returns (steps: seq<RenderStep>)
      requires Valid()
      requires produced.Keys == LiveKeys(children)
      requires Distinct(InOrder(produced, 0, |children|))
      requires Disjoint(InOrder(produced, 0, |children|), DrawnInOrder())
      modifies this
      ensures Valid() && HandlesInRegion()
      ensures padding == DefaultPadding
      ensures xDomain == if opts.Some? && opts.value.xDomain.Some? then opts.value.xDomain.value else DefaultDomain
      ensures yDomain == if opts.Some? && opts.value.yDomain.Some? then opts.value.yDomain.value else DefaultDomain
      ensures xLabel == if opts.Some? && opts.value.xLabel.Some? then opts.value.xLabel.value else ""
      ensures yLabel == if opts.Some? && opts.value.yLabel.Some? then opts.value.yLabel.value else ""
      ensures xScale == LinearScale(xDomain, (padding.left, width - padding.right))
      ensures yScale == LinearScale(yDomain, (height - padding.bottom, padding.top))
      ensures clip == ClipRect(width, height, padding)
      ensures children == old(children)
      ensures drawn == produced
      ensures region == DrawnInOrder()
      ensures steps == [OptionsReset, SceneCleared, ScalesBuilt, AxesDrawn] + DrawSteps(LiveSlots(children))
    {
      steps := Prepare(opts, width, height);
      assert Without(region, DrawnInOrder()) == [];
      var calls := DrawChildren(produced);
      assert region == [] + DrawnInOrder();
      steps := steps + DrawSteps(calls);
    }

    /** `children.push(f) - 1`: the new child's index is the old length; earlier slots keep
        their contents. */
    method AddChild(f: D) returns (index: int)
      requires Valid()
      modifies this`children
      ensures Valid()
      ensures old(HandlesInRegion()) ==> HandlesInRegion()
      ensures index == |old(children)|
      ensures children == old(children) + [Some(f)]
    {
      children := children + [Some(f)];
      index := |children| - 1;
      InOrderAgree(drawn, drawn, 0, index);
      assert DrawnInOrder() == InOrder(drawn, 0, index) + Slot(drawn, index);
      assert DrawnInOrder() == old(DrawnInOrder());
    }

    /** Undraws slot `index`, then tombstones it. Indices never shift; an index that is out of
        range or already removed changes nothing. */
    method RmChild(index: int)
      requires Valid()
      modifies this`region, this`drawn, this`children
      ensures Valid()
      ensures old(HandlesInRegion()) ==> HandlesInRegion()
      ensures children == Tombstone(old(children), index)
      ensures drawn == old(drawn) - {index}
      ensures index in old(drawn) ==> region == Without(old(region), old(drawn)[index])
      ensures index !in old(drawn) ==> region == old(region)
      ensures !old(Live(index)) ==> children == old(children) && drawn == old(drawn) && region == old(region)
    {
      UndrawChild(index);
      if 0 <= index < |children| {
        children := children[index := None];
      }
    }

    /** Removes slot `index`'s handle from the region and forgets it, if there is one. */
    method UndrawChild(index: int)
      requires Valid()
      modifies this`region, this`drawn
      ensures Valid()
      ensures old(HandlesInRegion()) ==> HandlesInRegion()
      ensures drawn == old(drawn) - {index}
      ensures index in old(drawn) ==> region == Without(old(region), old(drawn)[index])
      ensures index !in old(drawn) ==> region == old(region)
    {
      if index in drawn {
        InOrderRemove(drawn, index, |children|);
        DistinctDrop(InOrder(drawn, 0, index), drawn[index], InOrder(drawn, index + 1, |children|));
        if HandlesInRegion() {
          KeptAfterRemove(region, InOrder(drawn, 0, index), drawn[index], InOrder(drawn, index + 1, |children|));
        }
        WithoutSpec(region, drawn[index]);
        region := Without(region, drawn[index]);
        drawn := drawn - {index};
      }
    }

    /** Replaces slot `index`'s handle by the nodes its draw function returns. A removed or
        out-of-range slot has no draw function: the call fails (`ok == false`) and nothing
        changes. */
    method DrawChild(index: int, produced: seq<NodeId>) returns (ok: bool)
      requires Valid()
      requires Fresh(produced)
      modifies this`region, this`drawn
      ensures Valid()
      ensures old(HandlesInRegion()) ==> HandlesInRegion()
      ensures ok <==> old(Live(index))
      ensures ok ==> drawn == old(drawn)[index := produced]
      ensures ok ==> region == Without(old(region), Slot(old(drawn), index)) + produced
      ensures !ok ==> drawn == old(drawn) && region == old(region)
    {
      ghost var r0, m0 := region, drawn;
      WithoutAbsent(region, []);
      UndrawChild(index);
      ok := 0 <= index < |children| && children[index].Some?;
      if ok {
        HandleStored(r0, m0, index, |children|, produced);
        // the draw function appends its nodes to the drawing region and returns them
        region := region + produced;
        drawn := drawn[index := produced];
        assert drawn == m0[index := produced];
        if old(HandlesInRegion()) {
          InOrderRemove(m0, index, |children|);
          InOrderReplace(m0, index, produced, |children|);
        }
      }
    }

    /** Re-appends every handle's nodes to the region, slot by slot in ascending order, so that
        the drawn nodes end the region in index order; the region's other nodes keep their
        order in front of them. */
    method ReorderElements()
      requires Valid()
      modifies this`region
      ensures Valid()
      ensures region == Without(old(region), DrawnInOrder()) + DrawnInOrder()
      ensures HandlesInRegion()
      ensures old(HandlesInRegion()) ==> forall n :: n in region <==> n in old(region)
    {
      ghost var r0 := region;
      ghost var order := DrawnInOrder();
      WithoutAbsent(r0, []);
      var i := 0;
      while i < |children|
        invariant 0 <= i <= |children|
        invariant region == Without(r0, InOrder(drawn, 0, i)) + InOrder(drawn, 0, i)
      {
        ghost var before := InOrder(drawn, 0, i);
        InOrderReplace(drawn, i, Slot(drawn, i), |children|);
        if i in drawn {
          var tmp := drawn[i];
          ghost var rest := InOrder(drawn, i + 1, |children|);
          assert before + tmp[..0] == before;
          var j := 0;
          while j < |tmp|
            invariant 0 <= j <= |tmp|
            invariant region == Without(r0, before + tmp[..j]) + (before + tmp[..j])
          {
            ReorderStep(r0, before, tmp, rest, j);
            region := AppendChild(region, tmp[j]);
            j := j + 1;
          }
          assert tmp[..j] == tmp;
        } else {
          assert InOrder(drawn, 0, i + 1) == before + [] == before;
        }
        i := i + 1;
      }
      DistinctConcat(Without(r0, order), order);
      WithoutSpec(r0, order);
    }

    /** Draws slot `index` afresh and restores the z-order of every handle. */
    method RedrawChild(index: int, produced: seq<NodeId>) returns (ok: bool)
      requires Valid()
      requires Fresh(produced)
      modifies this`region, this`drawn
      ensures Valid()
      ensures old(HandlesInRegion()) ==> HandlesInRegion()
      ensures ok <==> old(Live(index))
      ensures ok ==> drawn == old(drawn)[index := produced]
      ensures ok ==> region == Without(Without(old(region), Slot(old(drawn), index)), DrawnInOrder()) + DrawnInOrder()
      ensures ok ==> HandlesInRegion()
      ensures !ok ==> drawn == old(drawn) && region == old(region)
    {
      ok := DrawChild(index, produced);
      if ok {
        ghost var w := Without(old(region), Slot(old(drawn), index));
        ReorderElements();
        forall n | n in produced ensures n in DrawnInOrder() {
          InOrderMember(drawn, 0, |children|, index, n);
        }
        WithoutConcat(w, produced, DrawnInOrder());
        WithoutCovered(produced, DrawnInOrder());
      }
    }

    /** Calls `DrawChild` once for every live slot, in ascending index order: every old handle
        leaves the region and every live slot's new handle is appended, in slot order. */
    method DrawChildren(produced: map<int, seq<NodeId>>) returns (calls: seq<int>)
      requires Valid()
      requires produced.Keys == LiveKeys(children)
      requires FreshBatch(produced)
      modifies this`region, this`drawn
      ensures Valid() && HandlesInRegion()
      ensures calls == LiveSlots(children)
      ensures drawn == produced
      ensures region == Without(old(region), old(DrawnInOrder())) + DrawnInOrder()
    {
      ghost var batch := produced;
      ghost var n := |children|;
      ghost var od := drawn;
      ghost var r0 := region;
      assert od.Keys <= batch.Keys;
      calls := [];
      var i := 0;
      while i < |children|
        invariant 0 <= i <= n == |children|
        invariant Valid()
        invariant calls == LiveUpTo(children, i)
        invariant region == PassRegion(r0, od, batch, i)
        invariant drawn == PassDrawn(od, batch, i)
        decreases n - i
      {
        if children[i].Some? {
          PassLive(r0, od, batch, i, n);
          var ok := DrawChild(i, produced[i]);
          calls := calls + [i];
        }
        i := i + 1;
      }
      PassEnd(r0, od, batch, i);
    }
  }

  /** A data point `[x, y]`. */
  type Point = (real, real)

  /** The segment a `<line>` element draws, from `start` to `end`; its styling options only
      affect painting. */
  datatype Line = Line(start: Point, end: Point) {
    /** `xRange`: runs from the x coordinate of the segment's start to that of its end, and
        covers the x coordinate of every point on the segment. */
    function XRange(): (r: Range)
      ensures r.0 == PointAt(0.0).0 && r.1 == PointAt(1.0).0
      ensures forall t :: 0.0 <= t <= 1.0 ==> Within(PointAt(t).0, r)
    {
      LerpWithinAll(start.0, end.0);
      (start.0, end.0)
    }

    /** `yRange`: runs from the y coordinate of the segment's start to that of its end, and
        covers the y coordinate of every point on the segment. */
    function YRange(): (r: Range)
      ensures r.0 == PointAt(0.0).1 && r.1 == PointAt(1.0).1
      ensures forall t :: 0.0 <= t <= 1.0 ==> Within(PointAt(t).1, r)
    {
      LerpWithinAll(start.1, end.1);
      (start.1, end.1)
    }

    /** The point a fraction `t` of the way from `start` to `end`. */
    function PointAt(t: real): Point {
      (Lerp(start.0, end.0, t), Lerp(start.1, end.1, t))
    }
  }

  /** `v` lies between the two ends of `r`, in whichever order they come. */
  predicate Within(v: real, r: Range) {
    (r.0 <= v <= r.1) || (r.1 <= v <= r.0)
  }

  /** `t * x`, under a name of its own so that the proofs about points of a segment reason about
      whole products and leave the multiplication to the lemmas below. */
  function Scaled(t: real, x: real): real {
    t * x
  }

  /** The value a fraction `t` of the way from `a` to `b`: `a + t * (b - a)`. */
  function Lerp(a: real, b: real, t: real): real {
    a + Scaled(t, b) - Scaled(t, a)
  }

  /** The line's ranges are its extent: the ends of the x range and of the y range are the
      coordinates of the segment's two ends, and every point of the segment lies within both. */
  lemma LineWithinRanges(l: Line, t: real)
    requires 0.0 <= t <= 1.0
    ensures l.PointAt(0.0) == l.start && l.PointAt(1.0) == l.end
    ensures Within(l.PointAt(t).0, l.XRange()) && Within(l.PointAt(t).1, l.YRange())
  {
    LerpWithin(l.start.0, l.end.0, t);
    LerpWithin(l.start.1, l.end.1, t);
  }

  /** Every value a fraction between 0 and 1 of the way from `a` to `b` lies between them. */
  lemma LerpWithinAll(a: real, b: real)
    ensures forall t :: 0.0 <= t <= 1.0 ==> Within(Lerp(a, b, t), (a, b))
  {
    forall t | 0.0 <= t <= 1.0 ensures Within(Lerp(a, b, t), (a, b)) {
      LerpWithin(a, b, t);
    }
  }

  /** The value a fraction `t` of the way from `a` to `b` lies between them. */
  lemma LerpWithin(a: real, b: real, t: real)
    requires 0.0 <= t <= 1.0
    ensures Within(Lerp(a, b, t), (a, b))
  {
    if a <= b {
      ScaledGap(t, a, b);
    } else {
      ScaledGap(t, b, a);
    }
  }

  /** Scaling two ordered values by a fraction keeps their order and does not widen their gap. */
  lemma ScaledGap(t: real, x: real, y: real)
    requires 0.0 <= t <= 1.0 && x <= y
    ensures 0.0 <= Scaled(t, y) - Scaled(t, x) <= y - x
  {
    ScaledDiff(t, x, y);
    ScaledBounds(t, y - x);
  }

  lemma ScaledDiff(t: real, x: real, y: real)
    ensures Scaled(t, y) - Scaled(t, x) == Scaled(t, y - x)
  {
    assert t * (y - x) == t * y - t * x;
  }

  lemma ScaledBounds(t: real, c: real)
    requires 0.0 <= t <= 1.0 && 0.0 <= c
    ensures 0.0 <= Scaled(t, c) <= c
  {
    ScaleBounds(t, c);
  }

  /** A fraction of a non-negative amount lies between nothing and all of it. */
  lemma ScaleBounds(t: real, c: real)
    requires 0.0 <= t <= 1.0 && 0.0 <= c
    ensures 0.0 <= t * c <= c
  {
    assert c - t * c == (1.0 - t) * c;
  }

  /** A `<plot>` element: a polyline through the points bound to its `data` attribute. */
  class Plot {
    /** The bound `data` attribute; `None` when it is unset or falsy. */
    var source: Option<seq<Point>>
    /** The points the plot draws. */
    var data: seq<Point>

    /** The constructor calls `setData`. */
    constructor (source: Option<seq<Point>>)
      ensures this.source == source
      ensures source.Some? ==> data == source.value
      ensures source.None? ==> data == []
    {
      this.source := source;
      new;
      SetData();
    }

    /** The bound data when there is some, otherwise no points. */
    method SetData()
      modifies this`data
      ensures source.Some? ==> data == source.value
      ensures source.None? ==> data == []
    {
      data := source.GetOr([]);
    }

    /** A placeholder in the source: `[0, 0]` whatever the data. */
    function XRange(): (r: Range)
      ensures r.0 == 0.0 && r.1 == 0.0
    {
      (0.0, 0.0)
    }

    /** A placeholder in the source: `[0, 0]` whatever the data. */
    function YRange(): (r: Range)
      ensures r.0 == 0.0 && r.1 == 0.0
    {
      (0.0, 0.0)
    }
  }

  /** `Math.abs(range[0] - range[1])`: the number of pixels a scale's range spans. */
  function PixelSpan(r: PixelRange): int {
    if r.0 >= r.1 then r.0 - r.1 else r.1 - r.0
  }

  /** The span is the distance between the two ends, whichever way the range runs. */
  lemma PixelSpanSpec(r: PixelRange)
    ensures PixelSpan(r) >= 0
    ensures PixelSpan(r) == r.0 - r.1 || PixelSpan(r) == r.1 - r.0
    ensures PixelSpan((r.1, r.0)) == PixelSpan(r)
  {
  }

  /** The number of intervals `Func.setData` samples: always 100, whatever the axes. */
  const SampleIntervals: nat := 100

  /** The `i`-th of `n + 1` evenly spaced x positions across `domain`. */
  function SampleX(domain: Range, i: int, n: nat): real
    requires n > 0
  {
    (domain.1 - domain.0) * (i as real) / (n as real) + domain.0
  }

  /** The samples `[x, f(x)]` for `i = 0, ..., k - 1`. */
  function Samples(f: real -> real, domain: Range, n: nat, k: nat): seq<Point>
    requires n > 0
    decreases k
  {
    if k == 0 then [] else Samples(f, domain, n, k - 1) + [(SampleX(domain, k - 1, n), f(SampleX(domain, k - 1, n)))]
  }

  /** There are `k` samples; the `i`-th is at x position `SampleX(domain, i, n)` and carries
      the function's value there. */
  lemma {:induction false} SamplesSpec(f: real -> real, domain: Range, n: nat, k: nat)
    requires n > 0
    ensures |Samples(f, domain, n, k)| == k
    ensures forall i :: 0 <= i < k ==> Samples(f, domain, n, k)[i] == (SampleX(domain, i, n), f(SampleX(domain, i, n)))
  {
    if k > 0 {
      SamplesSpec(f, domain, n, k - 1);
    }
  }

  /** The first sample is at the lower end of the domain, the last of `n + 1` at the upper
      end, and consecutive samples are one `n`-th of the domain apart. */
  lemma SampleEnds(domain: Range, n: nat)
    requires n > 0
    ensures SampleX(domain, 0, n) == domain.0
    ensures SampleX(domain, n, n) == domain.1
    ensures forall i :: SampleX(domain, i + 1, n) - SampleX(domain, i, n) == (domain.1 - domain.0) / (n as real)
  {
    forall i ensures SampleX(domain, i + 1, n) - SampleX(domain, i, n) == (domain.1 - domain.0) / (n as real) {
      var d, m := domain.1 - domain.0, n as real;
      assert d * ((i + 1) as real) == d * (i as real) + d;
      assert (d * (i as real) + d) / m == d * (i as real) / m + d / m;
    }
  }

  /** What `Func.setData` stores: exactly 101 points, the first at the lower end of the
      domain and the last at the upper end, each carrying the function's value there. */
  lemma FuncSampleShape(f: real -> real, domain: Range)
    ensures var d := Samples(f, domain, SampleIntervals, SampleIntervals + 1);
      && |d| == 101
      && d[0].0 == domain.0 && d[100].0 == domain.1
      && forall i :: 0 <= i < |d| ==> d[i].1 == f(d[i].0)
  {
    SamplesSpec(f, domain, SampleIntervals, SampleIntervals + 1);
    SampleEnds(domain, SampleIntervals);
  }

  /** A `<function>` element: a plot of `f` sampled across the domain. */
  class Func {
    const f: real -> real
    /** The bound `data` attribute it inherits from `Plot`; `setData` ignores it. */
    var source: Option<seq<Point>>
    var data: seq<Point>

    /** The constructor stores `f` and then calls `setData` without axes (the base
        constructor's call resolves to this class's `setData`). */
    constructor (f: real -> real, source: Option<seq<Point>>)
      ensures this.f == f && this.source == source
      ensures data == Samples(f, (0.0, 1.0), SampleIntervals, SampleIntervals + 1)
    {
      this.f := f;
      this.source := source;
      new;
      SetData<int>(null);
    }

    /** Samples `f` at 101 evenly spaced x positions across the axes' x domain, or across
        `[0, 1]` without axes. The number of samples is the same whatever the axes: the count
        derived from the x scale's pixel range is overwritten before the loop. */
    method SetData<D>(axes: AxesCtrl?<D>)
      modifies this`data
      ensures var domain := if axes != null then axes.xDomain else (0.0, 1.0);
        data == Samples(f, domain, SampleIntervals, SampleIntervals + 1)
    {
      var domain: Range := (0.0, 1.0);
      var n: int := 100;
      if axes != null {
        domain := axes.xDomain;
        var scale := axes.xScale;
        // one sample per pixel of the x scale's range; overwritten below
        n := PixelSpan(scale.range);
      }
      n := 100;
      var plotData: seq<Point> := [];
      var i := 0;
      while i <= n
        invariant 0 <= i <= n + 1
        invariant plotData == Samples(f, domain, n, i)
      {
        var x := SampleX(domain, i, n);
        plotData := plotData + [(x, f(x))];
        i := i + 1;
      }
      data := plotData;
    }
  }
}
