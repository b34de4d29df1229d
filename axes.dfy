/** The earlier axes controller of the `ngPlot` module. It keeps its configuration and scales
    on the directive's scope, registers children as bare draw functions and keeps nothing of
    what they draw: `render` clears the scene and calls every live child afresh. */
module Axes {
  import opened Wrappers
  import opened Slots
  import opened Layout

  class AxesCtrl<D> {
    var padding: Padding
    var xDomain: Range
    var yDomain: Range
    var xLabel: string
    var yLabel: string
    var xScale: LinearScale
    var yScale: LinearScale
    /** One slot per `addChild`, `None` once removed. */
    var children: seq<Option<D>>

    constructor ()
      ensures children == []
    {
      padding := DefaultPadding;
      xDomain, yDomain := DefaultDomain, DefaultDomain;
      xLabel, yLabel := "", "";
      xScale := LinearScale(DefaultDomain, (0, 0));
      yScale := LinearScale(DefaultDomain, (0, 0));
      children := [];
    }

    /** Padding is always reset; each of the domains and labels takes the configured value when
        there is one and its default otherwise, independently of the others. */
    method SetOptions(opts: Option<AxesConfig>)
      modifies this`padding, this`xDomain, this`yDomain, this`xLabel, this`yLabel
      ensures padding == DefaultPadding
      ensures xDomain == if opts.Some? && opts.value.xDomain.Some? then opts.value.xDomain.value else DefaultDomain
      ensures yDomain == if opts.Some? && opts.value.yDomain.Some? then opts.value.yDomain.value else DefaultDomain
      ensures xLabel == if opts.Some? && opts.value.xLabel.Some? then opts.value.xLabel.value else ""
      ensures yLabel == if opts.Some? && opts.value.yLabel.Some? then opts.value.yLabel.value else ""
    {
      padding := DefaultPadding;
      if opts.Some? {
        xDomain := opts.value.xDomain.GetOr(DefaultDomain);
        yDomain := opts.value.yDomain.GetOr(DefaultDomain);
        xLabel := opts.value.xLabel.GetOr("");
        yLabel := opts.value.yLabel.GetOr("");
      } else {
        xDomain := DefaultDomain;
        yDomain := DefaultDomain;
        xLabel := "";
        yLabel := "";
      }
    }

    /** The main drawing function: options, clearing the scene, scales, axes, then every live
        child, in that order. The scales span the padded plot area, the y range inverted. */
    method Render(opts: Option<AxesConfig>, width: int, height: int) returns (steps: seq<RenderStep>)
      modifies this`padding, this`xDomain, this`yDomain, this`xLabel, this`yLabel, this`xScale, this`yScale
      ensures padding == DefaultPadding
      ensures xDomain == if opts.Some? && opts.value.xDomain.Some? then opts.value.xDomain.value else DefaultDomain
      ensures yDomain == if opts.Some? && opts.value.yDomain.Some? then opts.value.yDomain.value else DefaultDomain
      ensures xLabel == if opts.Some? && opts.value.xLabel.Some? then opts.value.xLabel.value else ""
      ensures yLabel == if opts.Some? && opts.value.yLabel.Some? then opts.value.yLabel.value else ""
      ensures xScale == LinearScale(xDomain, (padding.left, width - padding.right))
      ensures yScale == LinearScale(yDomain, (height - padding.bottom, padding.top))
      ensures steps == [OptionsReset, SceneCleared, ScalesBuilt, AxesDrawn] + DrawSteps(LiveSlots(children))
    {
      SetOptions(opts);
      steps := [OptionsReset];
      // svg.selectAll('*').remove()
      steps := steps + [SceneCleared];
      var p := padding;
      xScale, yScale := LinearScale(xDomain, XPixelRange(width, p)), LinearScale(yDomain, YPixelRange(height, p));
      steps := steps + [ScalesBuilt];
      // drawAxes paints the two axes and their labels
      steps := steps + [AxesDrawn];
      var calls := DrawChildren();
      steps := steps + DrawSteps(calls);
    }

    /** `children.push(f) - 1`: the new child's index is the old length; earlier slots keep
        their contents. */
    method AddChild(f: D) returns (index: int)
      modifies this`children
      ensures index == |old(children)|
      ensures children == old(children) + [Some(f)]
    {
      children := children + [Some(f)];
      index := |children| - 1;
    }

    /** `delete children[index]`: the slot becomes a hole; indices never shift, and an index
        that is out of range or already removed changes nothing. */
    method RmChild(index: int)
      modifies this`children
      ensures children == Tombstone(old(children), index)
    {
      if 0 <= index < |children| {
        children := children[index := None];
      }
    }

    /** `for (var i in children)`: calls the draw function of every live slot once, in
        ascending index order, skipping holes. The calls are returned in the order made. */
    method DrawChildren() returns (calls: seq<int>)
      ensures calls == LiveSlots(children)
    {
      calls := [];
      var i := 0;
      while i < |children|
        invariant 0 <= i <= |children|
        invariant calls == LiveUpTo(children, i)
      {
        if children[i].Some? {
          calls := calls + [i];
        }
        i := i + 1;
      }
    }
  }
}
