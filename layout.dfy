/** Configuration, geometry and render steps shared by both versions of the axes controller. */
module Layout {
  import opened Wrappers

  /** A data-space interval `[lo, hi]`; JavaScript numbers are idealised as reals. */
  type Range = (real, real)

  /** A pixel interval as given to a scale's `range`. */
  type PixelRange = (int, int)

  /** The four-element padding array `[top, right, bottom, left]`. */
  datatype Padding = Padding(top: int, right: int, bottom: int, left: int)

  /** The `options` object of the axes element; every field may be absent. */
  datatype AxesConfig = AxesConfig(
    xDomain: Option<Range>,
    yDomain: Option<Range>,
    xLabel: Option<string>,
    yLabel: Option<string>)

  const DefaultPadding := Padding(30, 30, 30, 30)
  const DefaultDomain: Range := (-1.0, 1.0)

  /** `d3.scale.linear().domain(domain).range(range)`; the mapping itself is D3's. */
  datatype LinearScale = LinearScale(domain: Range, range: PixelRange)

  /** The clip rectangle's `x`, `y`, `width` and `height` attributes. */
  datatype Rect = Rect(x: int, y: int, width: int, height: int)

  /** The observable steps of one `render` pass, in the order they happen. */
  datatype RenderStep = OptionsReset | SceneCleared | ScalesBuilt | AxesDrawn | ChildDrawn(index: int)

  /** The x scale's pixel range: from the left padding to the width less the right padding. */
  function XPixelRange(width: int, p: Padding): (r: PixelRange)
    ensures r == (p.left, width - p.right)
  {
    var w := width - (p.right + p.left);
    (p.left, w + p.left)
  }

  /** The y scale's pixel range, inverted so that larger data values are drawn higher up: from
      the height less the bottom padding up to the top padding. */
  function YPixelRange(height: int, p: Padding): (r: PixelRange)
    ensures r == (height - p.bottom, p.top)
  {
    var h := height - (p.top + p.bottom);
    (h + p.top, p.top)
  }

  /** The clip rectangle drawn in `drawAxes`. */
  function ClipRect(width: int, height: int, p: Padding): Rect {
    Rect(p.left, p.top, width - p.right - p.left, height - p.top - p.bottom)
  }

  /** The clip rectangle, computed separately from the scales, covers exactly the pixels both
      scale ranges span: its left and right edges are the ends of the x range, its top and
      bottom edges the ends of the (inverted) y range. */
  lemma ClipSpansScaleRanges(width: int, height: int, p: Padding)
    ensures var c, xr, yr := ClipRect(width, height, p), XPixelRange(width, p), YPixelRange(height, p);
      && c.x == xr.0 && c.x + c.width == xr.1
      && c.y == yr.1 && c.y + c.height == yr.0
  {
  }

  /** One `ChildDrawn(i)` step per index, in the order given. */
  function DrawSteps(calls: seq<int>): seq<RenderStep> {
    if calls == [] then [] else [ChildDrawn(calls[0])] + DrawSteps(calls[1..])
  }

  lemma {:induction false} DrawStepsSpec(calls: seq<int>)
    ensures |DrawSteps(calls)| == |calls|
    ensures forall k :: 0 <= k < |calls| ==> DrawSteps(calls)[k] == ChildDrawn(calls[k])
  {
    if calls != [] {
      DrawStepsSpec(calls[1..]);
    }
  }
}
