/**
 * The navigation rules of the trace viewer (Viewer/Viewer.cpp) as pure
 * steps on the visible window and the selected span index: scrolling,
 * wheel and drag zoom, centring on a span, the four selection moves and
 * the key dispatch that combines them. The viewer's methods perform these
 * steps on its fields.
 */
module Navigation {
  import opened Wrappers
  import opened ViewerUtils
  import opened ViewerModel

  /** [m_view_start, m_view_end]: the visible part of the trace. */
  datatype ViewWindow = ViewWindow(start: real, end: real)

  function Width(w: ViewWindow): real { w.end - w.start }

  /** The window starts at or after 0 and ends at or before the trace's end. */
  predicate InsideTrace(w: ViewWindow, total: real) { 0.0 <= w.start && w.end <= total }

  // -------------------------------------------------------------- scrolling

  /**
   * scrollLeft: move back by scroll_percentage of the width, stopping at 0;
   * the width is kept whether or not the stop applies.
   */
  function ScrollLeft(w: ViewWindow, percentage: real): (r: ViewWindow)
    ensures Width(r) == Width(w)
    ensures 0.0 <= r.start
    ensures w.start - Width(w) * percentage >= 0.0 ==> r.start == w.start - Width(w) * percentage
  {
    var range := w.end - w.start;
    var amount := range * percentage;
    ViewWindow(Max(0.0, w.start - amount), Max(range, w.end - amount))
  }

  /**
   * scrollRight: move forward by scroll_percentage of the width, stopping at
   * the trace's end; the width is kept whether or not the stop applies.
   */
  function ScrollRight(w: ViewWindow, percentage: real, total: real): (r: ViewWindow)
    ensures Width(r) == Width(w)
    ensures r.end <= total
    ensures w.end + Width(w) * percentage <= total ==> r.start == w.start + Width(w) * percentage
  {
    var range := w.end - w.start;
    var amount := range * percentage;
    ViewWindow(Min(total - range, w.start + amount), Min(total, w.end + amount))
  }

  /** A scroll right undone by a scroll left, when neither runs into an end of the trace. */
  lemma ScrollRightThenLeft(w: ViewWindow, percentage: real, total: real)
    requires w.end + Width(w) * percentage <= total
    requires w.start >= 0.0
    ensures ScrollLeft(ScrollRight(w, percentage, total), percentage) == w
  {
  }

  /**
   * updateViewToCenterOnSpan: the window of the same width centred on the
   * span's midpoint, then clipped to [0, total_duration].
   */
  function CenterOn(w: ViewWindow, span: Span, total: real): (r: ViewWindow)
    ensures InsideTrace(r, total)
    ensures var mid := span.startTime + span.duration / 2.0;
      mid - Width(w) / 2.0 >= 0.0 && mid + Width(w) / 2.0 <= total ==>
        Width(r) == Width(w) && (r.start + r.end) / 2.0 == mid
  {
    var range := w.end - w.start;
    var mid := span.startTime + span.duration / 2.0;
    ViewWindow(Max(0.0, mid - range / 2.0), Min(total, mid + range / 2.0))
  }

  // -------------------------------------------------------------- wheel zoom

  /** The fraction of the canvas width at which the cursor stands. */
  function CursorRatio(mouseX: real, canvasX: real, canvasWidth: real): real
  {
    CalculateTimeRatio(mouseX - canvasX, 0.0, canvasWidth)
  }

  /** The zoom factor a wheel movement selects: in for a positive notch, out otherwise. */
  function ZoomFactor(c: ViewerConfig, wheel: real): real
  {
    if wheel > 0.0 then c.zoomFactorIn else c.zoomFactorOut
  }

  /** The window scrollZoom computes before clipping: scaled by `factor` about the time under the cursor. */
  function ZoomedUnclipped(w: ViewWindow, ratio: real, factor: real): ViewWindow
  {
    var mouseTime := Interpolate(w.start, w.end, ratio);
    var start := mouseTime - (mouseTime - w.start) * factor;
    ViewWindow(start, start + (w.end - w.start) * factor)
  }

  /** The unclipped zoom scales the width by the factor and keeps the time under the cursor in place. */
  lemma ZoomKeepsCursorTime(w: ViewWindow, ratio: real, factor: real)
    ensures var r := ZoomedUnclipped(w, ratio, factor);
      Width(r) == Width(w) * factor && Interpolate(r.start, r.end, ratio) == Interpolate(w.start, w.end, ratio)
  {
    var mouseTime := Interpolate(w.start, w.end, ratio);
    var r := ZoomedUnclipped(w, ratio, factor);
    assert mouseTime - w.start == ratio * (w.end - w.start);
    assert Interpolate(r.start, r.end, ratio) == r.start + ratio * ((w.end - w.start) * factor);
  }

  /** Neither clip of scrollZoom applies. */
  predicate ZoomUnclipped(w: ViewWindow, ratio: real, factor: real, total: real)
  {
    var u := ZoomedUnclipped(w, ratio, factor);
    0.0 <= u.start && u.end <= total
  }

  /**
   * scrollZoom: scale the window by the zoom factor about the time under the
   * cursor, then clip the start to 0 and the end to total_duration.
   */
  function ScrollZoom(w: ViewWindow, mouseX: real, canvasX: real, canvasWidth: real,
                      wheel: real, c: ViewerConfig, total: real): (r: ViewWindow)
    ensures InsideTrace(r, total)
  {
    var range := w.end - w.start;
    var factor := ZoomFactor(c, wheel);
    var u := ZoomedUnclipped(w, CursorRatio(mouseX, canvasX, canvasWidth), factor);
    var start := Max(0.0, u.start);
    ViewWindow(start, Min(total, start + range * factor))
  }

  /**
   * When neither clip applies, scrollZoom is the scaled window, and the
   * time under the cursor stays where it was.
   */
  lemma ScrollZoomUnclipped(w: ViewWindow, mouseX: real, canvasX: real, canvasWidth: real,
                            wheel: real, c: ViewerConfig, total: real)
    requires ZoomUnclipped(w, CursorRatio(mouseX, canvasX, canvasWidth), ZoomFactor(c, wheel), total)
    ensures var ratio := CursorRatio(mouseX, canvasX, canvasWidth);
      var r := ScrollZoom(w, mouseX, canvasX, canvasWidth, wheel, c, total);
      && r == ZoomedUnclipped(w, ratio, ZoomFactor(c, wheel))
      && Interpolate(r.start, r.end, ratio) == Interpolate(w.start, w.end, ratio)
  {
    ZoomKeepsCursorTime(w, CursorRatio(mouseX, canvasX, canvasWidth), ZoomFactor(c, wheel));
  }

  /** Zooming by a and then by b about the same fraction gives back the window when a * b == 1. */
  lemma ZoomedTwice(w: ViewWindow, ratio: real, a: real, b: real)
    requires a * b == 1.0
    ensures ZoomedUnclipped(ZoomedUnclipped(w, ratio, a), ratio, b) == w
  {
    var m := Interpolate(w.start, w.end, ratio);
    var w1 := ZoomedUnclipped(w, ratio, a);
    var w2 := ZoomedUnclipped(w1, ratio, b);
    ZoomKeepsCursorTime(w, ratio, a);
    assert Interpolate(w1.start, w1.end, ratio) == m;
    assert w1.start == m - (m - w.start) * a;
    assert w2.start == m - (m - w1.start) * b;
    assert (m - w.start) * a * b == (m - w.start) * (a * b);
    assert w2.start == w.start;
    assert (w.end - w.start) * a * b == (w.end - w.start) * (a * b);
  }

  /**
   * A wheel notch in followed by a notch out at the same cursor gives back
   * the window, when the factors are inverse and neither zoom is clipped.
   */
  lemma {:induction false} ZoomInThenOut(w: ViewWindow, mouseX: real, canvasX: real, canvasWidth: real,
                                         c: ViewerConfig, total: real)
    requires c.zoomFactorIn * c.zoomFactorOut == 1.0
    requires var ratio := CursorRatio(mouseX, canvasX, canvasWidth);
      ZoomUnclipped(w, ratio, c.zoomFactorIn, total) &&
      ZoomUnclipped(ZoomedUnclipped(w, ratio, c.zoomFactorIn), ratio, c.zoomFactorOut, total)
    ensures ScrollZoom(ScrollZoom(w, mouseX, canvasX, canvasWidth, 1.0, c, total),
                       mouseX, canvasX, canvasWidth, -1.0, c, total) == w
  {
    var ratio := CursorRatio(mouseX, canvasX, canvasWidth);
    assert ZoomFactor(c, 1.0) == c.zoomFactorIn && ZoomFactor(c, -1.0) == c.zoomFactorOut;
    var w1 := ScrollZoom(w, mouseX, canvasX, canvasWidth, 1.0, c, total);
    ScrollZoomUnclipped(w, mouseX, canvasX, canvasWidth, 1.0, c, total);
    assert w1 == ZoomedUnclipped(w, ratio, c.zoomFactorIn);
    ScrollZoomUnclipped(w1, mouseX, canvasX, canvasWidth, -1.0, c, total);
    ZoomedTwice(w, ratio, c.zoomFactorIn, c.zoomFactorOut);
  }

  // --------------------------------------------------------------- drag zoom

  /** The drag rectangle of a rectangular zoom. */
  datatype ZoomSelection = ZoomSelection(isSelecting: bool, start: Vec2, end: Vec2)

  function Distance(a: real, b: real): real { if a >= b then a - b else b - a }

  /**
   * rectangularZoom for one frame: a press on the canvas starts a drag at
   * the cursor, a drag in progress follows the cursor, and the release ends
   * it, zooming to the dragged times (clipped to the trace) only when the
   * drag spans more than min_selection_width pixels.
   */
  function RectangularZoom(sel: ZoomSelection, w: ViewWindow, pressed: bool, released: bool, mouse: Vec2,
                           canvasPos: Vec2, canvasSize: Vec2, c: ViewerConfig, total: real): (r: (ZoomSelection, ViewWindow))
    ensures released ==> !r.0.isSelecting
    ensures !released ==> r.0.isSelecting == (sel.isSelecting || pressed) && r.1 == w
    ensures r.1 != w ==> InsideTrace(r.1, total)
    ensures r.1 != w ==> Distance(mouse.x, (if pressed then mouse else sel.start).x) > c.minSelectionWidth
  {
    var started := if pressed then sel.(isSelecting := true, start := mouse) else sel;
    if !started.isSelecting then (started, w)
    else
      var dragged := started.(end := mouse);
      if !released then (dragged, w)
      else if Distance(dragged.end.x, dragged.start.x) > c.minSelectionWidth then
        var minX := Min(dragged.start.x, dragged.end.x);
        var maxX := Max(dragged.start.x, dragged.end.x);
        var startTime := PixelToTime(minX, canvasPos.x, canvasSize.x, w.start, w.end);
        var endTime := PixelToTime(maxX, canvasPos.x, canvasSize.x, w.start, w.end);
        (dragged.(isSelecting := false), ViewWindow(Max(0.0, startTime), Min(total, endTime)))
      else (dragged.(isSelecting := false), w)
  }

  /** A drag inside the canvas of a proper window zooms to the times under its two ends. */
  lemma DragZoomsToDraggedTimes(w: ViewWindow, startX: real, endX: real,
                                canvasPos: Vec2, canvasSize: Vec2, c: ViewerConfig, total: real)
    requires 0.0 < canvasSize.x && w.start < w.end && InsideTrace(w, total)
    requires canvasPos.x <= startX < endX <= canvasPos.x + canvasSize.x
    requires endX - startX > c.minSelectionWidth
    ensures var r := RectangularZoom(ZoomSelection(true, Vec2(startX, 0.0), Vec2(startX, 0.0)), w, false, true,
                                     Vec2(endX, 0.0), canvasPos, canvasSize, c, total);
      && !r.0.isSelecting
      && r.1 == ViewWindow(PixelToTime(startX, canvasPos.x, canvasSize.x, w.start, w.end),
                           PixelToTime(endX, canvasPos.x, canvasSize.x, w.start, w.end))
      && w.start <= r.1.start && r.1.end <= w.end
  {
  }

  // -------------------------------------------------------------- selection

  /** The keys pressed in one frame, with the window's focus and the Ctrl modifier. */
  datatype Keys = Keys(focused: bool, escape: bool, left: bool, right: bool, up: bool, down: bool, ctrl: bool)

  /** The selection and view state the keyboard acts on. */
  datatype NavState = NavState(index: int, window: ViewWindow, details: string)

  /**
   * What the keyboard reads: the navigated trace's spans, the spans and
   * total duration of m_traces[m_selected_trace] (`shown`, `total`; None
   * when no trace is loaded), the scroll percentage and the double printer
   * used by the detail text.
   */
  datatype NavContext = NavContext(spans: seq<Span>, shown: Option<(seq<Span>, real)>, scroll: real, formatReal: real -> string)

  /** updateSelectedSpanDetails: the description of span k of the shown trace, or the old text when there is none. */
  function Refresh(shown: Option<(seq<Span>, real)>, formatReal: real -> string, details: string, k: int): (r: string)
    ensures shown.Some? && 0 <= k < |shown.value.0| ==> r == SpanDescription(shown.value.0[k], formatReal)
    ensures !(shown.Some? && 0 <= k < |shown.value.0|) ==> r == details
  {
    match shown
    case None => details
    case Some((spans, _)) => if k < 0 || k >= |spans| then details else SpanDescription(spans[k], formatReal)
  }

  predicate PreviousMoves(i: int, n: nat) { i > 0 && n > 0 }
  predicate NextMoves(i: int, n: nat) { n > 0 && i < n - 1 }

  /** The index selectPreviousSpan leaves. */
  function PreviousIndex(i: int, n: nat): (j: int)
    ensures -1 <= i < n ==> -1 <= j < n
    ensures j == i || j == i - 1
  {
    if PreviousMoves(i, n) then i - 1 else i
  }

  /** The index selectNextSpan leaves. */
  function NextIndex(i: int, n: nat): (j: int)
    ensures -1 <= i < n ==> -1 <= j < n
    ensures j == i || j == i + 1
  {
    if NextMoves(i, n) then i + 1 else i
  }

  /** The index selectUpperSpan leaves. */
  function UpperIndex(i: int, n: nat): (j: int)
    ensures -1 <= i < n ==> -1 <= j < n
    ensures n > 0 && -1 <= i < n ==> 0 <= j
  {
    if n == 0 then i
    else if i > 0 then i - 1
    else if i == -1 then n - 1
    else i
  }

  /** The index selectLowerSpan leaves; its branch for -1 is never reached, the step by one already covers it. */
  function LowerIndex(i: int, n: nat): (j: int)
    ensures -1 <= i < n ==> -1 <= j < n
    ensures n > 0 && -1 <= i < n ==> 0 <= j
  {
    if n == 0 then i
    else if i < n - 1 then i + 1
    else if i == -1 then 0
    else i
  }

  /** The moves on a non-empty trace: Up and Down step by one, wrap in from "nothing selected" and stop at the ends. */
  lemma UpAndDownMoves(i: int, n: nat)
    requires n > 0 && -1 <= i < n
    ensures i == -1 ==> UpperIndex(i, n) == n - 1 && LowerIndex(i, n) == 0
    ensures i >= 0 ==> UpperIndex(i, n) == (if i == 0 then 0 else i - 1)
    ensures i >= 0 ==> LowerIndex(i, n) == (if i == n - 1 then n - 1 else i + 1)
  {
  }

  /** Ctrl+Left does nothing at 0 or with nothing selected; Ctrl+Right steps from nothing to 0 and stops at the end. */
  lemma CtrlArrowMoves(i: int, n: nat)
    requires -1 <= i < n
    ensures i <= 0 ==> PreviousIndex(i, n) == i
    ensures i == -1 && n > 0 ==> NextIndex(i, n) == 0
    ensures i == n - 1 ==> NextIndex(i, n) == i
  {
  }

  /** Previous undoes Next and Next undoes Previous away from the ends. */
  lemma PreviousNextInverse(i: int, n: nat)
    ensures 0 <= i < n - 1 ==> PreviousIndex(NextIndex(i, n), n) == i
    ensures 0 < i < n ==> NextIndex(PreviousIndex(i, n), n) == i
  {
  }

  /** selectPreviousSpan on the navigated trace is defined: the new index lies in the spans and a trace is shown. */
  predicate PreviousDefined(st: NavState, ctx: NavContext)
  {
    PreviousMoves(st.index, |ctx.spans|) ==> st.index - 1 < |ctx.spans| && ctx.shown.Some?
  }

  predicate NextDefined(st: NavState, ctx: NavContext)
  {
    NextMoves(st.index, |ctx.spans|) ==> 0 <= st.index + 1 && ctx.shown.Some?
  }

  /** selectPreviousSpan: step back, refresh the details and centre the view on the new span. */
  function SelectPrevious(st: NavState, ctx: NavContext): (r: NavState)
    requires PreviousDefined(st, ctx)
    ensures r.index == PreviousIndex(st.index, |ctx.spans|)
    ensures r.window != st.window ==> r.index != st.index
    ensures r.index != st.index ==> InsideTrace(r.window, ctx.shown.value.1)
  {
    if PreviousMoves(st.index, |ctx.spans|) then
      var k := st.index - 1;
      NavState(k, CenterOn(st.window, ctx.spans[k], ctx.shown.value.1), Refresh(ctx.shown, ctx.formatReal, st.details, k))
    else st
  }

  /** selectNextSpan: step forward, refresh the details and centre the view on the new span. */
  function SelectNext(st: NavState, ctx: NavContext): (r: NavState)
    requires NextDefined(st, ctx)
    ensures r.index == NextIndex(st.index, |ctx.spans|)
    ensures r.window != st.window ==> r.index != st.index
    ensures r.index != st.index ==> InsideTrace(r.window, ctx.shown.value.1)
  {
    if NextMoves(st.index, |ctx.spans|) then
      var k := st.index + 1;
      NavState(k, CenterOn(st.window, ctx.spans[k], ctx.shown.value.1), Refresh(ctx.shown, ctx.formatReal, st.details, k))
    else st
  }

  /** selectUpperSpan: move up a row and refresh the details; the view stays. */
  function SelectUpper(st: NavState, ctx: NavContext): (r: NavState)
    ensures r.index == UpperIndex(st.index, |ctx.spans|) && r.window == st.window
    ensures r.details == (if |ctx.spans| > 0 && r.index >= 0 then Refresh(ctx.shown, ctx.formatReal, st.details, r.index) else st.details)
  {
    if |ctx.spans| == 0 then st
    else
      var k := if st.index > 0 then st.index - 1 else if st.index == -1 then |ctx.spans| - 1 else st.index;
      st.(index := k, details := if k >= 0 then Refresh(ctx.shown, ctx.formatReal, st.details, k) else st.details)
  }

  /** selectLowerSpan: move down a row and refresh the details; the view stays. */
  function SelectLower(st: NavState, ctx: NavContext): (r: NavState)
    ensures r.index == LowerIndex(st.index, |ctx.spans|) && r.window == st.window
    ensures r.details == (if |ctx.spans| > 0 && r.index >= 0 then Refresh(ctx.shown, ctx.formatReal, st.details, r.index) else st.details)
  {
    if |ctx.spans| == 0 then st
    else
      var k := if st.index < |ctx.spans| - 1 then st.index + 1 else if st.index == -1 then 0 else st.index;
      st.(index := k, details := if k >= 0 then Refresh(ctx.shown, ctx.formatReal, st.details, k) else st.details)
  }

  /** The state after the Left key: a selection step with Ctrl, a scroll without. */
  function AfterLeft(st: NavState, keys: Keys, ctx: NavContext): NavState
    requires keys.left && keys.ctrl ==> PreviousDefined(st, ctx)
  {
    if !keys.left then st
    else if keys.ctrl then SelectPrevious(st, ctx)
    else st.(window := ScrollLeft(st.window, ctx.scroll))
  }

  /** handleKeyboardNavigation performs no out-of-range access for these keys. */
  predicate KeyboardDefined(st: NavState, keys: Keys, ctx: NavContext)
  {
    keys.focused && !keys.escape ==>
      && (keys.left && keys.ctrl ==> PreviousDefined(st, ctx))
      && (keys.right && keys.ctrl ==> NextDefined(AfterLeft(st, keys, ctx), ctx))
      && (keys.right && !keys.ctrl ==> ctx.shown.Some?)
  }

  /**
   * handleKeyboardNavigation: nothing without focus; Escape deselects and
   * clears the details; otherwise Left, Right, Up and Down act in this
   * order, the arrows selecting with Ctrl and scrolling without.
   */
  function Keyboard(st: NavState, keys: Keys, ctx: NavContext): (r: NavState)
    requires KeyboardDefined(st, keys, ctx)
    ensures !keys.focused ==> r == st
    ensures keys.focused && keys.escape ==> r.index == -1 && r.details == "" && r.window == st.window
  {
    if !keys.focused then st
    else if keys.escape then st.(index := -1, details := "")
    else
      var s1 := AfterLeft(st, keys, ctx);
      var s2 := if !keys.right then s1
                else if keys.ctrl then SelectNext(s1, ctx)
                else s1.(window := ScrollRight(s1.window, ctx.scroll, ctx.shown.value.1));
      var s3 := if keys.up then SelectUpper(s2, ctx) else s2;
      if keys.down then SelectLower(s3, ctx) else s3
  }

  /** The key dispatch keeps the selected index in [-1, n-1]. */
  lemma {:induction false} KeyboardKeepsIndexInRange(st: NavState, keys: Keys, ctx: NavContext)
    requires KeyboardDefined(st, keys, ctx)
    requires -1 <= st.index < |ctx.spans|
    ensures -1 <= Keyboard(st, keys, ctx).index < |ctx.spans|
  {
    if keys.focused && !keys.escape {
      var s1 := AfterLeft(st, keys, ctx);
      assert -1 <= s1.index < |ctx.spans|;
    }
  }

  /** Without Left or Right the view does not move. */
  lemma VerticalKeysKeepView(st: NavState, keys: Keys, ctx: NavContext)
    requires KeyboardDefined(st, keys, ctx)
    requires !keys.left && !keys.right
    ensures Keyboard(st, keys, ctx).window == st.window
  {
  }

  /** With Ctrl held the view moves only when Ctrl+Left or Ctrl+Right actually changed the index. */
  lemma {:induction false} CtrlMovesViewOnlyWithSelection(st: NavState, keys: Keys, ctx: NavContext)
    requires KeyboardDefined(st, keys, ctx)
    requires keys.focused && !keys.escape && keys.ctrl
    ensures Keyboard(st, keys, ctx).window != st.window ==>
      || (keys.left && PreviousMoves(st.index, |ctx.spans|))
      || (keys.right && NextMoves(AfterLeft(st, keys, ctx).index, |ctx.spans|))
  {
    var s1 := AfterLeft(st, keys, ctx);
    assert s1.window != st.window ==> keys.left && PreviousMoves(st.index, |ctx.spans|);
  }
}
