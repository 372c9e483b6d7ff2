/**
 * The state of the trace viewer, TimelineViewer (Viewer/Viewer.hpp and
 * Viewer/Viewer.cpp), without its drawing. Each method performs on the
 * fields the step that the pure modules specify: the loader methods are
 * proved against TraceLoader, the navigation methods against Navigation
 * and the slider methods against Sliders.
 */
module Viewer {
  import opened Wrappers
  import opened ViewerUtils
  import opened ViewerModel
  import opened Navigation
  import opened TraceLoader
  import opened Sliders
  import opened TimeUnits
  import opened DoubleLimits

  /** The text loadFromFile reads: every line followed by a newline. */
  function JoinLines(lines: seq<string>): (r: string)
    ensures r == "" <==> lines == []
  {
    if |lines| == 0 then "" else JoinLines(lines[..|lines| - 1]) + lines[|lines| - 1] + "\n"
  }

  /** One of the loops over a span's "tags", "attributes" or "events": stop at the first element that throws. */
  method RunLoop<A, B>(xs: seq<A>, step: (A, ()) -> (Result<B, string>, ())) returns (r: Result<seq<B>, string>)
    ensures r == Loop(xs, step)
  {
    var done: seq<B> := [];
    var u := ();
    var i := 0;
    while i < |xs|
      invariant 0 <= i <= |xs|
      invariant ThreadAll(xs[..i], (), step) == Threaded(done, None, u)
    {
      assert xs[..i + 1][..i] == xs[..i];
      var (res, u') := step(xs[i], u);
      if res.Failure? {
        ThreadAllStopsAtFailure(xs, i + 1, (), step);
        return Failure(res.error);
      }
      done, u := done + [res.value], u';
      i := i + 1;
    }
    assert xs[..i] == xs;
    return Success(done);
  }

  /** The fields of a span read after its colour, in the order loadFromJSON reads them. */
  method ReadSpanFields(raw: RawSpan, id: string, operation: string, service: string, color: U32)
    returns (r: Result<Span, string>)
    ensures r == DecodeSpanFields(raw, id, operation, service, color)
  {
    if raw.startTime.Bad? { return Failure(raw.startTime.what); }
    if raw.duration.Bad? { return Failure(raw.duration.what); }
    var depth := 0;
    if raw.depth.Some? {
      if raw.depth.value.Bad? { return Failure(raw.depth.value.what); }
      depth := raw.depth.value.value;
    }
    var tags := RunLoop(OrEmpty(raw.tags), TagStep);
    if tags.Failure? { return Failure(tags.error); }
    var attributes := RunLoop(OrEmpty(raw.attributes), AttributeStep);
    if attributes.Failure? { return Failure(attributes.error); }
    var logs := RunLoop(OrEmpty(raw.events), EventStep);
    if logs.Failure? { return Failure(logs.error); }
    return Success(Span(id, operation, service, raw.startTime.value, raw.duration.value, depth,
                        tags.value + attributes.value, logs.value, color, false));
  }

  /**
   * The part of loadFromJSON after a trace's span loop: the starts are
   * moved to begin at 0, the start range is recomputed, an empty trace
   * gets zero bounds, and the spans are sorted.
   */
  method FinishTrace(id: string, name: string, n: nat, decoded: seq<Span>,
                     minTime: real, maxTime: real, minDuration: real, maxDuration: real) returns (t: Trace)
    requires RunningBounds(decoded, minTime, maxTime, minDuration, maxDuration)
    ensures t == Finish(id, name, n, decoded)
  {
    var total := maxTime - minTime;
    var spans := Normalise(decoded, minTime);
    var minD, maxD, minStart, maxStart := minDuration, maxDuration, 0.0, 0.0;
    if |spans| > 0 {
      // the last span's duration, which the normalisation did not change
      minStart, maxStart := StartRange(spans, total - decoded[|decoded| - 1].duration);
    } else {
      minD, maxD := 0.0, 0.0;
    }
    assert minD == DecodedMinDuration(decoded) && maxD == DecodedMaxDuration(decoded);
    assert minStart == ShiftedMinStart(decoded, minTime) && maxStart == ShiftedMaxStart(decoded, minTime, maxTime);
    spans := SortByStart(spans);
    t := Trace(id, name, spans, total, minTime, n, map[], minD, maxD, minStart, maxStart);
  }

  /** The normalisation loop: every start, in place, moved back by d. */
  method Normalise(decoded: seq<Span>, d: real) returns (spans: seq<Span>)
    ensures spans == Shift(decoded, d)
  {
    spans := decoded;
    var k := 0;
    while k < |spans|
      invariant 0 <= k <= |spans| == |decoded|
      invariant forall j :: 0 <= j < k ==> spans[j] == decoded[j].(startTime := decoded[j].startTime - d)
      invariant forall j :: k <= j < |spans| ==> spans[j] == decoded[j]
    {
      spans := spans[k := spans[k].(startTime := spans[k].startTime - d)];
      k := k + 1;
    }
  }

  /** The recomputation of a trace's start range over its normalised spans, from 0 and the given seed. */
  method StartRange(spans: seq<Span>, seed: real) returns (minStart: real, maxStart: real)
    ensures minStart == FoldMin(spans, StartOf, 0.0) && maxStart == FoldMax(spans, StartOf, seed)
  {
    minStart, maxStart := 0.0, seed;
    var j := 0;
    while j < |spans|
      invariant 0 <= j <= |spans|
      invariant minStart == FoldMin(spans[..j], StartOf, 0.0) && maxStart == FoldMax(spans[..j], StartOf, seed)
    {
      assert spans[..j + 1][..j] == spans[..j];
      minStart := Min(minStart, spans[j].startTime);
      maxStart := Max(maxStart, spans[j].startTime);
      j := j + 1;
    }
    assert spans[..j] == spans;
  }

  /** The loop of cacheTraceInformation: the bounds over the traces that have spans, and whether there is one. */
  method GatherCache(ts: seq<Trace>)
    returns (minDuration: real, maxDuration: real, minTime: real, maxTime: real, hasSpans: bool)
    ensures RunningCache(ts, minDuration, maxDuration, minTime, maxTime, hasSpans)
  {
    minDuration, maxDuration, minTime, maxTime, hasSpans := DblMax, 0.0, DblMax, DblLowest, false;
    var i := 0;
    while i < |ts|
      invariant 0 <= i <= |ts|
      invariant RunningCache(ts[..i], minDuration, maxDuration, minTime, maxTime, hasSpans)
    {
      var t := ts[i];
      assert ts[..i + 1] == ts[..i] + [t];
      RunningCacheSnoc(ts[..i], t, minDuration, maxDuration, minTime, maxTime, hasSpans);
      if |t.spans| > 0 {
        minDuration := Min(minDuration, t.minDuration);
        maxDuration := Max(maxDuration, t.maxDuration);
        minTime := Min(minTime, t.minStartTime);
        maxTime := Max(maxTime, t.maxStartTime);
        hasSpans := true;
      }
      i := i + 1;
    }
    assert ts[..i] == ts;
  }

  class TimelineViewer {
    var config: ViewerConfig
    var traces: seq<Trace>
    var colorMap: map<string, U32>
    var viewStart: real
    var viewEnd: real
    var selectedTrace: int
    var selectedSpanIndex: int
    var selectedSpanDetails: string
    var showMinimap: bool
    var zoomSelection: ZoomSelection
    var autoDetectTimeUnit: bool
    var currentTimeUnit: TimeUnit

    /** The IM_COL32 byte order, std::hash<std::string> and the stream output of a double. */
    const layout: ColorLayout
    const hash: string -> U64
    const formatReal: real -> string

    /** The declared defaults; the time-unit fields are not declared in the header, so they are given. */
    constructor (layout: ColorLayout, hash: string -> U64, formatReal: real -> string,
                 autoDetectTimeUnit: bool, currentTimeUnit: TimeUnit)
      ensures this.layout == layout && this.hash == hash && this.formatReal == formatReal
      ensures config == DefaultConfig && traces == [] && colorMap == map[]
      ensures viewStart == 0.0 && viewEnd == 100.0
      ensures selectedTrace == 0 && selectedSpanIndex == -1 && selectedSpanDetails == ""
      ensures showMinimap && !zoomSelection.isSelecting
      ensures this.autoDetectTimeUnit == autoDetectTimeUnit && this.currentTimeUnit == currentTimeUnit
    {
      this.layout := layout;
      this.hash := hash;
      this.formatReal := formatReal;
      config := DefaultConfig;
      traces := [];
      colorMap := map[];
      viewStart := 0.0;
      viewEnd := 100.0;
      selectedTrace := 0;
      selectedSpanIndex := -1;
      selectedSpanDetails := "";
      showMinimap := true;
      zoomSelection := ZoomSelection(false, Vec2(0.0, 0.0), Vec2(0.0, 0.0));
      this.autoDetectTimeUnit := autoDetectTimeUnit;
      this.currentTimeUnit := currentTimeUnit;
    }

    /** m_selected_trace indexes m_traces whenever there is a trace. */
    predicate SelectionFits(ts: seq<Trace>)
      reads this`selectedTrace
    {
      |ts| > 0 ==> 0 <= selectedTrace < |ts|
    }

    predicate SelectionValid()
      reads this`traces, this`selectedTrace
    {
      SelectionFits(traces)
    }

    function Window(): ViewWindow
      reads this
    {
      ViewWindow(viewStart, viewEnd)
    }

    /** The spans and total duration of m_traces[m_selected_trace], when a trace is loaded. */
    function Shown(): Option<(seq<Span>, real)>
      reads this`traces, this`selectedTrace
      requires SelectionValid()
    {
      if |traces| == 0 then None
      else Some((traces[selectedTrace].spans, traces[selectedTrace].totalDuration))
    }

    function Context(trace: Trace): NavContext
      reads this`traces, this`selectedTrace, this`config
      requires SelectionValid()
    {
      NavContext(trace.spans, Shown(), config.scrollPercentage, formatReal)
    }

    function Nav(): NavState
      reads this
    {
      NavState(selectedSpanIndex, Window(), selectedSpanDetails)
    }

    // ------------------------------------------------------------ state reset

    /** clearAll: no traces, no colours, no selection, the default window and the default filters. */
    method ClearAll()
      modifies this`traces, this`colorMap, this`selectedTrace, this`selectedSpanIndex,
               this`selectedSpanDetails, this`viewStart, this`viewEnd, this`config
      ensures traces == [] && colorMap == map[]
      ensures selectedTrace == 0 && selectedSpanIndex == -1 && selectedSpanDetails == ""
      ensures viewStart == 0.0 && viewEnd == 100.0
      ensures config == ResetFilters(old(config))
    {
      traces := [];
      colorMap := map[];
      selectedTrace := 0;
      selectedSpanIndex := -1;
      selectedSpanDetails := "";
      viewStart := 0.0;
      viewEnd := 100.0;
      config := config.(serviceFilter := "", operationFilter := "",
                        minDurationFilter := 0.0, maxDurationFilter := 1000.0,
                        sliderMinBound := 0.0, sliderMaxBound := 1000.0,
                        minTimeFilter := 0.0, maxTimeFilter := 1000.0,
                        timeSliderMinBound := 0.0, timeSliderMaxBound := 1000.0);
    }

    // ----------------------------------------------------------- colour cache

    /** serviceToColor: the remembered colour, or a new hash colour that is remembered from now on. */
    method ServiceToColor(service: string) returns (color: U32)
      modifies this`colorMap
      ensures colorMap == WithServiceColor(old(colorMap), service, FreshColor(layout, hash, service))
      ensures color == colorMap[service]
      ensures service in old(colorMap) ==> color == old(colorMap)[service] && colorMap == old(colorMap)
    {
      if service !in colorMap {
        var c := ColorFromHash(layout, hash(service));
        colorMap := colorMap[service := c];
      }
      color := colorMap[service];
    }

    // ---------------------------------------------------------------- loading

    /** One element of a trace's "spans": the identity fields, then the colour, then the rest. */
    method ReadSpan(raw: RawSpan) returns (r: Result<Span, string>)
      modifies this`colorMap
      ensures (r, colorMap) == DecodeSpan(raw, old(colorMap), layout, hash)
    {
      if raw.spanId.Bad? { return Failure(raw.spanId.what); }
      if raw.operationName.Bad? { return Failure(raw.operationName.what); }
      if raw.serviceName.Bad? { return Failure(raw.serviceName.what); }
      var color := ServiceToColor(raw.serviceName.value);
      r := ReadSpanFields(raw, raw.spanId.value, raw.operationName.value, raw.serviceName.value, color);
    }

    /**
     * The loop over a trace's "spans": each span is read and folded into the
     * running bounds of its start, end and duration, until one throws.
     * (The running start bounds of the source are recomputed after the
     * normalisation, so they are not kept here.)
     */
    method ReadSpans(raws: seq<RawSpan>)
      returns (failure: Option<string>, spans: seq<Span>, minTime: real, maxTime: real, minDuration: real, maxDuration: real)
      modifies this`colorMap
      ensures ThreadAll(raws, old(colorMap), SpanStep(layout, hash)) == Threaded(spans, failure, colorMap)
      ensures RunningBounds(spans, minTime, maxTime, minDuration, maxDuration)
    {
      minTime, maxTime, minDuration, maxDuration := DblMax, 0.0, DblMax, 0.0;
      spans := [];
      ghost var m0, step := colorMap, SpanStep(layout, hash);
      var i := 0;
      while i < |raws|
        invariant 0 <= i <= |raws|
        invariant ThreadAll(raws[..i], m0, step) == Threaded(spans, None, colorMap)
        invariant RunningBounds(spans, minTime, maxTime, minDuration, maxDuration)
      {
        ThreadAllSnoc(raws, i, m0, step, spans, colorMap);
        ghost var m := colorMap;
        var span := ReadSpan(raws[i]);
        assert step(raws[i], m) == (span, colorMap);
        if span.Failure? {
          ThreadAllStopsAtFailure(raws, i + 1, m0, step);
          return Some(span.error), spans, minTime, maxTime, minDuration, maxDuration;
        }
        var s := span.value;
        RunningBoundsSnoc(spans, s, minTime, maxTime, minDuration, maxDuration);
        minTime := Min(minTime, s.startTime);
        maxTime := Max(maxTime, EndOf(s));  // start + duration
        minDuration := Min(minDuration, s.duration);
        maxDuration := Max(maxDuration, s.duration);
        spans := spans + [s];
        i := i + 1;
      }
      assert raws[..i] == raws;
      failure := None;
    }

    /**
     * One element of "traces": the spans are read with running bounds,
     * moved to start at 0, their start range recomputed, and sorted.
     */
    method LoadTrace(raw: RawTrace) returns (r: Result<Trace, string>)
      modifies this`colorMap
      ensures (r, colorMap) == DecodeTrace(raw, old(colorMap), layout, hash)
    {
      if raw.traceId.Bad? { return Failure(raw.traceId.what); }
      if raw.traceName.Bad? { return Failure(raw.traceName.what); }
      var raws := OrEmpty(raw.spans);
      var failure, decoded, minTime, maxTime, minDuration, maxDuration := ReadSpans(raws);
      if failure.Some? {
        return Failure(failure.value);
      }
      assert DecodeTrace(raw, old(colorMap), layout, hash) ==
        (Success(Finish(raw.traceId.value, raw.traceName.value, |raws|, decoded)), colorMap);
      var t := FinishTrace(raw.traceId.value, raw.traceName.value, |raws|, decoded,
                           minTime, maxTime, minDuration, maxDuration);
      return Success(t);
    }

    /**
     * loadFromJSON: a text that does not parse leaves everything as it was;
     * otherwise the traces are replaced by those loaded until one throws,
     * and the message is "" or "Error: " followed by the exception's text.
     */
    method LoadFromJSON(doc: JsonDocument) returns (message: string)
      modifies this`traces, this`colorMap
      ensures LoadOutcome(message, traces, colorMap) == LoadDocument(doc, old(traces), old(colorMap), layout, hash)
    {
      if doc.Unparsable? { return "Error: " + doc.what; }
      traces := [];
      if doc.traces.Bad? { return "Error: " + doc.traces.what; }
      var raws := doc.traces.value;
      var i := 0;
      while i < |raws|
        invariant 0 <= i <= |raws|
        invariant ThreadAll(raws[..i], old(colorMap), TraceStep(layout, hash)) == Threaded(traces, None, colorMap)
      {
        assert raws[..i + 1][..i] == raws[..i];
        var t := LoadTrace(raws[i]);
        if t.Failure? {
          ThreadAllStopsAtFailure(raws, i + 1, old(colorMap), TraceStep(layout, hash));
          return "Error: " + t.error;
        }
        traces := traces + [t.value];
        i := i + 1;
      }
      assert raws[..i] == raws;
      return "";
    }

    // -------------------------------------------------------------- sliders

    /** initializeSliderBounds: both sliders set to the given ranges and every filter to its slider's end. */
    method InitializeSliderBounds(minDuration: real, maxDuration: real, minTime: real, maxTime: real)
      modifies this`config
      ensures config == SliderBounds(old(config), Bounds(minDuration, maxDuration, minTime, maxTime))
    {
      config := config.(sliderMinBound := minDuration,
                        sliderMaxBound := maxDuration * config.durationBufferPercentage);
      config := config.(minDurationFilter := config.sliderMinBound, maxDurationFilter := config.sliderMaxBound);
      config := config.(timeSliderMinBound := minTime, timeSliderMaxBound := maxTime);
      config := config.(minTimeFilter := config.timeSliderMinBound, maxTimeFilter := config.timeSliderMaxBound);
    }

    /**
     * cacheTraceInformation: the bounds over all traces with spans go to the
     * sliders (0..1000 when there are none); with a trace loaded the window
     * becomes the selected trace's whole duration and, when enabled and
     * some trace has spans, the time unit is chosen for the start range.
     */
    method CacheTraceInformation()
      requires SelectionValid()
      modifies this`config, this`viewStart, this`viewEnd, this`currentTimeUnit
      ensures config == SliderBounds(old(config), CachedBounds(traces))
      ensures |traces| > 0 ==> Window() == ViewWindow(0.0, traces[selectedTrace].totalDuration)
      ensures |traces| == 0 ==> Window() == old(Window())
      ensures currentTimeUnit ==
        if |traces| > 0 && autoDetectTimeUnit && HasSpans(traces)
        then BestTimeUnit(CachedBounds(traces).minTime, CachedBounds(traces).maxTime)
        else old(currentTimeUnit)
    {
      var minDuration, maxDuration, minTime, maxTime, hasSpans := GatherCache(traces);
      RunningCacheComplete(traces, minDuration, maxDuration, minTime, maxTime, hasSpans);
      if hasSpans {
        InitializeSliderBounds(minDuration, maxDuration, minTime, maxTime);
      } else {
        InitializeSliderBounds(0.0, 1000.0, 0.0, 1000.0);
      }
      if |traces| > 0 {
        viewStart := 0.0;
        viewEnd := traces[selectedTrace].totalDuration;
        if autoDetectTimeUnit && hasSpans {
          currentTimeUnit := DetectBestTimeUnit(minTime, maxTime);
        }
      }
    }

    /**
     * loadFromFile over the file's lines (None when it cannot be opened)
     * and the document its text parses to: the two file errors change
     * nothing, a failed load changes only the traces and colours, and a
     * successful one also refills the cache.
     */
    method LoadFromFile(path: string, lines: Option<seq<string>>, doc: JsonDocument) returns (message: string)
      requires lines.Some? && lines.value != [] &&
               LoadDocument(doc, traces, colorMap, layout, hash).message == "" ==>
                 SelectionFits(LoadDocument(doc, traces, colorMap, layout, hash).traces)
      modifies this`traces, this`colorMap, this`config, this`viewStart, this`viewEnd, this`currentTimeUnit
      ensures lines.None? ==> message == "Error: Cannot open file " + path
      ensures lines == Some([]) ==> message == "Error: File " + path + " is empty"
      ensures lines.None? || lines == Some([]) ==>
        traces == old(traces) && colorMap == old(colorMap) && config == old(config) &&
        Window() == old(Window()) && currentTimeUnit == old(currentTimeUnit)
      ensures var outcome := LoadDocument(doc, old(traces), old(colorMap), layout, hash);
        lines.Some? && lines.value != [] ==>
          && message == outcome.message && traces == outcome.traces && colorMap == outcome.colors
          && (message != "" ==> config == old(config) && Window() == old(Window()) && currentTimeUnit == old(currentTimeUnit))
          && (message == "" ==> config == SliderBounds(old(config), CachedBounds(traces)))
          && (message == "" && |traces| > 0 ==> Window() == ViewWindow(0.0, traces[selectedTrace].totalDuration))
    {
      if lines.None? {
        return "Error: Cannot open file " + path;
      }
      var content := JoinLines(lines.value);
      if content == "" {
        return "Error: File " + path + " is empty";
      }
      message := LoadFromJSON(doc);
      if message != "" {
        return message;
      }
      CacheTraceInformation();
      return "";
    }

    /**
     * loadFromFile as it evidently should be: the selected trace index is
     * set back to the first trace before cacheTraceInformation reads
     * m_traces[m_selected_trace], so no stale index from an earlier file
     * is needed to be in range.
     */
    method LoadFromFileSelectingFirst(path: string, lines: Option<seq<string>>, doc: JsonDocument) returns (message: string)
      modifies this`traces, this`colorMap, this`config, this`viewStart, this`viewEnd, this`currentTimeUnit, this`selectedTrace
      ensures lines.None? ==> message == "Error: Cannot open file " + path
      ensures lines == Some([]) ==> message == "Error: File " + path + " is empty"
      ensures lines.None? || lines == Some([]) ==>
        traces == old(traces) && colorMap == old(colorMap) && config == old(config) && selectedTrace == old(selectedTrace) &&
        Window() == old(Window()) && currentTimeUnit == old(currentTimeUnit)
      ensures var outcome := LoadDocument(doc, old(traces), old(colorMap), layout, hash);
        lines.Some? && lines.value != [] ==>
          && message == outcome.message && traces == outcome.traces && colorMap == outcome.colors
          && (message != "" ==> config == old(config) && Window() == old(Window()) && currentTimeUnit == old(currentTimeUnit)
                                && selectedTrace == old(selectedTrace))
          && (message == "" ==> selectedTrace == 0 && config == SliderBounds(old(config), CachedBounds(traces)))
          && (message == "" && |traces| > 0 ==> Window() == ViewWindow(0.0, traces[0].totalDuration))
    {
      if lines.None? {
        return "Error: Cannot open file " + path;
      }
      var content := JoinLines(lines.value);
      if content == "" {
        return "Error: File " + path + " is empty";
      }
      message := LoadFromJSON(doc);
      if message != "" {
        return message;
      }
      selectedTrace := 0;
      CacheTraceInformation();
      return "";
    }

    /**
     * The trace combo box: the chosen trace is shown whole and, when it has
     * spans, its cached ranges go to the sliders; the selected span index
     * is kept as it was.
     */
    method SelectTrace(i: int)
      requires 0 <= i < |traces|
      modifies this`selectedTrace, this`viewStart, this`viewEnd, this`config
      ensures selectedTrace == i && Window() == ViewWindow(0.0, traces[i].totalDuration)
      ensures config ==
        if |traces[i].spans| > 0
        then SliderBounds(old(config), Bounds(traces[i].minDuration, traces[i].maxDuration,
                                              traces[i].minStartTime, traces[i].maxStartTime))
        else old(config)
    {
      selectedTrace := i;
      viewStart := 0.0;
      viewEnd := traces[i].totalDuration;
      if |traces[i].spans| > 0 {
        InitializeSliderBounds(traces[i].minDuration, traces[i].maxDuration,
                               traces[i].minStartTime, traces[i].maxStartTime);
      }
    }

    /**
     * The trace combo box as evidently intended: the chosen trace is shown
     * with no span selected, so every key is safe on it afterwards.
     */
    method SelectTraceClearingSelection(i: int)
      requires 0 <= i < |traces|
      modifies this`selectedTrace, this`viewStart, this`viewEnd, this`config,
               this`selectedSpanIndex, this`selectedSpanDetails
      ensures selectedTrace == i && Window() == ViewWindow(0.0, traces[i].totalDuration)
      ensures config ==
        if |traces[i].spans| > 0
        then SliderBounds(old(config), Bounds(traces[i].minDuration, traces[i].maxDuration,
                                              traces[i].minStartTime, traces[i].maxStartTime))
        else old(config)
      ensures selectedSpanIndex == -1 && selectedSpanDetails == ""
      ensures forall keys :: KeyboardDefined(Nav(), keys, Context(traces[selectedTrace]))
    {
      SelectTrace(i);
      selectedSpanIndex := -1;
      selectedSpanDetails := "";
      forall keys ensures KeyboardDefined(Nav(), keys, Context(traces[selectedTrace])) {
        InRangeIndexIsSafe(Nav(), keys, Context(traces[selectedTrace]));
      }
    }

    /** The duration sliders were moved to lo and hi; a minimum above the maximum raises the maximum. */
    method EditDurationFilters(lo: real, hi: real)
      modifies this`config
      ensures config == FixDurationFilters(old(config), lo, hi)
    {
      config := config.(minDurationFilter := lo, maxDurationFilter := hi);
      if config.minDurationFilter > config.maxDurationFilter {
        config := config.(maxDurationFilter := config.minDurationFilter);
      }
    }

    /** The start-time sliders were moved to lo and hi, with the same fix-up. */
    method EditTimeFilters(lo: real, hi: real)
      modifies this`config
      ensures config == FixTimeFilters(old(config), lo, hi)
    {
      config := config.(minTimeFilter := lo, maxTimeFilter := hi);
      if config.minTimeFilter > config.maxTimeFilter {
        config := config.(maxTimeFilter := config.minTimeFilter);
      }
    }

    // -------------------------------------------------------------- selection

    /** updateSelectedSpanDetails: the description of span k of the shown trace, if there is such a span. */
    method UpdateSelectedSpanDetails(k: int)
      requires SelectionValid()
      modifies this`selectedSpanDetails
      ensures selectedSpanDetails == Refresh(Shown(), formatReal, old(selectedSpanDetails), k)
    {
      ghost var shown := Shown();
      if |traces| == 0 || k < 0 || k >= |traces[selectedTrace].spans| {
        assert Refresh(shown, formatReal, selectedSpanDetails, k) == selectedSpanDetails;
        return;
      }
      var span := traces[selectedTrace].spans[k];
      assert Refresh(shown, formatReal, selectedSpanDetails, k) == SpanDescription(span, formatReal);
      selectedSpanDetails := SpanDescription(span, formatReal);
    }

    /** updateViewToCenterOnSpan, within the shown trace. */
    method UpdateViewToCenterOnSpan(span: Span)
      requires |traces| > 0 && 0 <= selectedTrace < |traces|
      modifies this`viewStart, this`viewEnd
      ensures Window() == CenterOn(old(Window()), span, traces[selectedTrace].totalDuration)
    {
      var trace := traces[selectedTrace];
      var range := viewEnd - viewStart;
      var center := span.startTime + span.duration / 2.0;
      viewStart := center - range / 2.0;
      viewEnd := center + range / 2.0;
      viewStart := Max(0.0, viewStart);
      viewEnd := Min(trace.totalDuration, viewEnd);
    }

    method SelectPreviousSpan(trace: Trace)
      requires SelectionValid() && PreviousDefined(Nav(), Context(trace))
      modifies this`selectedSpanIndex, this`selectedSpanDetails, this`viewStart, this`viewEnd
      ensures Nav() == SelectPrevious(old(Nav()), Context(trace))
    {
      ghost var st := Nav();
      ghost var ctx := Context(trace);
      if selectedSpanIndex > 0 && |trace.spans| > 0 {
        selectedSpanIndex := selectedSpanIndex - 1;
        var span := trace.spans[selectedSpanIndex];
        assert Shown() == ctx.shown;
        UpdateSelectedSpanDetails(selectedSpanIndex);
        UpdateViewToCenterOnSpan(span);
        assert Window() == CenterOn(st.window, ctx.spans[st.index - 1], ctx.shown.value.1);
        assert Nav() == NavState(st.index - 1, Window(), selectedSpanDetails);
      } else {
        assert !PreviousMoves(st.index, |ctx.spans|);
      }
    }

    method SelectNextSpan(trace: Trace)
      requires SelectionValid() && NextDefined(Nav(), Context(trace))
      modifies this`selectedSpanIndex, this`selectedSpanDetails, this`viewStart, this`viewEnd
      ensures Nav() == SelectNext(old(Nav()), Context(trace))
    {
      ghost var st := Nav();
      ghost var ctx := Context(trace);
      if |trace.spans| > 0 && selectedSpanIndex < |trace.spans| - 1 {
        selectedSpanIndex := selectedSpanIndex + 1;
        var span := trace.spans[selectedSpanIndex];
        assert Shown() == ctx.shown;
        UpdateSelectedSpanDetails(selectedSpanIndex);
        UpdateViewToCenterOnSpan(span);
        assert Window() == CenterOn(st.window, ctx.spans[st.index + 1], ctx.shown.value.1);
        assert Nav() == NavState(st.index + 1, Window(), selectedSpanDetails);
      } else {
        assert !NextMoves(st.index, |ctx.spans|);
      }
    }

    method SelectUpperSpan(trace: Trace)
      requires SelectionValid()
      modifies this`selectedSpanIndex, this`selectedSpanDetails
      ensures Nav() == SelectUpper(old(Nav()), Context(trace))
    {
      if |trace.spans| > 0 {
        if selectedSpanIndex > 0 {
          selectedSpanIndex := selectedSpanIndex - 1;
        } else if selectedSpanIndex == -1 && |trace.spans| > 0 {
          selectedSpanIndex := |trace.spans| - 1;
        }
        assert selectedSpanIndex == UpperIndex(old(selectedSpanIndex), |trace.spans|);
        if selectedSpanIndex >= 0 {
          UpdateSelectedSpanDetails(selectedSpanIndex);
        }
      }
    }

    method SelectLowerSpan(trace: Trace)
      requires SelectionValid()
      modifies this`selectedSpanIndex, this`selectedSpanDetails
      ensures Nav() == SelectLower(old(Nav()), Context(trace))
    {
      if |trace.spans| > 0 {
        if selectedSpanIndex < |trace.spans| - 1 {
          selectedSpanIndex := selectedSpanIndex + 1;
        } else if selectedSpanIndex == -1 && |trace.spans| > 0 {
          // never taken: with a span, -1 < n - 1 has already stepped to 0
          assert false;
        }
        assert selectedSpanIndex == LowerIndex(old(selectedSpanIndex), |trace.spans|);
        if selectedSpanIndex >= 0 {
          UpdateSelectedSpanDetails(selectedSpanIndex);
        }
      }
    }

    // ------------------------------------------------------------- scrolling

    method ScrollLeft()
      modifies this`viewStart, this`viewEnd
      ensures Window() == Navigation.ScrollLeft(old(Window()), config.scrollPercentage)
    {
      var range := viewEnd - viewStart;
      var amount := range * config.scrollPercentage;
      viewStart := Max(0.0, viewStart - amount);
      viewEnd := Max(range, viewEnd - amount);
    }

    method ScrollRight()
      requires |traces| > 0 && 0 <= selectedTrace < |traces|
      modifies this`viewStart, this`viewEnd
      ensures Window() == Navigation.ScrollRight(old(Window()), config.scrollPercentage, traces[selectedTrace].totalDuration)
    {
      var trace := traces[selectedTrace];
      var range := viewEnd - viewStart;
      var amount := range * config.scrollPercentage;
      viewStart := Min(trace.totalDuration - range, viewStart + amount);
      viewEnd := Min(trace.totalDuration, viewEnd + amount);
    }

    /**
     * handleKeyboardNavigation on the keys of one frame, for the trace the
     * timeline shows.
     */
    method HandleKeyboardNavigation(trace: Trace, keys: Keys)
      requires SelectionValid() && KeyboardDefined(Nav(), keys, Context(trace))
      modifies this`selectedSpanIndex, this`selectedSpanDetails, this`viewStart, this`viewEnd
      ensures Nav() == Keyboard(old(Nav()), keys, Context(trace))
    {
      if !keys.focused {
        return;
      }
      if keys.escape {
        selectedSpanIndex := -1;
        selectedSpanDetails := "";
        return;
      }
      if keys.left {
        if keys.ctrl { SelectPreviousSpan(trace); } else { ScrollLeft(); }
      }
      assert Nav() == AfterLeft(old(Nav()), keys, Context(trace));
      if keys.right {
        if keys.ctrl { SelectNextSpan(trace); } else { ScrollRight(); }
      }
      if keys.up {
        SelectUpperSpan(trace);
      }
      if keys.down {
        SelectLowerSpan(trace);
      }
    }

    // ------------------------------------------------------------------ zoom

    /**
     * rectangularZoom for one frame, given whether the canvas was clicked,
     * whether the button was released and where the mouse is.
     */
    method RectangularZoom(trace: Trace, canvasPos: Vec2, canvasSize: Vec2,
                           pressed: bool, released: bool, mouse: Vec2)
      modifies this`zoomSelection, this`viewStart, this`viewEnd
      ensures (zoomSelection, Window()) ==
        Navigation.RectangularZoom(old(zoomSelection), old(Window()), pressed, released, mouse,
                                   canvasPos, canvasSize, config, trace.totalDuration)
    {
      if pressed {
        zoomSelection := zoomSelection.(isSelecting := true, start := mouse);
      }
      if zoomSelection.isSelecting {
        zoomSelection := zoomSelection.(end := mouse);
        if released {
          if Distance(zoomSelection.end.x, zoomSelection.start.x) > config.minSelectionWidth {
            var minX := Min(zoomSelection.start.x, zoomSelection.end.x);
            var maxX := Max(zoomSelection.start.x, zoomSelection.end.x);
            var startTime := PixelToTime(minX, canvasPos.x, canvasSize.x, viewStart, viewEnd);
            var endTime := PixelToTime(maxX, canvasPos.x, canvasSize.x, viewStart, viewEnd);
            viewStart := Max(0.0, startTime);
            viewEnd := Min(trace.totalDuration, endTime);
          }
          zoomSelection := zoomSelection.(isSelecting := false);
        }
      }
    }

    /** scrollZoom for a wheel movement at the mouse position. */
    method ScrollZoom(trace: Trace, canvasPos: Vec2, canvasSize: Vec2, mouse: Vec2, wheel: real)
      modifies this`viewStart, this`viewEnd
      ensures Window() == Navigation.ScrollZoom(old(Window()), mouse.x, canvasPos.x, canvasSize.x,
                                                wheel, config, trace.totalDuration)
    {
      var range := viewEnd - viewStart;
      var ratio := CalculateTimeRatio(mouse.x - canvasPos.x, 0.0, canvasSize.x);
      var mouseTime := Interpolate(viewStart, viewEnd, ratio);
      var factor := if wheel > 0.0 then config.zoomFactorIn else config.zoomFactorOut;
      viewStart := mouseTime - (mouseTime - viewStart) * factor;
      viewStart := Max(0.0, viewStart);
      viewEnd := viewStart + range * factor;
      viewEnd := Min(trace.totalDuration, viewEnd);
    }

    method ResetZoom(trace: Trace)
      modifies this`viewStart, this`viewEnd
      ensures Window() == ViewWindow(0.0, trace.totalDuration)
    {
      viewStart := 0.0;
      viewEnd := trace.totalDuration;
    }

    /** The context menu's "Deselect Span", and a click on the canvas outside every span. */
    method DeselectSpan()
      modifies this`selectedSpanIndex, this`selectedSpanDetails
      ensures selectedSpanIndex == -1 && selectedSpanDetails == ""
    {
      selectedSpanIndex := -1;
      selectedSpanDetails := "";
    }

    /** The context menu's "Center on Selected Span", offered only while the index is in range. */
    method CenterOnSelectedSpan(trace: Trace)
      requires |traces| > 0 && 0 <= selectedTrace < |traces|
      modifies this`viewStart, this`viewEnd
      ensures 0 <= selectedSpanIndex < |trace.spans| ==>
        Window() == CenterOn(old(Window()), trace.spans[selectedSpanIndex], traces[selectedTrace].totalDuration)
      ensures !(0 <= selectedSpanIndex < |trace.spans|) ==> Window() == old(Window())
    {
      if 0 <= selectedSpanIndex < |trace.spans| {
        UpdateViewToCenterOnSpan(trace.spans[selectedSpanIndex]);
      }
    }
  }

  /**
   * Every key is safe on the shown trace while the selected index lies in
   * [-1, n-1]: the index a selection step reaches stays in the spans.
   */
  lemma {:induction false} InRangeIndexIsSafe(st: NavState, keys: Keys, ctx: NavContext)
    requires -1 <= st.index < |ctx.spans| && ctx.shown.Some?
    ensures KeyboardDefined(st, keys, ctx)
  {
    if keys.focused && !keys.escape {
      assert PreviousDefined(st, ctx);
      var s1 := AfterLeft(st, keys, ctx);
      assert -1 <= s1.index < |ctx.spans|;
    }
  }

  /** A trace record with both names and no "spans" array: it loads, with no spans and no new colour. */
  predicate SpanlessRecord(raw: RawTrace)
  {
    raw.traceId.Present? && raw.traceName.Present? && raw.spans.None?
  }

  lemma {:induction false} SpanlessRecordsLoad(raws: seq<RawTrace>, m: map<string, U32>, layout: ColorLayout, hash: string -> U64)
    requires forall i :: 0 <= i < |raws| ==> SpanlessRecord(raws[i])
    ensures ThreadAll(raws, m, TraceStep(layout, hash)).failure.None?
    ensures ThreadAll(raws, m, TraceStep(layout, hash)).state == m
    decreases |raws|
  {
    if |raws| > 0 {
      var pre := raws[..|raws| - 1];
      assert forall i :: 0 <= i < |pre| ==> pre[i] == raws[i];
      SpanlessRecordsLoad(pre, m, layout, hash);
      var raw := raws[|raws| - 1];
      assert SpanlessRecord(raw);
      assert OrEmpty(raw.spans) == [];
      assert ThreadAll(OrEmpty(raw.spans), m, SpanStep(layout, hash)) == Threaded([], None, m);
    }
  }

  /**
   * The Load button: loadFromFile runs cacheTraceInformation, which reads
   * m_traces[m_selected_trace], before the button resets the index to 0.
   * A first file with more traces than the second lets the combo box
   * select an index that the second, successfully loaded, file does not
   * have.
   */
  lemma ReloadLeavesStaleTraceIndex(first: seq<RawTrace>, second: seq<RawTrace>, ts: seq<Trace>,
                                    m: map<string, U32>, layout: ColorLayout, hash: string -> U64, selected: int)
    requires forall i :: 0 <= i < |first| ==> SpanlessRecord(first[i])
    requires forall i :: 0 <= i < |second| ==> SpanlessRecord(second[i])
    requires 0 <= selected < |first| && 0 < |second| <= selected
    ensures var o1 := LoadDocument(Parsed(Present(first)), ts, m, layout, hash);
            var o2 := LoadDocument(Parsed(Present(second)), o1.traces, o1.colors, layout, hash);
            && o1.message == "" && 0 <= selected < |o1.traces|
            && o2.message == "" && 0 < |o2.traces| && !(0 <= selected < |o2.traces|)
  {
    SpanlessRecordsLoad(first, m, layout, hash);
    SpanlessRecordsLoad(second, m, layout, hash);
  }

  /** The concrete case: trace 4 of a five-trace file is selected, then a two-trace file is loaded. */
  lemma StaleIndexAfterFiveThenTwo(ts: seq<Trace>, m: map<string, U32>, layout: ColorLayout, hash: string -> U64)
    ensures var r := RawTrace(Present("t"), Present("n"), None);
            var o1 := LoadDocument(Parsed(Present([r, r, r, r, r])), ts, m, layout, hash);
            var o2 := LoadDocument(Parsed(Present([r, r])), o1.traces, o1.colors, layout, hash);
            o1.message == "" && |o1.traces| == 5 && o2.message == "" && |o2.traces| == 2
  {
    var r := RawTrace(Present("t"), Present("n"), None);
    ReloadLeavesStaleTraceIndex([r, r, r, r, r], [r, r], ts, m, layout, hash, 4);
  }

  /**
   * An index kept from a trace with more spans sends Ctrl+Left past the end
   * of the shown trace: the span it would read does not exist.
   */
  lemma StaleIndexLeavesTheTrace(st: NavState, ctx: NavContext)
    requires 0 < |ctx.spans| && st.index > |ctx.spans|
    ensures PreviousMoves(st.index, |ctx.spans|) && !PreviousDefined(st, ctx)
  {
  }
}
