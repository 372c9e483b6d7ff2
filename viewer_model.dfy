/**
 * The records of the trace viewer (Viewer/Viewer.hpp) and the pure queries
 * the viewer asks of them: a span's bar layout, the four-way span filter and
 * the text shown for a selected span.
 */
module ViewerModel {
  import opened ViewerUtils
  import opened Text

  /** One span of a trace, as the viewer keeps it after loading. */
  datatype Span = Span(
    spanId: string,
    operationName: string,
    serviceName: string,
    startTime: real,
    duration: real,
    depth: int,
    tags: seq<(string, string)>,
    logs: seq<string>,
    color: U32,
    selected: bool)

  /** One loaded trace with the aggregates cached at load time. */
  datatype Trace = Trace(
    traceId: string,
    traceName: string,
    spans: seq<Span>,
    totalDuration: real,
    startTime: real,
    totalSpans: nat,
    serviceColors: map<string, U32>,
    minDuration: real,
    maxDuration: real,
    minStartTime: real,
    maxStartTime: real)

  /**
   * The part of ViewerConfig that the viewer's logic reads; the remaining
   * fields only size and place drawn items.
   */
  datatype ViewerConfig = ViewerConfig(
    spanHeight: real,
    spanSpacing: real,
    serviceFilter: string,
    operationFilter: string,
    minDurationFilter: real,
    maxDurationFilter: real,
    sliderMinBound: real,
    sliderMaxBound: real,
    minTimeFilter: real,
    maxTimeFilter: real,
    timeSliderMinBound: real,
    timeSliderMaxBound: real,
    minSpanWidth: real,
    depthIndentation: real,
    timelineContentOffset: real,
    minSelectionWidth: real,
    zoomFactorIn: real,
    zoomFactorOut: real,
    scrollPercentage: real,
    minimapBrightnessFactor: real,
    durationBufferPercentage: real)

  /** The member initialisers of ViewerConfig. */
  const DefaultConfig: ViewerConfig := ViewerConfig(
    20.0, 25.0, "", "",
    0.0, 1000.0, 0.0, 1000.0,
    0.0, 1000.0, 0.0, 1000.0,
    8.0, 20.0, 60.0, 10.0,
    0.8, 1.25, 0.1, 1.4, 1.05)

  /** Every filter lies inside its slider and has min <= max. */
  predicate FiltersOrdered(c: ViewerConfig)
  {
    && c.sliderMinBound <= c.minDurationFilter <= c.maxDurationFilter <= c.sliderMaxBound
    && c.timeSliderMinBound <= c.minTimeFilter <= c.maxTimeFilter <= c.timeSliderMaxBound
  }

  /** The default filters are ordered, and wheel-in and wheel-out are inverse factors around 1. */
  lemma DefaultConfigIsConsistent()
    ensures FiltersOrdered(DefaultConfig)
    ensures DefaultConfig.serviceFilter == "" && DefaultConfig.operationFilter == ""
    ensures DefaultConfig.zoomFactorIn < 1.0 < DefaultConfig.zoomFactorOut
    ensures DefaultConfig.zoomFactorIn * DefaultConfig.zoomFactorOut == 1.0
  {
  }

  /** The filter fields clearAll writes back (Viewer/Viewer.cpp, clearAll). */
  function ResetFilters(c: ViewerConfig): (r: ViewerConfig)
    ensures FiltersOrdered(r)
    ensures r.serviceFilter == "" && r.operationFilter == ""
  {
    c.(serviceFilter := "", operationFilter := "",
       minDurationFilter := 0.0, maxDurationFilter := 1000.0,
       sliderMinBound := 0.0, sliderMaxBound := 1000.0,
       minTimeFilter := 0.0, maxTimeFilter := 1000.0,
       timeSliderMinBound := 0.0, timeSliderMaxBound := 1000.0)
  }

  /** clearAll restores exactly the declared defaults of every field it touches and keeps the others. */
  lemma ResetFiltersRestoresDefaults(c: ViewerConfig)
    ensures ResetFilters(c) == DefaultConfig.(
      spanHeight := c.spanHeight, spanSpacing := c.spanSpacing,
      minSpanWidth := c.minSpanWidth, depthIndentation := c.depthIndentation,
      timelineContentOffset := c.timelineContentOffset, minSelectionWidth := c.minSelectionWidth,
      zoomFactorIn := c.zoomFactorIn, zoomFactorOut := c.zoomFactorOut,
      scrollPercentage := c.scrollPercentage, minimapBrightnessFactor := c.minimapBrightnessFactor,
      durationBufferPercentage := c.durationBufferPercentage)
    ensures ResetFilters(DefaultConfig) == DefaultConfig
  {
  }

  // ------------------------------------------------------------- filtering

  predicate DurationInRange(c: ViewerConfig, s: Span) { c.minDurationFilter <= s.duration <= c.maxDurationFilter }
  predicate StartInRange(c: ViewerConfig, s: Span) { c.minTimeFilter <= s.startTime <= c.maxTimeFilter }
  predicate ServiceMatches(c: ViewerConfig, s: Span) { c.serviceFilter == "" || ContainsIgnoreCase(s.serviceName, c.serviceFilter) }
  predicate OperationMatches(c: ViewerConfig, s: Span) { c.operationFilter == "" || ContainsIgnoreCase(s.operationName, c.operationFilter) }

  /**
   * passesFilters: the duration and start-time windows are inclusive on both
   * ends, and an empty text filter lets every span through.
   */
  function PassesFilters(c: ViewerConfig, s: Span): (r: bool)
    ensures r <==> DurationInRange(c, s) && StartInRange(c, s) && ServiceMatches(c, s) && OperationMatches(c, s)
  {
    if s.duration < c.minDurationFilter || s.duration > c.maxDurationFilter then false
    else if s.startTime < c.minTimeFilter || s.startTime > c.maxTimeFilter then false
    else if |c.serviceFilter| > 0 && !ContainsIgnoreCase(s.serviceName, c.serviceFilter) then false
    else if |c.operationFilter| > 0 && !ContainsIgnoreCase(s.operationName, c.operationFilter) then false
    else true
  }

  /** Typing the filter text in another case selects the same spans. */
  lemma {:induction false} FilterTextIgnoresCase(c: ViewerConfig, s: Span)
    ensures PassesFilters(c.(serviceFilter := ToLower(c.serviceFilter), operationFilter := ToLower(c.operationFilter)), s)
        == PassesFilters(c, s)
  {
    ContainsIgnoresCase(s.serviceName, c.serviceFilter);
    ContainsIgnoresCase(s.operationName, c.operationFilter);
    ToLowerIdempotent(s.serviceName);
    ToLowerIdempotent(s.operationName);
    ContainsIgnoresCase(s.serviceName, ToLower(c.serviceFilter));
    ContainsIgnoresCase(s.operationName, ToLower(c.operationFilter));
    ToLowerIdempotent(c.serviceFilter);
    ToLowerIdempotent(c.operationFilter);
  }

  /** A filter made of a piece of the span's own names lets the span through when its numbers are in range. */
  lemma {:induction false} NamePiecesPass(c: ViewerConfig, s: Span, sb: string, sa: string, ob: string, oa: string)
    requires s.serviceName == sb + c.serviceFilter + sa && s.operationName == ob + c.operationFilter + oa
    requires DurationInRange(c, s) && StartInRange(c, s)
    ensures PassesFilters(c, s)
  {
    ContainsOwnPiece(sb, c.serviceFilter, sa);
    ContainsOwnPiece(ob, c.operationFilter, oa);
  }

  // ---------------------------------------------------------------- layout

  /** Where a span's bar is drawn. */
  datatype SpanLayout = SpanLayout(yPos: real, startX: real, endX: real, width: real, indent: real)

  /**
   * calculateSpanLayout: the bar's row position, its pixel extent in the
   * current view, a width of at least min_span_width and the indentation
   * for its depth.
   */
  function CalculateSpanLayout(c: ViewerConfig, viewStart: real, viewEnd: real, span: Span,
                               yOffset: real, visualRow: nat, canvasPos: Vec2, canvasWidth: real): (l: SpanLayout)
    ensures l.width >= c.minSpanWidth && l.width >= l.endX - l.startX
    ensures l.width == c.minSpanWidth || l.width == l.endX - l.startX
    ensures l.indent == span.depth as real * c.depthIndentation
    ensures l.yPos == yOffset + visualRow as real * c.spanSpacing
    ensures viewStart < viewEnd && 0.0 < canvasWidth ==>
      && PixelToTime(l.startX, canvasPos.x, canvasWidth, viewStart, viewEnd) == span.startTime
      && PixelToTime(l.endX, canvasPos.x, canvasWidth, viewStart, viewEnd) == span.startTime + span.duration
  {
    var startX := canvasPos.x + TimeToPixel(span.startTime, viewStart, viewEnd, canvasWidth);
    var endX := canvasPos.x + TimeToPixel(span.startTime + span.duration, viewStart, viewEnd, canvasWidth);
    EdgeUnderItsTime(span.startTime, viewStart, viewEnd, canvasPos.x, canvasWidth);
    EdgeUnderItsTime(span.startTime + span.duration, viewStart, viewEnd, canvasPos.x, canvasWidth);
    SpanLayout(yOffset + visualRow as real * c.spanSpacing, startX, endX,
               Max(c.minSpanWidth, endX - startX), span.depth as real * c.depthIndentation)
  }

  lemma EdgeUnderItsTime(t: real, s: real, e: real, canvasPos: real, width: real)
    ensures s < e && 0.0 < width ==> PixelToTime(canvasPos + TimeToPixel(t, s, e, width), canvasPos, width, s, e) == t
  {
    if s < e && 0.0 < width {
      PixelOfTimeRoundTrip(t, s, e, canvasPos, width);
    }
  }

  // -------------------------------------------------------- span details

  /** One "    key: value\n" line of the tag block. */
  function TagLine(tag: (string, string)): string
  {
    "    " + tag.0 + ": " + tag.1 + "\n"
  }

  /** One "    log\n" line of the log block. */
  function LogLine(log: string): string
  {
    "    " + log + "\n"
  }

  /** The lines of the tag block, one per tag in order. */
  function TagLines(tags: seq<(string, string)>): (r: string)
    ensures tags == [] <==> r == ""
  {
    if |tags| == 0 then "" else TagLine(tags[0]) + TagLines(tags[1..])
  }

  /** The lines of the log block, one per log in order. */
  function LogLines(logs: seq<string>): (r: string)
    ensures logs == [] <==> r == ""
  {
    if |logs| == 0 then "" else LogLine(logs[0]) + LogLines(logs[1..])
  }

  lemma {:induction false} TagLinesConcat(a: seq<(string, string)>, b: seq<(string, string)>)
    ensures TagLines(a + b) == TagLines(a) + TagLines(b)
  {
    if a == [] {
      assert a + b == b;
    } else {
      assert (a + b)[0] == a[0];
      assert (a + b)[1..] == a[1..] + b;
      TagLinesConcat(a[1..], b);
    }
  }

  lemma {:induction false} LogLinesConcat(a: seq<string>, b: seq<string>)
    ensures LogLines(a + b) == LogLines(a) + LogLines(b)
  {
    if a == [] {
      assert a + b == b;
    } else {
      assert (a + b)[0] == a[0];
      assert (a + b)[1..] == a[1..] + b;
      LogLinesConcat(a[1..], b);
    }
  }

  /** A tag written after the others adds exactly its own line at the end of the block. */
  lemma TagLinesSnoc(tags: seq<(string, string)>, tag: (string, string))
    ensures TagLines(tags + [tag]) == TagLines(tags) + TagLine(tag)
  {
    TagLinesConcat(tags, [tag]);
    assert TagLines([tag]) == TagLine(tag) + TagLines([]);
  }

  /** A log written after the others adds exactly its own line at the end of the block. */
  lemma LogLinesSnoc(logs: seq<string>, log: string)
    ensures LogLines(logs + [log]) == LogLines(logs) + LogLine(log)
  {
    LogLinesConcat(logs, [log]);
    assert LogLines([log]) == LogLine(log) + LogLines([]);
  }

  /** The fixed lines every description starts with; doubles are printed by `formatReal`. */
  function SpanFields(span: Span, formatReal: real -> string): string
  {
    "Span {\n"
    + "  ID: " + span.spanId + "\n"
    + "  Operation: " + span.operationName + "\n"
    + "  Service: " + span.serviceName + "\n"
    + "  Start Time: " + formatReal(span.startTime) + "ns\n"
    + "  Duration: " + formatReal(span.duration) + "ns\n"
    + "  Depth: " + IntToString(span.depth) + "\n"
  }

  /** The "  Tags:" header and its lines, only when there are tags. */
  function TagBlock(tags: seq<(string, string)>): string
  {
    if |tags| == 0 then "" else "  Tags:\n" + TagLines(tags)
  }

  /** The "  Logs:" header and its lines, only when there are logs. */
  function LogBlock(logs: seq<string>): string
  {
    if |logs| == 0 then "" else "  Logs:\n" + LogLines(logs)
  }

  /** A description with the given fixed lines: the tag block, the log block and the closing "}". */
  function Description(fields: string, tags: seq<(string, string)>, logs: seq<string>): string
  {
    fields + TagBlock(tags) + LogBlock(logs) + "}"
  }

  /**
   * operator<< for Span: the fixed fields, then a "  Tags:" block only when
   * there are tags and a "  Logs:" block only when there are logs, closed
   * by "}".
   */
  function SpanDescription(span: Span, formatReal: real -> string): (r: string)
    ensures |r| > |SpanFields(span, formatReal)| && r[..|SpanFields(span, formatReal)|] == SpanFields(span, formatReal)
    ensures r[|r| - 1] == '}'
    ensures span.tags == [] && span.logs == [] ==> r == SpanFields(span, formatReal) + "}"
  {
    DescriptionFrame(SpanFields(span, formatReal), span.tags, span.logs);
    Description(SpanFields(span, formatReal), span.tags, span.logs)
  }

  /** Every description starts with its fixed lines and ends with "}". */
  lemma DescriptionFrame(fields: string, tags: seq<(string, string)>, logs: seq<string>)
    ensures var d := Description(fields, tags, logs);
            |d| > |fields| && d[..|fields|] == fields && d[|d| - 1] == '}'
    ensures tags == [] && logs == [] ==> Description(fields, tags, logs) == fields + "}"
  {
    var m := fields + TagBlock(tags) + LogBlock(logs);
    var d := m + "}";
    assert d[..|fields|] == m[..|fields|] == (fields + TagBlock(tags))[..|fields|] == fields;
  }

  /**
   * The whole description: the fixed lines, the tag block (the "  Tags:"
   * header and one line per tag, in order, only when there are tags), the
   * log block likewise, and the closing "}".
   */
  lemma SpanDescriptionBlocks(span: Span, formatReal: real -> string)
    ensures SpanDescription(span, formatReal)
            == SpanFields(span, formatReal)
               + (if span.tags == [] then "" else "  Tags:\n" + TagLines(span.tags))
               + (if span.logs == [] then "" else "  Logs:\n" + LogLines(span.logs))
               + "}"
    ensures SpanDescription(span, formatReal) == Description(SpanFields(span, formatReal), span.tags, span.logs)
  {
  }

  /** One more tag adds its line at the end of the block, and the header with the first tag. */
  lemma TagBlockSnoc(tags: seq<(string, string)>, tag: (string, string))
    ensures TagBlock(tags + [tag]) == TagBlock(tags) + ((if tags == [] then "  Tags:\n" else "") + TagLine(tag))
  {
    TagLinesSnoc(tags, tag);
  }

  /** One more log adds its line at the end of the block, and the header with the first log. */
  lemma LogBlockSnoc(logs: seq<string>, log: string)
    ensures LogBlock(logs + [log]) == LogBlock(logs) + ((if logs == [] then "  Logs:\n" else "") + LogLine(log))
  {
    LogLinesSnoc(logs, log);
  }

  /** The fixed lines do not depend on the tags or the logs. */
  lemma SpanFieldsIgnoreBlocks(span: Span, tags: seq<(string, string)>, logs: seq<string>, formatReal: real -> string)
    ensures SpanFields(span.(tags := tags, logs := logs), formatReal) == SpanFields(span, formatReal)
  {
  }

  lemma ConcatAssoc(a: string, b: string, c: string)
    ensures a + (b + c) == a + b + c
  {
  }

  lemma InsertBetween(a: string, y: string, c: string, d: string)
    ensures |a| <= |a + c + d|
    ensures a + y + c + d == (a + c + d)[..|a|] + y + (a + c + d)[|a|..]
  {
    assert (a + c + d)[..|a|] == a;
    assert (a + c + d)[|a|..] == c + d;
  }

  /**
   * One more tag puts its line at the end of the tag block, which is created
   * with its "  Tags:" header for the first tag; the rest of the text is kept.
   */
  lemma DescriptionWithOneMoreTag(fields: string, tags: seq<(string, string)>, logs: seq<string>, tag: (string, string))
    ensures var before := Description(fields, tags, logs);
            var k := |fields| + |TagBlock(tags)|;
            k <= |before| && Description(fields, tags + [tag], logs) == before[..k] + ((if tags == [] then "  Tags:\n" else "") + TagLine(tag)) + before[k..]
  {
    TagBlockSnoc(tags, tag);
    var y := (if tags == [] then "  Tags:\n" else "") + TagLine(tag);
    var a := fields + TagBlock(tags);
    assert Description(fields, tags, logs) == a + LogBlock(logs) + "}";
    assert Description(fields, tags + [tag], logs) == fields + (TagBlock(tags) + y) + LogBlock(logs) + "}";
    ConcatAssoc(fields, TagBlock(tags), y);
    InsertBetween(a, y, LogBlock(logs), "}");
    assert |a| == |fields| + |TagBlock(tags)|;
  }

  /**
   * One more log puts its line just before the closing "}", after a new
   * "  Logs:" header for the first log; the rest of the text is kept.
   */
  lemma DescriptionWithOneMoreLog(fields: string, tags: seq<(string, string)>, logs: seq<string>, log: string)
    ensures var before := Description(fields, tags, logs);
            Description(fields, tags, logs + [log]) == before[..|before| - 1] + ((if logs == [] then "  Logs:\n" else "") + LogLine(log)) + "}"
  {
    LogBlockSnoc(logs, log);
    var a := fields + TagBlock(tags) + LogBlock(logs);
    var y := (if logs == [] then "  Logs:\n" else "") + LogLine(log);
    assert Description(fields, tags, logs) == a + "}";
    assert Description(fields, tags, logs + [log]) == fields + TagBlock(tags) + (LogBlock(logs) + y) + "}";
    ConcatAssoc(fields + TagBlock(tags), LogBlock(logs), y);
    InsertBetween(a, y, [], "}");
    assert a + [] == a;
  }

  /** A span's description with one more tag: its fixed lines do not depend on the tags. */
  lemma SpanDescriptionWithOneMoreTag(span: Span, tag: (string, string), formatReal: real -> string)
    ensures SpanDescription(span.(tags := span.tags + [tag]), formatReal)
            == Description(SpanFields(span, formatReal), span.tags + [tag], span.logs)
  {
    SpanFieldsIgnoreBlocks(span, span.tags + [tag], span.logs, formatReal);
  }

  /** A span's description with one more log: its fixed lines do not depend on the logs. */
  lemma SpanDescriptionWithOneMoreLog(span: Span, log: string, formatReal: real -> string)
    ensures SpanDescription(span.(logs := span.logs + [log]), formatReal)
            == Description(SpanFields(span, formatReal), span.tags, span.logs + [log])
  {
    SpanFieldsIgnoreBlocks(span, span.tags, span.logs + [log], formatReal);
  }
}
