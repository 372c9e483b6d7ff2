/**
 * What TimelineViewer::loadFromJSON makes of a decoded JSON document
 * (Viewer/Viewer.cpp). The JSON text itself is not parsed here: a document
 * arrives as records whose fields either hold a value of the expected type
 * or stand for a field access that throws. The functions below are the
 * specification the viewer's loading methods are proved against.
 */
module TraceLoader {
  import opened Wrappers
  import opened ViewerUtils
  import opened ViewerModel
  import opened DoubleLimits
  import opened Text

  // ------------------------------------------------------------ decoded JSON

  /** A field read: the value, or the message of the exception the read throws. */
  datatype Field<T> = Present(value: T) | Bad(what: string)

  function Get<T>(f: Field<T>): (r: Result<T, string>)
    ensures f.Present? <==> r.Success?
  {
    match f
    case Present(v) => Success(v)
    case Bad(what) => Failure(what)
  }

  /** One element of a span's "tags" array: {"key": .., "value": ..}. */
  datatype RawTag = RawTag(key: Field<string>, value: Field<string>)

  /** One element of a span's "events" array; the timestamp is optional. */
  datatype RawEvent = RawEvent(name: Field<string>, timestamp: Option<Field<int>>)

  /** One element of a trace's "spans" array; None marks an optional key that is absent. */
  datatype RawSpan = RawSpan(
    spanId: Field<string>,
    operationName: Field<string>,
    serviceName: Field<string>,
    startTime: Field<real>,
    duration: Field<real>,
    depth: Option<Field<int>>,
    tags: Option<seq<RawTag>>,
    attributes: Option<seq<(string, Field<string>)>>,
    events: Option<seq<RawEvent>>)

  /** One element of the "traces" array; `spans` is None when the key is absent or not an array. */
  datatype RawTrace = RawTrace(traceId: Field<string>, traceName: Field<string>, spans: Option<seq<RawSpan>>)

  /** The outcome of nlohmann::json::parse and of reading root["traces"]. */
  datatype JsonDocument = Unparsable(what: string) | Parsed(traces: Field<seq<RawTrace>>)

  function OrEmpty<T>(o: Option<seq<T>>): seq<T>
  {
    match o
    case None => []
    case Some(s) => s
  }

  // ------------------------------------------------------ failing sequences

  /** The elements handled so far, the exception that stopped the loop if any, and the state reached. */
  datatype Threaded<B, S> = Threaded(done: seq<B>, failure: Option<string>, state: S)

  /**
   * A loop over `xs` that threads a state through `step` and stops at the
   * first element whose step throws; the elements before it stay done.
   */
  function ThreadAll<A, B, S>(xs: seq<A>, s: S, step: (A, S) -> (Result<B, string>, S)): (r: Threaded<B, S>)
    ensures r.failure.None? ==> |r.done| == |xs|
    ensures r.failure.Some? ==> |r.done| < |xs|
    decreases |xs|
  {
    if |xs| == 0 then Threaded([], None, s)
    else
      var prev := ThreadAll(xs[..|xs| - 1], s, step);
      if prev.failure.Some? then prev
      else
        var (res, s1) := step(xs[|xs| - 1], prev.state);
        match res
        case Success(b) => Threaded(prev.done + [b], None, s1)
        case Failure(e) => Threaded(prev.done, Some(e), s1)
  }

  /** One more step of a loop that has not thrown yet. */
  lemma ThreadAllSnoc<A, B, S>(xs: seq<A>, i: nat, s: S, step: (A, S) -> (Result<B, string>, S), done: seq<B>, st: S)
    requires i < |xs| && ThreadAll(xs[..i], s, step) == Threaded(done, None, st)
    ensures var (res, s1) := step(xs[i], st);
      ThreadAll(xs[..i + 1], s, step) ==
        if res.Success? then Threaded(done + [res.value], None, s1) else Threaded(done, Some(res.error), s1)
  {
    assert xs[..i + 1][..i] == xs[..i];
  }

  /** Once a prefix has thrown, the rest of the sequence is not looked at. */
  lemma {:induction false} ThreadAllStopsAtFailure<A, B, S>(xs: seq<A>, k: nat, s: S, step: (A, S) -> (Result<B, string>, S))
    requires k <= |xs| && ThreadAll(xs[..k], s, step).failure.Some?
    ensures ThreadAll(xs, s, step) == ThreadAll(xs[..k], s, step)
    decreases |xs| - k
  {
    if k < |xs| {
      assert xs[..|xs| - 1][..k] == xs[..k];
      ThreadAllStopsAtFailure(xs[..|xs| - 1], k, s, step);
      assert xs[..|xs|] == xs;
    } else {
      assert xs[..k] == xs;
    }
  }

  // ---------------------------------------------------------------- one span

  /** span.tags.emplace_back(tag["key"], tag["value"]): the key is converted first. */
  function TagStep(t: RawTag, u: ()): (Result<(string, string), string>, ())
  {
    match (t.key, t.value)
    case (Bad(what), _) => (Failure(what), ())
    case (Present(k), Bad(what)) => (Failure(what), ())
    case (Present(k), Present(v)) => (Success((k, v)), ())
  }

  /** An attribute's value read with get<std::string>(). */
  function AttributeStep(a: (string, Field<string>), u: ()): (Result<(string, string), string>, ())
  {
    match a.1
    case Bad(what) => (Failure(what), ())
    case Present(v) => (Success((a.0, v)), ())
  }

  const EventPrefix: string := "Event: "

  /** What follows the name when the event has a timestamp. */
  function TimestampNote(t: int): string
  {
    " (timestamp: " + IntToString(t) + ")"
  }

  /** The log line of an event: "Event: <name>", then " (timestamp: <t>)" when the event has one. */
  function EventText(name: string, timestamp: Option<int>): (r: string)
    ensures |r| >= |EventPrefix| + |name| && r[..|EventPrefix| + |name|] == EventPrefix + name
    ensures timestamp.None? ==> r == EventPrefix + name
    ensures timestamp.Some? ==> r[|EventPrefix| + |name|..] == TimestampNote(timestamp.value)
  {
    var head := EventPrefix + name;
    if timestamp.Some? then
      var note := TimestampNote(timestamp.value);
      SplitConcat(head, note);
      head + note
    else head
  }

  lemma SplitConcat(a: string, b: string)
    ensures |a + b| == |a| + |b| && (a + b)[..|a|] == a && (a + b)[|a|..] == b
  {
  }

  function EventStep(e: RawEvent, u: ()): (Result<string, string>, ())
  {
    match e.name
    case Bad(what) => (Failure(what), ())
    case Present(name) =>
      match e.timestamp
      case None => (Success(EventText(name, None)), ())
      case Some(Bad(what)) => (Failure(what), ())
      case Some(Present(t)) => (Success(EventText(name, Some(t))), ())
  }

  /** The result of one of the three inner loops of a span. */
  function Loop<A, B>(xs: seq<A>, step: (A, ()) -> (Result<B, string>, ())): (r: Result<seq<B>, string>)
    ensures r.Success? ==> |r.value| == |xs|
  {
    var t := ThreadAll(xs, (), step);
    if t.failure.Some? then Failure(t.failure.value) else Success(t.done)
  }

  /**
   * The fields of a span read after its colour: start time and duration,
   * depth (0 when absent), then tags, attributes and events in that order;
   * tags and attributes both go to the span's tag list.
   */
  function DecodeSpanFields(raw: RawSpan, id: string, operation: string, service: string, color: U32): (r: Result<Span, string>)
    ensures r.Success? ==>
      && r.value.spanId == id && r.value.operationName == operation && r.value.serviceName == service
      && r.value.color == color && !r.value.selected
      && raw.startTime == Present(r.value.startTime) && raw.duration == Present(r.value.duration)
      && (raw.depth.None? ==> r.value.depth == 0)
      && |r.value.tags| == |OrEmpty(raw.tags)| + |OrEmpty(raw.attributes)|
      && |r.value.logs| == |OrEmpty(raw.events)|
  {
    var start :- Get(raw.startTime);
    var duration :- Get(raw.duration);
    var depth :- match raw.depth { case None => Success(0) case Some(f) => Get(f) };
    var tags :- Loop(OrEmpty(raw.tags), TagStep);
    var attributes :- Loop(OrEmpty(raw.attributes), AttributeStep);
    var logs :- Loop(OrEmpty(raw.events), EventStep);
    Success(Span(id, operation, service, start, duration, depth, tags + attributes, logs, color, false))
  }

  /** serviceToColor on the map: the hash colour is stored only for a service not seen before. */
  function WithServiceColor(m: map<string, U32>, service: string, newColor: U32): (r: map<string, U32>)
    ensures service in r && r.Keys == m.Keys + {service}
    ensures forall k :: k in m ==> r[k] == m[k]
    ensures service !in m ==> r[service] == newColor
  {
    if service in m then m else m[service := newColor]
  }

  /** The hash colour a new service gets. */
  function FreshColor(layout: ColorLayout, hash: string -> U64, service: string): U32
  {
    ColorFromHash(layout, hash(service))
  }

  /**
   * One span: spanID, operationName and serviceName are read first, then the
   * service's colour is looked up (and remembered even if a later field
   * throws), then the remaining fields.
   */
  function DecodeSpan(raw: RawSpan, m: map<string, U32>, layout: ColorLayout, hash: string -> U64): (r: (Result<Span, string>, map<string, U32>))
  {
    match (raw.spanId, raw.operationName, raw.serviceName)
    case (Bad(what), _, _) => (Failure(what), m)
    case (Present(_), Bad(what), _) => (Failure(what), m)
    case (Present(_), Present(_), Bad(what)) => (Failure(what), m)
    case (Present(id), Present(op), Present(service)) =>
      var m1 := WithServiceColor(m, service, FreshColor(layout, hash, service));
      (DecodeSpanFields(raw, id, op, service, m1[service]), m1)
  }

  function SpanStep(layout: ColorLayout, hash: string -> U64): (RawSpan, map<string, U32>) -> (Result<Span, string>, map<string, U32>)
  {
    (raw, m) => DecodeSpan(raw, m, layout, hash)
  }

  // ---------------------------------------------------------- aggregates

  function StartOf(s: Span): real { s.startTime }
  function EndOf(s: Span): real { s.startTime + s.duration }
  function DurationOf(s: Span): real { s.duration }

  /** std::min folded over the spans from a seed. */
  function FoldMin(s: seq<Span>, f: Span -> real, seed: real): real
    decreases |s|
  {
    if |s| == 0 then seed else Min(FoldMin(s[..|s| - 1], f, seed), f(s[|s| - 1]))
  }

  /** The running std::min is at most the seed and every value, and is one of them. */
  lemma {:induction false} FoldMinFacts(s: seq<Span>, f: Span -> real, seed: real)
    ensures var r := FoldMin(s, f, seed);
      && r <= seed && (forall i :: 0 <= i < |s| ==> r <= f(s[i]))
      && (r == seed || exists i :: 0 <= i < |s| && r == f(s[i]))
    decreases |s|
  {
    if |s| > 0 {
      var front := s[..|s| - 1];
      FoldMinFacts(front, f, seed);
      assert forall i :: 0 <= i < |front| ==> front[i] == s[i];
    }
  }

  /** std::max folded over the spans from a seed. */
  function FoldMax(s: seq<Span>, f: Span -> real, seed: real): real
    decreases |s|
  {
    if |s| == 0 then seed else Max(FoldMax(s[..|s| - 1], f, seed), f(s[|s| - 1]))
  }

  /** The running std::max is at least the seed and every value, and is one of them. */
  lemma {:induction false} FoldMaxFacts(s: seq<Span>, f: Span -> real, seed: real)
    ensures var r := FoldMax(s, f, seed);
      && r >= seed && (forall i :: 0 <= i < |s| ==> r >= f(s[i]))
      && (r == seed || exists i :: 0 <= i < |s| && r == f(s[i]))
    decreases |s|
  {
    if |s| > 0 {
      var front := s[..|s| - 1];
      FoldMaxFacts(front, f, seed);
      assert forall i :: 0 <= i < |front| ==> front[i] == s[i];
    }
  }

  /** The four running bounds of loadFromJSON's span loop, over the spans read so far. */
  ghost predicate RunningBounds(spans: seq<Span>, minTime: real, maxTime: real, minDuration: real, maxDuration: real)
  {
    && minTime == FoldMin(spans, StartOf, DblMax) && maxTime == FoldMax(spans, EndOf, 0.0)
    && minDuration == FoldMin(spans, DurationOf, DblMax) && maxDuration == FoldMax(spans, DurationOf, 0.0)
  }

  /** Reading one more span moves each bound to include it. */
  lemma RunningBoundsSnoc(spans: seq<Span>, s: Span, minTime: real, maxTime: real, minDuration: real, maxDuration: real)
    requires RunningBounds(spans, minTime, maxTime, minDuration, maxDuration)
    ensures RunningBounds(spans + [s], Min(minTime, s.startTime), Max(maxTime, EndOf(s)),
                          Min(minDuration, s.duration), Max(maxDuration, s.duration))
  {
    FoldSnoc(spans, s, StartOf, DblMax);
    FoldSnoc(spans, s, EndOf, 0.0);
    FoldSnoc(spans, s, DurationOf, DblMax);
    FoldSnoc(spans, s, DurationOf, 0.0);
  }

  /** One more span folds into the running minimum and maximum. */
  lemma FoldSnoc(s: seq<Span>, x: Span, f: Span -> real, seed: real)
    ensures FoldMin(s + [x], f, seed) == Min(FoldMin(s, f, seed), f(x))
    ensures FoldMax(s + [x], f, seed) == Max(FoldMax(s, f, seed), f(x))
  {
    assert (s + [x])[..|s|] == s;
  }

  /** The normalisation loop: every start moved back by `d`. */
  function Shift(s: seq<Span>, d: real): (r: seq<Span>)
    ensures |r| == |s|
    ensures forall i :: 0 <= i < |s| ==> r[i] == s[i].(startTime := s[i].startTime - d)
  {
    seq(|s|, i requires 0 <= i < |s| => s[i].(startTime := s[i].startTime - d))
  }

  // ---------------------------------------------------------------- sorting

  predicate SortedByStart(s: seq<Span>)
  {
    forall i, j :: 0 <= i < j < |s| ==> s[i].startTime <= s[j].startTime
  }

  function Insert(x: Span, s: seq<Span>): (r: seq<Span>)
    ensures multiset(r) == multiset(s) + multiset{x}
    ensures |r| == |s| + 1
    decreases |s|
  {
    if |s| == 0 then [x]
    else if x.startTime <= s[0].startTime then [x] + s
    else
      assert s == [s[0]] + s[1..];
      [s[0]] + Insert(x, s[1..])
  }

  lemma {:induction false} InsertKeepsSorted(x: Span, s: seq<Span>)
    requires SortedByStart(s)
    ensures SortedByStart(Insert(x, s))
    decreases |s|
  {
    if |s| > 0 && x.startTime > s[0].startTime {
      InsertKeepsSorted(x, s[1..]);
      InsertLowerBound(x, s[1..], s[0].startTime);
      ConsSorted(s[0], Insert(x, s[1..]));
    } else if |s| > 0 {
      ConsSorted(x, s);
    }
  }

  /** A span no later than every span of a sorted list can go in front of it. */
  lemma ConsSorted(a: Span, rest: seq<Span>)
    requires SortedByStart(rest) && forall k :: 0 <= k < |rest| ==> a.startTime <= rest[k].startTime
    ensures SortedByStart([a] + rest)
  {
    assert forall k :: 1 <= k < |[a] + rest| ==> ([a] + rest)[k] == rest[k - 1];
  }

  /** A bound below x and below every span of s is below every span of the insertion. */
  lemma InsertLowerBound(x: Span, s: seq<Span>, lo: real)
    requires lo <= x.startTime && forall i :: 0 <= i < |s| ==> lo <= s[i].startTime
    ensures forall k :: 0 <= k < |Insert(x, s)| ==> lo <= Insert(x, s)[k].startTime
  {
    var r := Insert(x, s);
    forall k | 0 <= k < |r| ensures lo <= r[k].startTime {
      assert r[k] in multiset(r);
      if r[k] != x {
        assert r[k] in multiset(s);
        var j :| 0 <= j < |s| && s[j] == r[k];
      }
    }
  }

  /**
   * std::sort with `a.start_time < b.start_time`: a permutation ordered by
   * start. std::sort leaves the order of equal starts unspecified; this
   * definition picks one such order.
   */
  function SortByStart(s: seq<Span>): (r: seq<Span>)
    ensures SortedByStart(r)
    ensures multiset(r) == multiset(s)
    ensures |r| == |s|
  {
    if |s| == 0 then []
    else
      assert s == [s[0]] + s[1..];
      InsertKeepsSorted(s[0], SortByStart(s[1..]));
      Insert(s[0], SortByStart(s[1..]))
  }

  // -------------------------------------------------------------- one trace

  /**
   * The trace built from its decoded spans: start time and total duration
   * from the running minimum start and maximum end, starts shifted by the
   * minimum, aggregates re-read after the shift (seeded with 0 and with
   * total_duration minus the last span's duration) or zeroed for an empty
   * trace, and the spans sorted by start.
   */
  function Finish(id: string, name: string, totalSpans: nat, decoded: seq<Span>): (t: Trace)
    ensures t.traceId == id && t.traceName == name && t.totalSpans == totalSpans
    ensures multiset(t.spans) == multiset(Shift(decoded, t.startTime)) && SortedByStart(t.spans)
  {
    var minTime := FoldMin(decoded, StartOf, DblMax);
    var maxTime := FoldMax(decoded, EndOf, 0.0);
    Trace(id, name, SortByStart(Shift(decoded, minTime)), maxTime - minTime, minTime, totalSpans, map[],
          DecodedMinDuration(decoded), DecodedMaxDuration(decoded),
          ShiftedMinStart(decoded, minTime), ShiftedMaxStart(decoded, minTime, maxTime))
  }

  /** min_duration: the least decoded duration, 0 without spans. */
  function DecodedMinDuration(decoded: seq<Span>): real
  {
    if |decoded| == 0 then 0.0 else FoldMin(decoded, DurationOf, DblMax)
  }

  /** max_duration: the greatest decoded duration, 0 without spans. */
  function DecodedMaxDuration(decoded: seq<Span>): real
  {
    if |decoded| == 0 then 0.0 else FoldMax(decoded, DurationOf, 0.0)
  }

  /** min_start_time: the least start after the shift by minTime, from 0; 0 without spans. */
  function ShiftedMinStart(decoded: seq<Span>, minTime: real): real
  {
    if |decoded| == 0 then 0.0 else FoldMin(Shift(decoded, minTime), StartOf, 0.0)
  }

  /**
   * max_start_time: the greatest start after the shift by minTime, seeded
   * with the total duration minus the last decoded span's duration; 0
   * without spans.
   */
  function ShiftedMaxStart(decoded: seq<Span>, minTime: real, maxTime: real): real
  {
    if |decoded| == 0 then 0.0 else FoldMax(Shift(decoded, minTime), StartOf, maxTime - minTime - decoded[|decoded| - 1].duration)
  }

  /**
   * One element of "traces": traceID and traceName first, then the spans
   * (none when "spans" is absent or not an array); a throwing span loses
   * the whole trace but keeps the colours already assigned.
   */
  function DecodeTrace(raw: RawTrace, m: map<string, U32>, layout: ColorLayout, hash: string -> U64): (r: (Result<Trace, string>, map<string, U32>))
  {
    match (raw.traceId, raw.traceName)
    case (Bad(what), _) => (Failure(what), m)
    case (Present(_), Bad(what)) => (Failure(what), m)
    case (Present(id), Present(name)) =>
      var raws := OrEmpty(raw.spans);
      var spans := ThreadAll(raws, m, SpanStep(layout, hash));
      if spans.failure.Some? then (Failure(spans.failure.value), spans.state)
      else (Success(Finish(id, name, |raws|, spans.done)), spans.state)
  }

  function TraceStep(layout: ColorLayout, hash: string -> U64): (RawTrace, map<string, U32>) -> (Result<Trace, string>, map<string, U32>)
  {
    (raw, m) => DecodeTrace(raw, m, layout, hash)
  }

  /** What loadFromJSON leaves: its returned message ("" on success), m_traces and m_color_map. */
  datatype LoadOutcome = LoadOutcome(message: string, traces: seq<Trace>, colors: map<string, U32>)

  /**
   * loadFromJSON: a text that does not parse changes nothing; otherwise the
   * old traces are dropped and the traces are loaded in order until one
   * throws, whose message is returned after "Error: ".
   */
  function LoadDocument(doc: JsonDocument, traces: seq<Trace>, m: map<string, U32>,
                        layout: ColorLayout, hash: string -> U64): (r: LoadOutcome)
  {
    match doc
    case Unparsable(what) => LoadOutcome("Error: " + what, traces, m)
    case Parsed(Bad(what)) => LoadOutcome("Error: " + what, [], m)
    case Parsed(Present(raws)) =>
      var t := ThreadAll(raws, m, TraceStep(layout, hash));
      LoadOutcome(if t.failure.Some? then "Error: " + t.failure.value else "", t.done, t.state)
  }

  // ------------------------------------------------------------ properties

  /** A span lies inside its trace's cached ranges and inside [0, total_duration]. */
  predicate SpanWithinTrace(t: Trace, s: Span)
  {
    && t.minDuration <= s.duration <= t.maxDuration
    && t.minStartTime <= s.startTime <= t.maxStartTime
    && 0.0 <= s.startTime && s.startTime + s.duration <= t.totalDuration
  }

  /** What every loaded trace satisfies. */
  predicate Consistent(t: Trace)
  {
    && SortedByStart(t.spans)
    && t.totalSpans == |t.spans|
    && 0.0 <= t.maxDuration
    && (forall i :: 0 <= i < |t.spans| ==> SpanWithinTrace(t, t.spans[i]))
    && (|t.spans| > 0 ==> t.minStartTime == 0.0)
    && (|t.spans| == 0 ==>
          && t.minDuration == 0.0 && t.maxDuration == 0.0 && t.minStartTime == 0.0 && t.maxStartTime == 0.0
          && t.startTime == DblMax && t.totalDuration == 0.0 - DblMax)
  }

  /** An element of a permutation of the shifted spans is a shifted span. */
  lemma {:induction false} InShifted(s: seq<Span>, d: real, r: seq<Span>, k: nat) returns (j: nat)
    requires multiset(r) == multiset(Shift(s, d)) && k < |r|
    ensures j < |s| && r[k] == Shift(s, d)[j] && r[k] == s[j].(startTime := s[j].startTime - d)
  {
    assert r[k] in multiset(r);
    assert r[k] in multiset(Shift(s, d));
    j :| 0 <= j < |s| && Shift(s, d)[j] == r[k];
  }

  /**
   * The start time is the least decoded start and start + total duration is
   * the greatest decoded end or 0, whichever is larger.
   */
  lemma FinishBounds(id: string, name: string, decoded: seq<Span>)
    ensures var t := Finish(id, name, |decoded|, decoded);
      && (forall j :: 0 <= j < |decoded| ==> t.startTime <= decoded[j].startTime)
      && (forall j :: 0 <= j < |decoded| ==> decoded[j].startTime + decoded[j].duration <= t.startTime + t.totalDuration)
      && 0.0 <= t.startTime + t.totalDuration
      && (t.startTime + t.totalDuration == 0.0 ||
          exists j :: 0 <= j < |decoded| && t.startTime + t.totalDuration == decoded[j].startTime + decoded[j].duration)
      && (0 < |decoded| && (forall j :: 0 <= j < |decoded| ==> decoded[j].startTime <= DblMax) ==>
            exists j :: 0 <= j < |decoded| && t.startTime == decoded[j].startTime)
  {
    var t := Finish(id, name, |decoded|, decoded);
    FoldMinFacts(decoded, StartOf, DblMax);
    FoldMaxFacts(decoded, EndOf, 0.0);
    assert forall j :: 0 <= j < |decoded| ==> EndOf(decoded[j]) == decoded[j].startTime + decoded[j].duration;
    if 0 < |decoded| && (forall j :: 0 <= j < |decoded| ==> decoded[j].startTime <= DblMax) {
      assert StartOf(decoded[0]) == decoded[0].startTime;
    }
  }

  /** Every trace built from decoded spans is consistent. */
  lemma {:induction false} FinishIsConsistent(id: string, name: string, decoded: seq<Span>)
    ensures Consistent(Finish(id, name, |decoded|, decoded))
  {
    var t := Finish(id, name, |decoded|, decoded);
    var shifted := Shift(decoded, t.startTime);
    forall k | 0 <= k < |t.spans| ensures SpanWithinTrace(t, t.spans[k]) {
      var j := InShifted(decoded, t.startTime, t.spans, k);
      ShiftedSpanWithin(id, name, decoded, j);
    }
    if |decoded| > 0 {
      FoldMaxFacts(decoded, DurationOf, 0.0);
      ShiftedStartsFromZero(decoded);
    }
  }

  /** The j-th decoded span, shifted by the trace's start, lies within the trace. */
  lemma ShiftedSpanWithin(id: string, name: string, decoded: seq<Span>, j: nat)
    requires j < |decoded|
    ensures var t := Finish(id, name, |decoded|, decoded);
      SpanWithinTrace(t, Shift(decoded, t.startTime)[j])
  {
    var minTime := FoldMin(decoded, StartOf, DblMax);
    var maxTime := FoldMax(decoded, EndOf, 0.0);
    DurationBounds(decoded, j);
    ShiftedStartBounds(decoded, minTime, maxTime, j);
    DecodedWithin(decoded, minTime, maxTime - minTime, j);
  }

  /** A decoded duration lies in [min_duration, max_duration]. */
  lemma DurationBounds(decoded: seq<Span>, j: nat)
    requires j < |decoded|
    ensures DecodedMinDuration(decoded) <= decoded[j].duration <= DecodedMaxDuration(decoded)
  {
    FoldMinFacts(decoded, DurationOf, DblMax);
    FoldMaxFacts(decoded, DurationOf, 0.0);
    assert DurationOf(decoded[j]) == decoded[j].duration;
  }

  /** A shifted start lies in [min_start_time, max_start_time]. */
  lemma ShiftedStartBounds(decoded: seq<Span>, minTime: real, maxTime: real, j: nat)
    requires j < |decoded|
    ensures ShiftedMinStart(decoded, minTime) <= Shift(decoded, minTime)[j].startTime <= ShiftedMaxStart(decoded, minTime, maxTime)
  {
    var shifted := Shift(decoded, minTime);
    FoldMinFacts(shifted, StartOf, 0.0);
    FoldMaxFacts(shifted, StartOf, maxTime - minTime - decoded[|decoded| - 1].duration);
    assert StartOf(shifted[j]) == shifted[j].startTime;
  }

  /** Shifted by the least start, a decoded span starts at 0 or later and ends by the total duration. */
  lemma DecodedWithin(decoded: seq<Span>, minTime: real, total: real, j: nat)
    requires j < |decoded|
    requires minTime == FoldMin(decoded, StartOf, DblMax) && total == FoldMax(decoded, EndOf, 0.0) - minTime
    ensures var s := Shift(decoded, minTime)[j];
      0.0 <= s.startTime && s.startTime + s.duration <= total
  {
    FoldMinFacts(decoded, StartOf, DblMax);
    FoldMaxFacts(decoded, EndOf, 0.0);
    assert StartOf(decoded[j]) == decoded[j].startTime;
    assert EndOf(decoded[j]) == decoded[j].startTime + decoded[j].duration;
    var s := Shift(decoded, minTime)[j];
    assert s.startTime == decoded[j].startTime - minTime && s.duration == decoded[j].duration;
  }

  /** Shifted by the least start, the spans start at 0 at the earliest, so their minimum from 0 is 0. */
  lemma ShiftedStartsFromZero(decoded: seq<Span>)
    requires |decoded| > 0
    ensures var shifted := Shift(decoded, FoldMin(decoded, StartOf, DblMax));
      FoldMin(shifted, StartOf, 0.0) == 0.0
  {
    var shifted := Shift(decoded, FoldMin(decoded, StartOf, DblMax));
    FoldMinFacts(decoded, StartOf, DblMax);
    FoldMinFacts(shifted, StartOf, 0.0);
    forall j | 0 <= j < |shifted| ensures StartOf(shifted[j]) >= 0.0 {
      assert StartOf(decoded[j]) == decoded[j].startTime;
    }
  }

  /**
   * max_start_time is seeded with total_duration minus the duration of the
   * last decoded span, so it can lie beyond every start: spans at 0 lasting
   * 100 and at 10 lasting 1 give 99 while the latest start is 10.
   */
  lemma MaxStartTimeCanExceedEveryStart()
    ensures var a := Span("a", "op", "svc", 0.0, 100.0, 0, [], [], 0, false);
      var b := Span("b", "op", "svc", 10.0, 1.0, 0, [], [], 0, false);
      var t := Finish("t", "trace", 2, [a, b]);
      t.maxStartTime == 99.0 && forall k :: 0 <= k < |t.spans| ==> t.spans[k].startTime <= 10.0
  {
    var a := Span("a", "op", "svc", 0.0, 100.0, 0, [], [], 0, false);
    var b := Span("b", "op", "svc", 10.0, 1.0, 0, [], [], 0, false);
    ExampleMaxStart("t", "trace", a, b);
    ExampleStarts("t", "trace", a, b);
  }

  /** The example's max_start_time: total_duration 100 minus the last duration 1. */
  lemma ExampleMaxStart(id: string, name: string, a: Span, b: Span)
    requires a.startTime == 0.0 && a.duration == 100.0 && b.startTime == 10.0 && b.duration == 1.0
    ensures Finish(id, name, 2, [a, b]).maxStartTime == 99.0
  {
    var d := [a, b];
    ExampleFolds(a, b);
    ShiftByZero(d);
    var t := Finish(id, name, 2, d);
    assert t.startTime == 0.0 && t.totalDuration == 100.0;
    assert t.maxStartTime == FoldMax(d, StartOf, 99.0);
  }

  /** The example's stored starts are the decoded ones, 0 and 10. */
  lemma ExampleStarts(id: string, name: string, a: Span, b: Span)
    requires a.startTime == 0.0 && a.duration == 100.0 && b.startTime == 10.0 && b.duration == 1.0
    ensures var t := Finish(id, name, 2, [a, b]);
      forall k :: 0 <= k < |t.spans| ==> t.spans[k].startTime <= 10.0
  {
    var d := [a, b];
    ExampleFolds(a, b);
    var t := Finish(id, name, 2, d);
    forall k | 0 <= k < |t.spans| ensures t.spans[k].startTime <= 10.0 {
      var j := InShifted(d, t.startTime, t.spans, k);
    }
  }

  lemma ShiftByZero(s: seq<Span>)
    ensures Shift(s, 0.0) == s
  {
    assert forall i :: 0 <= i < |s| ==> Shift(s, 0.0)[i] == s[i];
  }

  lemma ExampleFolds(a: Span, b: Span)
    requires a.startTime == 0.0 && a.duration == 100.0 && b.startTime == 10.0 && b.duration == 1.0
    ensures FoldMin([a, b], StartOf, DblMax) == 0.0
    ensures FoldMax([a, b], EndOf, 0.0) == 100.0
    ensures FoldMax([a, b], StartOf, 99.0) == 99.0
  {
    assert [a, b][..1] == [a];
    assert [a][..0] == [];
    assert FoldMin([a], StartOf, DblMax) == 0.0;
    assert FoldMax([a], EndOf, 0.0) == 100.0;
    assert FoldMax([a], StartOf, 99.0) == 99.0;
  }

  /** The span carries the colour its service has in the map. */
  predicate ColourAgrees(s: Span, m: map<string, U32>)
  {
    s.serviceName in m && m[s.serviceName] == s.color
  }

  /** Every entry of m is kept by m2. */
  predicate Extends(m: map<string, U32>, m2: map<string, U32>)
  {
    forall k :: k in m ==> k in m2 && m2[k] == m[k]
  }

  /** One span: the map only gains entries, and a decoded span has its service's colour. */
  lemma DecodeSpanFacts(raw: RawSpan, m: map<string, U32>, layout: ColorLayout, hash: string -> U64)
    ensures var (res, m1) := DecodeSpan(raw, m, layout, hash);
      Extends(m, m1) && (res.Success? ==> ColourAgrees(res.value, m1))
  {
  }

  /** Decoding spans only adds colours, and every decoded span has its service's colour. */
  lemma {:induction false} SpansColoured(raws: seq<RawSpan>, m: map<string, U32>, layout: ColorLayout, hash: string -> U64)
    ensures var r := ThreadAll(raws, m, SpanStep(layout, hash));
      Extends(m, r.state) && forall i :: 0 <= i < |r.done| ==> ColourAgrees(r.done[i], r.state)
    decreases |raws|
  {
    if |raws| > 0 {
      var prev := ThreadAll(raws[..|raws| - 1], m, SpanStep(layout, hash));
      SpansColoured(raws[..|raws| - 1], m, layout, hash);
      if prev.failure.None? {
        var (res, m1) := DecodeSpan(raws[|raws| - 1], prev.state, layout, hash);
        DecodeSpanFacts(raws[|raws| - 1], prev.state, layout, hash);
        forall i | 0 <= i < |prev.done| ensures ColourAgrees(prev.done[i], m1) {
          ExtendsKeepsAgreement(prev.done[i], prev.state, m1);
        }
      }
    }
  }

  /** Extending the map keeps the colours a span already agrees with. */
  lemma ExtendsKeepsAgreement(s: Span, m: map<string, U32>, m2: map<string, U32>)
    requires ColourAgrees(s, m) && Extends(m, m2)
    ensures ColourAgrees(s, m2)
  {
  }

  /** All spans of a trace carry their service's colour. */
  predicate TraceColoured(t: Trace, m: map<string, U32>)
  {
    forall k :: 0 <= k < |t.spans| ==> ColourAgrees(t.spans[k], m)
  }

  lemma {:induction false} FinishKeepsColours(id: string, name: string, decoded: seq<Span>, m: map<string, U32>)
    requires forall i :: 0 <= i < |decoded| ==> ColourAgrees(decoded[i], m)
    ensures TraceColoured(Finish(id, name, |decoded|, decoded), m)
  {
    var t := Finish(id, name, |decoded|, decoded);
    forall k | 0 <= k < |t.spans| ensures ColourAgrees(t.spans[k], m) {
      var j := InShifted(decoded, t.startTime, t.spans, k);
    }
  }

  /** One trace: the map only gains entries, and a loaded trace is consistent and coloured by the new map. */
  lemma DecodeTraceFacts(raw: RawTrace, m: map<string, U32>, layout: ColorLayout, hash: string -> U64)
    ensures var (res, m1) := DecodeTrace(raw, m, layout, hash);
      Extends(m, m1) && (res.Success? ==> Consistent(res.value) && TraceColoured(res.value, m1))
  {
    if raw.traceId.Present? && raw.traceName.Present? {
      var spans := ThreadAll(OrEmpty(raw.spans), m, SpanStep(layout, hash));
      SpansColoured(OrEmpty(raw.spans), m, layout, hash);
      if spans.failure.None? {
        FinishIsConsistent(raw.traceId.value, raw.traceName.value, spans.done);
        FinishKeepsColours(raw.traceId.value, raw.traceName.value, spans.done, spans.state);
      }
    }
  }

  /** Traces coloured by a map stay coloured by any extension of it. */
  lemma ExtendsKeepsTraces(ts: seq<Trace>, m: map<string, U32>, m2: map<string, U32>)
    requires forall i :: 0 <= i < |ts| ==> TraceColoured(ts[i], m)
    requires Extends(m, m2)
    ensures forall i :: 0 <= i < |ts| ==> TraceColoured(ts[i], m2)
  {
    forall i, k | 0 <= i < |ts| && 0 <= k < |ts[i].spans| ensures ColourAgrees(ts[i].spans[k], m2) {
      ExtendsKeepsAgreement(ts[i].spans[k], m, m2);
    }
  }

  /**
   * Loading a list of traces: every loaded trace is consistent, the colour
   * map only gains entries, and every loaded span has its service's colour
   * in the final map.
   */
  lemma {:induction false} TracesLoaded(raws: seq<RawTrace>, m: map<string, U32>, layout: ColorLayout, hash: string -> U64)
    ensures var r := ThreadAll(raws, m, TraceStep(layout, hash));
      && Extends(m, r.state)
      && (forall i :: 0 <= i < |r.done| ==> Consistent(r.done[i]) && TraceColoured(r.done[i], r.state))
    decreases |raws|
  {
    if |raws| > 0 {
      var prev := ThreadAll(raws[..|raws| - 1], m, TraceStep(layout, hash));
      TracesLoaded(raws[..|raws| - 1], m, layout, hash);
      if prev.failure.None? {
        var raw := raws[|raws| - 1];
        var (res, m1) := DecodeTrace(raw, prev.state, layout, hash);
        DecodeTraceFacts(raw, prev.state, layout, hash);
        ExtendsKeepsTraces(prev.done, prev.state, m1);
      }
    }
  }

  /**
   * loadFromJSON's outcome: "" exactly when every trace loaded, otherwise a
   * message starting "Error: "; an unparsable text keeps the old traces,
   * any other failure keeps only the traces loaded before it; the colour
   * map is never overwritten; every loaded trace is consistent and its
   * spans carry their service's colour.
   */
  lemma LoadDocumentOutcome(doc: JsonDocument, traces: seq<Trace>, m: map<string, U32>,
                            layout: ColorLayout, hash: string -> U64)
    ensures var r := LoadDocument(doc, traces, m, layout, hash);
      && (r.message == "" <==> doc.Parsed? && doc.traces.Present? && |r.traces| == |doc.traces.value|)
      && (r.message != "" ==> |r.message| >= 7 && r.message[..7] == "Error: ")
      && (doc.Unparsable? ==> r.traces == traces && r.colors == m)
      && (doc.Parsed? && doc.traces.Present? ==> |r.traces| <= |doc.traces.value|)
      && Extends(m, r.colors)
      && (doc.Parsed? ==> forall i :: 0 <= i < |r.traces| ==> Consistent(r.traces[i]) && TraceColoured(r.traces[i], r.colors))
  {
    if doc.Parsed? && doc.traces.Present? {
      TracesLoaded(doc.traces.value, m, layout, hash);
    }
  }
}
