/**
 * Line and file formatting (LogLineFormatter.hpp, OpenTelemetryLineFormatter.hpp,
 * OpenTelemetryFileFormatter.hpp). The CRTP formatter families become
 * datatypes: the OpenTelemetry formatter, and any other derived formatter
 * given by its hooks, whose missing end hook falls back to the base class
 * default. The OpenTelemetry entry is defined here as a reference text;
 * FormatMiddleImpl writes it piece by piece, as the stream does.
 */
module OtelFormat {
  import opened Wrappers
  import opened Attributes
  import opened TraceIds
  import opened Text
  import opened OtelLevel
  import opened LogTrace

  datatype LineFormatter =
    | OpenTelemetryLine(serviceName: string, serviceVersion: string)
    | DerivedLine(beginImpl: LogLevel -> string, middleImpl: TraceView -> string, endImpl: Option<string>)

  datatype FileFormatter =
    | OpenTelemetryFile
    | DerivedFile(headerImpl: string, footerImpl: string)

  /** The base class's formatEndImpl. */
  const DefaultEnd: string := "\n"

  const OtelHeader: string := "{ \"traces\": [ "
  const OtelFooter: string := "] }\n"

  // ---------------------------------------------------------------------------
  // The reference text of one OpenTelemetry entry
  // ---------------------------------------------------------------------------

  /** The comma-separated texts of the elements, in order. */
  function Join<T>(xs: seq<T>, text: T -> string): string
  {
    if xs == [] then ""
    else if |xs| == 1 then text(xs[0])
    else text(xs[0]) + "," + Join(xs[1..], text)
  }

  /** Adding one element adds its text after a comma, or alone in an empty list. */
  lemma {:induction false} JoinSnoc<T>(xs: seq<T>, x: T, text: T -> string)
    ensures Join(xs + [x], text) == if xs == [] then text(x) else Join(xs, text) + "," + text(x)
  {
    if |xs| > 1 {
      assert (xs + [x])[1..] == xs[1..] + [x];
      JoinSnoc(xs[1..], x, text);
    } else if |xs| == 1 {
      assert (xs + [x])[1..] == [x];
    }
  }

  /** One turn of a loop with a `first` flag: a comma unless it is the first element, then the element. */
  lemma JoinStep<T>(out: string, xs: seq<T>, i: nat, text: T -> string, before: string, after: string)
    requires i < |xs| && before == out + Join(xs[..i], text)
    requires after == (if i == 0 then before else before + ",") + text(xs[i])
    ensures after == out + Join(xs[..i + 1], text)
  {
    JoinSnoc(xs[..i], xs[i], text);
    assert xs[..i + 1] == xs[..i] + [xs[i]];
  }

  function Quoted(s: string): string { "\"" + s + "\"" }

  /** One attribute, `"key":"value"`, both copied verbatim. */
  function MemberText(p: (string, string)): string { Quoted(p.0) + ":" + Quoted(p.1) }

  function Members(m: StringMap): string { Join(m, MemberText) }

  /** `,"attributes":{...}`, or nothing for an empty map. */
  function AttributesPart(m: StringMap): (s: string)
    ensures s == "" <==> m == []
  {
    if m == [] then "" else ",\"attributes\":{" + Members(m) + "}"
  }

  /** One event: its name, its timestamp, and its attributes when it has any. */
  function EventText(e: Event): string
  {
    "{\"name\":\"" + e.name + "\",\"timestamp\":" + NatToString(e.timestampNanos) + AttributesPart(e.attributes) + "}"
  }

  /** `,"events":[...]`, or nothing when no event was recorded. */
  function EventsPart(es: seq<Event>): (s: string)
    ensures s == "" <==> es == []
  {
    if es == [] then "" else ",\"events\":[" + Join(es, EventText) + "]"
  }

  function Head(v: TraceView): string
  {
    "{" + "\"traceId\":\"" + v.traceId + "\"," + "\"traceName\":\"" + v.operationName + "\"," + "\"spans\":[{" +
    "\"spanId\":\"" + v.spanId + "\","
  }

  function ParentPart(v: TraceView): (s: string)
    ensures s == "" <==> v.parentSpanId == ""
  {
    if v.parentSpanId == "" then "" else "\"parentSpanId\":\"" + v.parentSpanId + "\","
  }

  /** The depth the entry claims: 0 for a root trace, 1 for any child, however deep. */
  function Depth(v: TraceView): (d: nat)
    ensures d <= 1 && (d == 0 <==> v.parentSpanId == "")
  {
    if v.parentSpanId == "" then 0 else 1
  }

  const OperationKey: string := "\"operationName\":\""

  function SpanBody(serviceName: string, v: TraceView, duration: U64): string
  {
    OperationKey + SpanFields(serviceName, v, duration)
  }

  /** The span's fields after the operationName key. */
  function SpanFields(serviceName: string, v: TraceView, duration: U64): string
  {
    v.operationName + "\"," + "\"serviceName\":\"" + serviceName + "\"," +
    "\"startTime\":" + NatToString(v.startTimeNanos) + "," + "\"duration\":" + NatToString(duration) +
    ",\"depth\":" + NatToString(Depth(v))
  }

  function Tail(v: TraceView, totalDuration: U64): string
  {
    "}]," + "\"startTime\":" + NatToString(v.startTimeNanos) + "," + "\"total_duration\":" + NatToString(totalDuration) + "," +
    "\"total_spans\":1" + "}"
  }

  /**
   * The entry formatMiddleImpl writes for a trace. `duration` and
   * `totalDuration` are the two getDurationNanos readings it takes, which
   * differ on a trace that has not ended when the clock moved in between.
   */
  function Entry(serviceName: string, v: TraceView, duration: U64, totalDuration: U64): string
  {
    Head(v) + ParentPart(v) + SpanBody(serviceName, v, duration) +
    AttributesPart(v.attributes) + EventsPart(v.events) + Tail(v, totalDuration)
  }

  // ---------------------------------------------------------------------------
  // The formatter hooks
  // ---------------------------------------------------------------------------

  /** formatBegin: the derived formatBeginImpl; the OpenTelemetry one writes nothing. */
  function FormatBegin(f: LineFormatter, level: LogLevel): (s: string)
    ensures f.OpenTelemetryLine? ==> s == ""
    ensures f.DerivedLine? ==> s == f.beginImpl(level)
  {
    match f
    case OpenTelemetryLine(_, _) => ""
    case DerivedLine(beginImpl, _, _) => beginImpl(level)
  }

  /** formatMiddle: the derived formatMiddleImpl. */
  function Middle(f: LineFormatter, v: TraceView, duration: U64, totalDuration: U64): string
  {
    match f
    case OpenTelemetryLine(serviceName, _) => Entry(serviceName, v, duration, totalDuration)
    case DerivedLine(_, middleImpl, _) => middleImpl(v)
  }

  /** formatEnd: the derived formatEndImpl, or the base default "\n" when the derived class has none. */
  function FormatEnd(f: LineFormatter): (s: string)
    ensures f.OpenTelemetryLine? ==> s == ",\n"
    ensures f.DerivedLine? && f.endImpl.None? ==> s == DefaultEnd
    ensures f.DerivedLine? && f.endImpl.Some? ==> s == f.endImpl.value
    ensures s != ""  || (f.DerivedLine? && f.endImpl == Some(""))
  {
    match f
    case OpenTelemetryLine(_, _) => ",\n"
    case DerivedLine(_, _, endImpl) => if endImpl.Some? then endImpl.value else DefaultEnd
  }

  /** The file formatter's header: `{ "traces": [ ` for the OpenTelemetry one. */
  function Header(ff: FileFormatter): (s: string)
    ensures ff.OpenTelemetryFile? ==> s == OtelHeader && s != ""
  {
    match ff
    case OpenTelemetryFile => OtelHeader
    case DerivedFile(headerImpl, _) => headerImpl
  }

  /** The file formatter's footer: `] }` and a newline for the OpenTelemetry one. */
  function Footer(ff: FileFormatter): (s: string)
    ensures ff.OpenTelemetryFile? ==> s == OtelFooter && s != ""
  {
    match ff
    case OpenTelemetryFile => OtelFooter
    case DerivedFile(_, footerImpl) => footerImpl
  }

  // ---------------------------------------------------------------------------
  // The streaming serialiser
  // ---------------------------------------------------------------------------

  /** The attribute loop with its `first` flag: appends the members, comma-separated. */
  method AppendMembers(out: string, m: StringMap) returns (r: string)
    ensures r == out + Members(m)
  {
    r := out;
    var first := true;
    var i := 0;
    while i < |m|
      invariant 0 <= i <= |m|
      invariant first <==> i == 0
      invariant r == out + Members(m[..i])
    {
      var before := r;
      if !first {
        r := r + ",";
      }
      r := r + Quoted(m[i].0) + ":" + Quoted(m[i].1);
      JoinStep(out, m, i, MemberText, before, r);
      first := false;
      i := i + 1;
    }
    assert m[..i] == m;
  }

  /** One event, as the event loop writes it. */
  method AppendEvent(out: string, e: Event) returns (r: string)
    ensures r == out + EventText(e)
  {
    r := out + "{\"name\":\"" + e.name + "\",\"timestamp\":" + NatToString(e.timestampNanos);
    if e.attributes != [] {
      r := r + ",\"attributes\":{";
      r := AppendMembers(r, e.attributes);
      r := r + "}";
    }
    r := r + "}";
  }

  /** The event loop with its `first_event` flag. */
  method AppendEvents(out: string, es: seq<Event>) returns (r: string)
    ensures r == out + Join(es, EventText)
  {
    r := out;
    var first := true;
    var i := 0;
    while i < |es|
      invariant 0 <= i <= |es|
      invariant first <==> i == 0
      invariant r == out + Join(es[..i], EventText)
    {
      var before := r;
      if !first {
        r := r + ",";
      }
      r := AppendEvent(r, es[i]);
      JoinStep(out, es, i, EventText, before, r);
      first := false;
      i := i + 1;
    }
    assert es[..i] == es;
  }

  /**
   * formatMiddleImpl of the OpenTelemetry formatter: the entry of the trace,
   * with the clock read once for "duration" (`now1`) and once for
   * "total_duration" (`now2`).
   */
  method FormatMiddleImpl(serviceName: string, t: Trace, now1: U64, now2: U64) returns (s: string)
    ensures s == Entry(serviceName, t.View(), t.DurationNanos(now1), t.DurationNanos(now2))
  {
    ghost var v := t.View();
    s := WriteHead(t);
    if t.parentSpanId != "" {
      s := s + ("\"parentSpanId\":\"" + t.parentSpanId + "\",");
    }
    assert s == Head(v) + ParentPart(v);
    s := AppendSpanBody(s, serviceName, t, t.DurationNanos(now1));
    s := AppendAttributes(s, t.attributes);
    s := AppendEventsPart(s, t.events);
    s := AppendTail(s, t, t.DurationNanos(now2));
  }

  /** The event block, written only when some event was recorded. */
  method AppendEventsPart(out: string, es: seq<Event>) returns (r: string)
    ensures r == out + EventsPart(es)
  {
    r := out;
    if es != [] {
      var block := ",\"events\":[";
      block := AppendEvents(block, es);
      block := block + "]";
      r := r + block;
    }
  }

  /** The opening of the entry, up to the span identifier. */
  method WriteHead(t: Trace) returns (s: string)
    ensures s == Head(t.View())
  {
    s := "{" + "\"traceId\":\"" + t.traceId + "\"," + "\"traceName\":\"" + t.operationName + "\"," + "\"spans\":[{";
    s := s + "\"spanId\":\"" + t.spanId + "\",";
  }

  /** The span's own fields, from its operation name to its depth. */
  method AppendSpanBody(out: string, serviceName: string, t: Trace, duration: U64) returns (s: string)
    ensures s == out + SpanBody(serviceName, t.View(), duration)
  {
    var fields := t.operationName + "\"," + "\"serviceName\":\"" + serviceName + "\"," +
      "\"startTime\":" + NatToString(t.startTimeNanos) + "," + "\"duration\":" + NatToString(duration);
    var depth: nat := if t.parentSpanId == "" then 0 else 1;
    fields := fields + ",\"depth\":" + NatToString(depth);
    s := out + (OperationKey + fields);
  }

  /** The close of the span list and the trace-level fields. */
  method AppendTail(out: string, t: Trace, totalDuration: U64) returns (s: string)
    ensures s == out + Tail(t.View(), totalDuration)
  {
    var tail := "}],";
    tail := tail + "\"startTime\":" + NatToString(t.startTimeNanos) + "," + "\"total_duration\":" + NatToString(totalDuration) + "," + "\"total_spans\":1";
    tail := tail + "}";
    s := out + tail;
  }

  /** The span's attribute block, written only for a non-empty map. */
  method AppendAttributes(out: string, m: StringMap) returns (r: string)
    ensures r == out + AttributesPart(m)
  {
    r := out;
    if m != [] {
      r := r + ",\"attributes\":{";
      r := AppendMembers(r, m);
      r := r + "}";
    }
  }

  /** formatMiddle: the derived formatter's formatMiddleImpl. */
  method FormatMiddle(f: LineFormatter, t: Trace, now1: U64, now2: U64) returns (s: string)
    ensures s == Middle(f, t.View(), t.DurationNanos(now1), t.DurationNanos(now2))
  {
    match f
    case OpenTelemetryLine(serviceName, _) =>
      s := FormatMiddleImpl(serviceName, t, now1, now2);
    case DerivedLine(_, middleImpl, _) =>
      s := middleImpl(t.View());
  }

  /** line: the three parts of a log line, concatenated. */
  method FormatLine(f: LineFormatter, level: LogLevel, t: Trace, now1: U64, now2: U64) returns (s: string)
    ensures s == FormatBegin(f, level) + Middle(f, t.View(), t.DurationNanos(now1), t.DurationNanos(now2)) + FormatEnd(f)
  {
    var middle := FormatMiddle(f, t, now1, now2);
    s := FormatBegin(f, level) + middle + FormatEnd(f);
  }

  // ---------------------------------------------------------------------------
  // Properties of the entry
  // ---------------------------------------------------------------------------

  /** With the OpenTelemetry formatter a line is the entry and ",\n", whatever the level. */
  lemma OpenTelemetryLineIgnoresLevel(serviceName: string, version: string, level: LogLevel, v: TraceView, d1: U64, d2: U64)
    ensures var f := OpenTelemetryLine(serviceName, version);
      FormatBegin(f, level) + Middle(f, v, d1, d2) + FormatEnd(f) == Entry(serviceName, v, d1, d2) + ",\n"
  {
    var f := OpenTelemetryLine(serviceName, version);
    var e := Entry(serviceName, v, d1, d2);
    assert FormatBegin(f, level) == "" && FormatEnd(f) == ",\n";
    assert Middle(f, v, d1, d2) == e;
    assert "" + e == e;
  }

  /** An ended trace reports the same "duration" and "total_duration", whatever the clock says. */
  lemma EndedTraceEntryIgnoresClock(serviceName: string, t: Trace, now1: U64, now2: U64, now3: U64, now4: U64)
    requires t.ended
    ensures Entry(serviceName, t.View(), t.DurationNanos(now1), t.DurationNanos(now2)) ==
            Entry(serviceName, t.View(), t.DurationNanos(now3), t.DurationNanos(now4))
  {
    DurationFrozenAfterEnd(t, now1, now3);
    DurationFrozenAfterEnd(t, now2, now4);
  }

  /** A prefix of the left operand is a prefix of the concatenation. */
  lemma PrefixOfConcat(a: string, b: string, p: string)
    requires |p| <= |a| && a[..|p|] == p
    ensures |p| <= |a + b| && (a + b)[..|p|] == p
  {
    assert (a + b)[..|p|] == a[..|p|];
  }

  /** Every entry opens with the trace and span identifiers and closes with the single-span trailer. */
  lemma {:induction false} EntryFrame(serviceName: string, v: TraceView, d1: U64, d2: U64)
    ensures var e := Entry(serviceName, v, d1, d2);
      |Head(v)| <= |e| && e[..|Head(v)|] == Head(v) &&
      |Tail(v, d2)| <= |e| && e[|e| - |Tail(v, d2)|..] == Tail(v, d2)
  {
    var h, p, b := Head(v), ParentPart(v), SpanBody(serviceName, v, d1);
    var a, ev, tl := AttributesPart(v.attributes), EventsPart(v.events), Tail(v, d2);
    var e := Entry(serviceName, v, d1, d2);
    assert e == h + p + b + a + ev + tl;
    assert (h + p)[..|h|] == h;
    PrefixOfConcat(h + p, b, h);
    PrefixOfConcat(h + p + b, a, h);
    PrefixOfConcat(h + p + b + a, ev, h);
    PrefixOfConcat(h + p + b + a + ev, tl, h);
    assert e[|e| - |tl|..] == tl;
  }

  /** Right after the span identifier comes the parentSpanId key exactly when the trace has a parent. */
  lemma ParentKeyIffParent(serviceName: string, v: TraceView, d1: U64, d2: U64)
    ensures var e := Entry(serviceName, v, d1, d2);
      var key := "\"parentSpanId\":\"";
      (|Head(v)| + |key| <= |e| && e[|Head(v)|..|Head(v)| + |key|] == key) <==> v.parentSpanId != ""
  {
    if v.parentSpanId == "" {
      RootEntryHasNoParentKey(serviceName, v, d1, d2);
    } else {
      ChildEntryHasParentKey(serviceName, v, d1, d2);
    }
  }

  lemma RootEntryHasNoParentKey(serviceName: string, v: TraceView, d1: U64, d2: U64)
    requires v.parentSpanId == ""
    ensures var e := Entry(serviceName, v, d1, d2);
      var key := "\"parentSpanId\":\"";
      !(|Head(v)| + |key| <= |e| && e[|Head(v)|..|Head(v)| + |key|] == key)
  {
    var b := SpanBody(serviceName, v, d1);
    var rest := b + AttributesPart(v.attributes) + EventsPart(v.events) + Tail(v, d2);
    EntryAfterHead(serviceName, v, d1, d2);
    assert ParentPart(v) + rest == rest;
    SpanBodyOpens(serviceName, v, d1);
    StartsWith(b, AttributesPart(v.attributes), EventsPart(v.events), Tail(v, d2), OperationKey);
    NoParentKey(Head(v), rest);
  }

  lemma ChildEntryHasParentKey(serviceName: string, v: TraceView, d1: U64, d2: U64)
    requires v.parentSpanId != ""
    ensures var e := Entry(serviceName, v, d1, d2);
      var key := "\"parentSpanId\":\"";
      |Head(v)| + |key| <= |e| && e[|Head(v)|..|Head(v)| + |key|] == key
  {
    var rest := SpanBody(serviceName, v, d1) + AttributesPart(v.attributes) + EventsPart(v.events) + Tail(v, d2);
    EntryAfterHead(serviceName, v, d1, d2);
    ParentKey(Head(v), ParentPart(v), rest, v);
  }

  /** The entry as its head, then its parent part, then the rest. */
  lemma EntryAfterHead(serviceName: string, v: TraceView, d1: U64, d2: U64)
    ensures Entry(serviceName, v, d1, d2) ==
      Head(v) + (ParentPart(v) + (SpanBody(serviceName, v, d1) + AttributesPart(v.attributes) + EventsPart(v.events) + Tail(v, d2)))
  {
    Regroup(Head(v), ParentPart(v), SpanBody(serviceName, v, d1), AttributesPart(v.attributes), EventsPart(v.events), Tail(v, d2));
  }

  lemma Regroup(h: string, p: string, b: string, a: string, ev: string, tl: string)
    ensures h + p + b + a + ev + tl == h + (p + (b + a + ev + tl))
  {
  }

  /** What opens with the operationName key cannot open with the parentSpanId key. */
  lemma NoParentKey(h: string, r: string)
    requires |OperationKey| <= |r| && r[..|OperationKey|] == OperationKey
    ensures var key := "\"parentSpanId\":\"";
      !(|h| + |key| <= |h + r| && (h + r)[|h|..|h| + |key|] == key)
  {
    var key := "\"parentSpanId\":\"";
    var e := h + r;
    assert r[1] == OperationKey[1] == 'o';
    assert e[|h| + 1] == 'o';
    if |h| + |key| <= |e| {
      assert e[|h|..|h| + |key|][1] == 'o' != key[1];
    }
  }

  /** A prefix of the first of four strings is a prefix of their concatenation. */
  lemma StartsWith(b: string, x: string, y: string, z: string, key: string)
    requires |key| <= |b| && b[..|key|] == key
    ensures |key| <= |b + x + y + z| && (b + x + y + z)[..|key|] == key
  {
    assert (b + x + y + z)[..|key|] == b[..|key|];
  }

  lemma ParentKey(h: string, p: string, after: string, v: TraceView)
    requires v.parentSpanId != "" && p == ParentPart(v)
    ensures var key := "\"parentSpanId\":\"";
      |h| + |key| <= |h + (p + after)| && (h + (p + after))[|h|..|h| + |key|] == key
  {
    var key := "\"parentSpanId\":\"";
    assert p[..|key|] == key;
    PrefixOfConcat(p, after, key);
    assert (h + (p + after))[|h|..|h| + |key|] == (p + after)[..|key|];
  }

  /** The span's fields open with the operationName key. */
  lemma SpanBodyOpens(serviceName: string, v: TraceView, duration: U64)
    ensures |OperationKey| <= |SpanBody(serviceName, v, duration)| && SpanBody(serviceName, v, duration)[..|OperationKey|] == OperationKey
  {
    var rest := SpanFields(serviceName, v, duration);
    assert (OperationKey + rest)[..|OperationKey|] == OperationKey;
  }

  // ---------------------------------------------------------------------------
  // Reading the attribute members back
  // ---------------------------------------------------------------------------

  predicate QuoteFree(s: string) { forall i :: 0 <= i < |s| ==> s[i] != '"' }

  predicate MapQuoteFree(m: StringMap)
  {
    forall i :: 0 <= i < |m| ==> QuoteFree(m[i].0) && QuoteFree(m[i].1)
  }

  /** The position of the first quote. */
  function FindQuote(s: string): (r: Option<nat>)
    ensures r.Some? ==> r.value < |s| && s[r.value] == '"' && QuoteFree(s[..r.value])
    ensures r.None? ==> QuoteFree(s)
  {
    if s == [] then None
    else if s[0] == '"' then Some(0)
    else match FindQuote(s[1..])
      case None => None
      case Some(i) =>
        assert s[..i + 1] == [s[0]] + s[1..][..i];
        Some(i + 1)
  }

  /** A quoted string without inner quotes at the front of `s`, and what follows it. */
  function ParseQuoted(s: string): (r: Option<(string, string)>)
    ensures r.Some? ==> |r.value.1| < |s|
  {
    if |s| == 0 || s[0] != '"' then None
    else match FindQuote(s[1..])
      case None => None
      case Some(i) => Some((s[1..i + 1], s[i + 2..]))
  }

  /** One `"key":"value"` member at the front of `s`, and what follows it. */
  function ParseMember(s: string): (r: Option<((string, string), string)>)
    ensures r.Some? ==> |r.value.1| < |s|
  {
    match ParseQuoted(s)
    case None => None
    case Some((k, rest)) =>
      if |rest| == 0 || rest[0] != ':' then None
      else match ParseQuoted(rest[1..])
        case None => None
        case Some((v, rest')) => Some(((k, v), rest'))
  }

  /** Comma-separated members filling all of `s`. */
  function ParseMembers(s: string): Option<StringMap>
    decreases |s|
  {
    match ParseMember(s)
    case None => None
    case Some((p, rest)) =>
      if rest == "" then Some([p])
      else if rest[0] != ',' then None
      else match ParseMembers(rest[1..])
        case None => None
        case Some(ps) => Some([p] + ps)
  }

  lemma {:induction false} FindQuoteAfter(k: string, rest: string)
    requires QuoteFree(k)
    ensures FindQuote(k + "\"" + rest) == Some(|k|)
  {
    if k != [] {
      assert (k + "\"" + rest)[1..] == k[1..] + "\"" + rest;
      FindQuoteAfter(k[1..], rest);
    }
  }

  lemma ParseQuotedText(k: string, rest: string)
    requires QuoteFree(k)
    ensures ParseQuoted(Quoted(k) + rest) == Some((k, rest))
  {
    var s := Quoted(k) + rest;
    assert s[1..] == k + "\"" + rest;
    FindQuoteAfter(k, rest);
    assert s[1..|k| + 1] == k;
    assert s[|k| + 2..] == rest;
  }

  lemma ParseMemberText(p: (string, string), rest: string)
    requires QuoteFree(p.0) && QuoteFree(p.1)
    ensures ParseMember(MemberText(p) + rest) == Some((p, rest))
  {
    var afterKey := ":" + Quoted(p.1) + rest;
    assert MemberText(p) + rest == Quoted(p.0) + afterKey;
    ParseQuotedText(p.0, afterKey);
    assert afterKey[1..] == Quoted(p.1) + rest;
    ParseQuotedText(p.1, rest);
  }

  /**
   * The attribute members determine the map: when no key or value holds a
   * quote, reading the text back gives the entries in the order written.
   */
  lemma {:induction false} MembersReadBack(m: StringMap)
    requires m != [] && MapQuoteFree(m)
    ensures ParseMembers(Members(m)) == Some(m)
  {
    if |m| == 1 {
      assert ParseMember(Members(m)) == Some((m[0], "")) by {
        assert Members(m) == MemberText(m[0]) + "";
        ParseMemberText(m[0], "");
      }
      assert [m[0]] == m;
    } else {
      assert MapQuoteFree(m[1..]) by {
        forall i | 0 <= i < |m[1..]| ensures QuoteFree(m[1..][i].0) && QuoteFree(m[1..][i].1) {
          assert m[1..][i] == m[i + 1];
        }
      }
      MembersReadBack(m[1..]);
      MembersReadBackCons(m);
    }
  }

  /** The read-back of a list of two or more members, given the read-back of its tail. */
  lemma MembersReadBackCons(m: StringMap)
    requires |m| > 1 && QuoteFree(m[0].0) && QuoteFree(m[0].1)
    requires ParseMembers(Members(m[1..])) == Some(m[1..])
    ensures ParseMembers(Members(m)) == Some(m)
  {
    FirstMemberRead(m);
    ParseMembersCons(Members(m), m[0], Members(m[1..]), m[1..]);
    HeadAndTail(m);
  }

  lemma HeadAndTail<T>(m: seq<T>)
    requires |m| > 0
    ensures [m[0]] + m[1..] == m
  {
  }

  /** The first of two or more members is read, leaving the comma and the others. */
  lemma FirstMemberRead(m: StringMap)
    requires |m| > 1 && QuoteFree(m[0].0) && QuoteFree(m[0].1)
    ensures ParseMember(Members(m)) == Some((m[0], "," + Members(m[1..])))
  {
    var rest := "," + Members(m[1..]);
    assert Members(m) == MemberText(m[0]) + rest;
    ParseMemberText(m[0], rest);
  }

  /** A member followed by a comma and a list of members is read as the longer list. */
  lemma ParseMembersCons(s: string, p: (string, string), tail: string, ps: StringMap)
    requires ParseMember(s) == Some((p, "," + tail)) && ParseMembers(tail) == Some(ps)
    ensures ParseMembers(s) == Some([p] + ps)
  {
    var rest := "," + tail;
    assert rest[1..] == tail;
  }

  /**
   * Keys and values are copied without escaping, so a value holding quotes
   * can make one attribute print as two.
   */
  lemma VerbatimValuesAreAmbiguous()
    ensures Members([("a", "b\",\"c\":\"d")]) == Members([("a", "b"), ("c", "d")])
  {
    assert Members([("a", "b"), ("c", "d")]) == MemberText(("a", "b")) + "," + MemberText(("c", "d"));
  }
}
