/**
 * The header-only span record of the logging library
 * (include/MyLogger/Strategies/LogTrace.hpp): a trace or span with random
 * identifiers, an attribute map, a list of events and a list of children.
 * The system clock is a parameter of every member that reads it.
 */
module LogTrace {
  import opened Attributes
  import opened TraceIds
  import opened Wrappers

  /** One timestamped event and its attributes. */
  datatype Event = Event(name: string, timestampNanos: U64, attributes: StringMap)

  /** What the line formatter reads from a trace: every field but the children. */
  datatype TraceView = TraceView(
    operationName: string, traceId: string, spanId: string, parentSpanId: string,
    attributes: StringMap, events: seq<Event>, startTimeNanos: U64)

  class Trace {
    var operationName: string
    var traceId: string
    var spanId: string
    /** Empty for a root trace. */
    var parentSpanId: string
    var attributes: StringMap
    var children: seq<Trace>
    var events: seq<Event>
    var startTimeNanos: U64
    /** Has no initialiser: it holds an unknown value until end() is called. */
    var endTimeNanos: U64
    var ended: bool

    /** The maps of the trace and of its events are in key order. */
    predicate Valid()
      reads this
    {
      Sorted(attributes) && forall i :: 0 <= i < |events| ==> Sorted(events[i].attributes)
    }

    function View(): TraceView
      reads this
    {
      TraceView(operationName, traceId, spanId, parentSpanId, attributes, events, startTimeNanos)
    }

    /** `other` holds the same values as this trace, children included. */
    predicate SameAs(other: Trace)
      reads this, other
    {
      View() == other.View() && children == other.children &&
      endTimeNanos == other.endTimeNanos && ended == other.ended
    }

    /**
     * The root constructor: fresh trace and span identifiers from the drawn
     * words, no parent, the start time read from the clock, and the pairs
     * stored into the attribute map.
     */
    constructor Root(operationName: string, pairs: seq<(string, string)>,
                     traceDraws: seq<U32>, spanDraws: seq<U32>, now: U64)
      requires |traceDraws| == 4 && |spanDraws| == 2
      ensures this.operationName == operationName
      ensures traceId == HexWords(traceDraws) && |traceId| == 32
      ensures spanId == HexWords(spanDraws) && |spanId| == 16
      ensures parentSpanId == ""
      ensures attributes == PutAll([], pairs)
      ensures children == [] && events == []
      ensures startTimeNanos == now && !ended
      ensures Valid()
    {
      var newTraceId := GenerateTraceId(traceDraws);
      var newSpanId := GenerateSpanId(spanDraws);
      var pairMap := FromPairs(pairs);
      this.operationName := operationName;
      traceId := newTraceId;
      spanId := newSpanId;
      parentSpanId := "";
      startTimeNanos := now;
      attributes := pairMap;
      children := [];
      events := [];
      ended := false;
    }

    /**
     * The child constructor: the trace identifier of the parent, the parent's
     * span identifier as parent span identifier, a fresh span identifier, and
     * a copy of the new span pushed onto the parent's children.
     */
    constructor Child(parent: Trace, operationName: string, pairs: seq<(string, string)>,
                      spanDraws: seq<U32>, now: U64)
      requires |spanDraws| == 2
      modifies parent`children
      ensures this.operationName == operationName
      ensures traceId == parent.traceId && parentSpanId == parent.spanId
      ensures spanId == HexWords(spanDraws) && |spanId| == 16
      ensures attributes == PutAll([], pairs)
      ensures children == [] && events == []
      ensures startTimeNanos == now && !ended
      ensures Valid()
      ensures |parent.children| == |old(parent.children)| + 1
      ensures parent.children[..|old(parent.children)|] == old(parent.children)
      ensures var copy := parent.children[|old(parent.children)|];
        fresh(copy) && copy != this && copy.SameAs(this)
    {
      var newSpanId := GenerateSpanId(spanDraws);
      var pairMap := FromPairs(pairs);
      this.operationName := operationName;
      traceId := parent.traceId;
      spanId := newSpanId;
      parentSpanId := parent.spanId;
      startTimeNanos := now;
      attributes := pairMap;
      children := [];
      events := [];
      ended := false;
      new;
      var copy := new Trace.Copy(this);
      parent.children := parent.children + [copy];
    }

    /** The implicit copy constructor: every field, the child pointers included, is copied. */
    constructor Copy(other: Trace)
      ensures SameAs(other)
    {
      operationName := other.operationName;
      traceId := other.traceId;
      spanId := other.spanId;
      parentSpanId := other.parentSpanId;
      attributes := other.attributes;
      children := other.children;
      events := other.events;
      startTimeNanos := other.startTimeNanos;
      endTimeNanos := other.endTimeNanos;
      ended := other.ended;
    }

    /** addEvent: one event, stamped with the clock and carrying the pairs as a map, at the end of the list. */
    method AddEvent(name: string, pairs: seq<(string, string)>, now: U64)
      requires Valid()
      modifies this`events
      ensures events == old(events) + [Event(name, now, PutAll([], pairs))]
      ensures Valid()
    {
      var eventAttributes := FromPairs(pairs);
      events := events + [Event(name, now, eventAttributes)];
    }

    /** addAttribute: `m_attributes[key] = value`. */
    method AddAttribute(key: string, value: string)
      requires Valid()
      modifies this`attributes
      ensures attributes == Put(old(attributes), key, value)
      ensures Lookup(attributes, key) == Some(value)
      ensures forall k :: k != key ==> Lookup(attributes, k) == Lookup(old(attributes), k)
      ensures Valid()
    {
      PutKeepsOrder(attributes, key, value);
      attributes := Put(attributes, key, value);
    }

    /** end: only the first call records the end time. */
    method End(now: U64)
      modifies this`ended, this`endTimeNanos
      ensures ended
      ensures endTimeNanos == if old(ended) then old(endTimeNanos) else now
    {
      if !ended {
        endTimeNanos := now;
        ended := true;
      }
    }

    /**
     * getDurationNanos: the end time, or the clock while the trace runs,
     * minus the start time, as a `uint64_t` subtraction.
     */
    function DurationNanos(now: U64): (d: U64)
      reads this
      ensures (startTimeNanos + d) % Two64 == if ended then endTimeNanos else now
      ensures ended && startTimeNanos <= endTimeNanos ==> d == endTimeNanos - startTimeNanos
    {
      if ended then Sub64(endTimeNanos, startTimeNanos) else Sub64(now, startTimeNanos)
    }

    /**
     * createChildSpan: builds the child, whose constructor pushes a copy of
     * it onto this trace's children, then pushes the child itself, so the
     * list grows by two entries.
     */
    method CreateChildSpan(operationName: string, pairs: seq<(string, string)>,
                           spanDraws: seq<U32>, now: U64) returns (child: Trace)
      requires |spanDraws| == 2
      modifies this`children
      ensures fresh(child)
      ensures child.operationName == operationName
      ensures child.traceId == traceId && child.parentSpanId == spanId
      ensures child.spanId == HexWords(spanDraws)
      ensures child.attributes == PutAll([], pairs) && child.events == [] && child.children == []
      ensures child.startTimeNanos == now && !child.ended && child.Valid()
      ensures |children| == |old(children)| + 2
      ensures children[..|old(children)|] == old(children)
      ensures children[|children| - 1] == child
      ensures var copy := children[|old(children)|];
        fresh(copy) && copy != child && copy.SameAs(child)
    {
      child := new Trace.Child(this, operationName, pairs, spanDraws, now);
      children := children + [child];
    }
  }

  /** Once a trace has ended its duration no longer depends on the clock. */
  lemma DurationFrozenAfterEnd(t: Trace, now1: U64, now2: U64)
    requires t.ended
    ensures t.DurationNanos(now1) == t.DurationNanos(now2) == Sub64(t.endTimeNanos, t.startTimeNanos)
  {
  }
}
