/**
 * The compiled span class of the logging library (src/Trace.cpp, declared in
 * include/MyLogger/Trace.hpp): a handle `Trace` owning a `TraceImpl` through
 * a unique pointer. A moved-from handle owns nothing (`impl == null`). The
 * steady clock and the system clock are parameters of the members that read
 * them; the random engine is replaced by its drawn words.
 */
module PimplTrace {
  import opened Attributes
  import opened TraceIds
  import opened Wrappers

  /**
   * The JSON payload of an event: the pairs as given, or the object
   * `{"name": name}` when no pair was given. How nlohmann::json lays the
   * pairs out is not part of this model.
   */
  datatype Payload = PairList(pairs: seq<(string, string)>) | NameObject(name: string)

  datatype ImplEvent = ImplEvent(name: string, timestampNanos: U64, payload: Payload)

  /** The payload addEvent builds from its pairs. */
  function EventPayload(name: string, pairs: seq<(string, string)>): (p: Payload)
    ensures p.PairList? <==> |pairs| > 0
    ensures p.PairList? ==> p.pairs == pairs
    ensures p.NameObject? ==> p.name == name
  {
    if |pairs| > 0 then PairList(pairs) else NameObject(name)
  }

  class TraceImpl {
    var operationName: string
    var traceId: string
    var spanId: string
    var parentSpanId: string
    var parentTrace: Trace?
    /** The constructor pairs, kept as given (`m_json`). */
    var json: seq<(string, string)>
    var attributes: StringMap
    var events: seq<ImplEvent>
    var children: seq<Trace>
    /** Steady-clock time points. */
    var startTime: int
    var endTime: int
    /** System-clock nanoseconds since the epoch; the end value has no initialiser. */
    var startTimeEpoch: U64
    var endTimeEpoch: U64
    var ended: bool

    /** `other` holds the same values as this implementation, the child pointers included. */
    predicate SameAs(other: TraceImpl)
      reads this, other
    {
      operationName == other.operationName && traceId == other.traceId &&
      spanId == other.spanId && parentSpanId == other.parentSpanId &&
      parentTrace == other.parentTrace && json == other.json &&
      attributes == other.attributes && events == other.events &&
      children == other.children && startTime == other.startTime &&
      endTime == other.endTime && startTimeEpoch == other.startTimeEpoch &&
      endTimeEpoch == other.endTimeEpoch && ended == other.ended
    }

    /** The root constructor: new identifiers, no parent, the pairs kept only as JSON. */
    constructor Root(operationName: string, pairs: seq<(string, string)>,
                     traceDraws: seq<U32>, spanDraws: seq<U32>, steadyNow: int, epochNow: U64)
      requires |traceDraws| == 4 && |spanDraws| == 2
      ensures this.operationName == operationName
      ensures traceId == HexWords(traceDraws) && spanId == HexWords(spanDraws)
      ensures parentSpanId == "" && parentTrace == null
      ensures json == pairs && attributes == [] && events == [] && children == []
      ensures startTime == steadyNow && startTimeEpoch == epochNow && !ended
    {
      var newTraceId := GenerateTraceId(traceDraws);
      var newSpanId := GenerateSpanId(spanDraws);
      this.operationName := operationName;
      traceId := newTraceId;
      spanId := newSpanId;
      parentSpanId := "";
      parentTrace := null;
      json := pairs;
      attributes := [];
      events := [];
      children := [];
      startTime := steadyNow;
      startTimeEpoch := epochNow;
      ended := false;
    }

    /** The child constructor: the parent's trace identifier, the parent's span identifier as parent, a new span identifier. */
    constructor Child(parent: Trace, operationName: string, pairs: seq<(string, string)>,
                      spanDraws: seq<U32>, steadyNow: int, epochNow: U64)
      requires parent.impl != null
      requires |spanDraws| == 2
      ensures this.operationName == operationName
      ensures traceId == parent.impl.traceId && parentSpanId == parent.impl.spanId
      ensures spanId == HexWords(spanDraws) && parentTrace == parent
      ensures json == pairs && attributes == [] && events == [] && children == []
      ensures startTime == steadyNow && startTimeEpoch == epochNow && !ended
    {
      var newSpanId := GenerateSpanId(spanDraws);
      this.operationName := operationName;
      traceId := parent.impl.traceId;
      spanId := newSpanId;
      parentSpanId := parent.impl.spanId;
      parentTrace := parent;
      json := pairs;
      attributes := [];
      events := [];
      children := [];
      startTime := steadyNow;
      startTimeEpoch := epochNow;
      ended := false;
    }

    /** The copy constructor: every field, so the copy shares the child pointers. */
    constructor Copy(other: TraceImpl)
      ensures SameAs(other)
    {
      operationName := other.operationName;
      traceId := other.traceId;
      spanId := other.spanId;
      parentSpanId := other.parentSpanId;
      parentTrace := other.parentTrace;
      json := other.json;
      attributes := other.attributes;
      events := other.events;
      children := other.children;
      startTime := other.startTime;
      endTime := other.endTime;
      startTimeEpoch := other.startTimeEpoch;
      endTimeEpoch := other.endTimeEpoch;
      ended := other.ended;
    }

    /** addEvent: one event at the end of the list, stamped with the system clock. */
    method AddEvent(name: string, pairs: seq<(string, string)>, epochNow: U64)
      modifies this`events
      ensures events == old(events) + [ImplEvent(name, epochNow, EventPayload(name, pairs))]
    {
      var payload: Payload;
      if |pairs| > 0 {
        payload := PairList(pairs);
      } else {
        payload := NameObject(name);
      }
      events := events + [ImplEvent(name, epochNow, payload)];
    }

    /** end: only the first call records the two end times. */
    method End(steadyNow: int, epochNow: U64)
      modifies this`ended, this`endTime, this`endTimeEpoch
      ensures ended
      ensures old(ended) ==> endTime == old(endTime) && endTimeEpoch == old(endTimeEpoch)
      ensures !old(ended) ==> endTime == steadyNow && endTimeEpoch == epochNow
    {
      if !ended {
        endTime := steadyNow;
        endTimeEpoch := epochNow;
        ended := true;
      }
    }

    /** getDurationNanos: the end, or the system clock while running, minus the start, on `uint64_t`. */
    function DurationNanos(epochNow: U64): (d: U64)
      reads this
      ensures (startTimeEpoch + d) % Two64 == if ended then endTimeEpoch else epochNow
      ensures ended && startTimeEpoch <= endTimeEpoch ==> d == endTimeEpoch - startTimeEpoch
    {
      if ended then Sub64(endTimeEpoch, startTimeEpoch) else Sub64(epochNow, startTimeEpoch)
    }
  }

  class Trace {
    /** The owned implementation; null once it has been moved out. */
    var impl: TraceImpl?

    /** Trace(operation_name, pairs): a root implementation. */
    constructor Root(operationName: string, pairs: seq<(string, string)>,
                     traceDraws: seq<U32>, spanDraws: seq<U32>, steadyNow: int, epochNow: U64)
      requires |traceDraws| == 4 && |spanDraws| == 2
      ensures impl != null && fresh(impl)
      ensures impl.operationName == operationName
      ensures impl.traceId == HexWords(traceDraws) && impl.spanId == HexWords(spanDraws)
      ensures impl.parentSpanId == "" && impl.parentTrace == null
      ensures impl.json == pairs && impl.attributes == [] && impl.events == [] && impl.children == []
      ensures impl.startTimeEpoch == epochNow && !impl.ended
    {
      impl := new TraceImpl.Root(operationName, pairs, traceDraws, spanDraws, steadyNow, epochNow);
    }

    /**
     * Trace(parent, operation_name, pairs): a child implementation, and a
     * copy of the new handle pushed onto the parent's children.
     */
    constructor Child(parent: Trace, operationName: string, pairs: seq<(string, string)>,
                      spanDraws: seq<U32>, steadyNow: int, epochNow: U64)
      requires parent.impl != null
      requires |spanDraws| == 2
      modifies parent.impl`children
      ensures impl != null && fresh(impl)
      ensures impl.operationName == operationName
      ensures impl.traceId == parent.impl.traceId && impl.parentSpanId == parent.impl.spanId
      ensures impl.spanId == HexWords(spanDraws) && impl.parentTrace == parent
      ensures impl.json == pairs && impl.attributes == [] && impl.events == [] && impl.children == []
      ensures impl.startTimeEpoch == epochNow && !impl.ended
      ensures |parent.impl.children| == |old(parent.impl.children)| + 1
      ensures parent.impl.children[..|old(parent.impl.children)|] == old(parent.impl.children)
      ensures var copy := parent.impl.children[|old(parent.impl.children)|];
        fresh(copy) && copy != this && copy.impl != null && fresh(copy.impl) && copy.impl.SameAs(impl)
    {
      impl := new TraceImpl.Child(parent, operationName, pairs, spanDraws, steadyNow, epochNow);
      new;
      var copy := new Trace.Copy(this);
      parent.impl.children := parent.impl.children + [copy];
    }

    /** The copy constructor: a new implementation holding the same values. */
    constructor Copy(other: Trace)
      requires other.impl != null
      ensures impl != null && fresh(impl) && impl.SameAs(other.impl)
    {
      impl := new TraceImpl.Copy(other.impl);
    }

    /** The move constructor: takes the implementation over and leaves `other` without one. */
    constructor Move(other: Trace)
      modifies other`impl
      ensures impl == old(other.impl) && other.impl == null
    {
      impl := other.impl;
      new;
      other.impl := null;
    }

    /** Copy assignment: a copy of the other implementation, nothing at all for a self-assignment. */
    method CopyAssign(other: Trace)
      requires other != this ==> other.impl != null
      modifies this`impl
      ensures other == this ==> impl == old(impl)
      ensures other != this ==> impl != null && fresh(impl) && impl.SameAs(other.impl)
    {
      if this != other {
        impl := new TraceImpl.Copy(other.impl);
      }
    }

    /** Move assignment: takes the other implementation over, nothing at all for a self-assignment. */
    method MoveAssign(other: Trace)
      modifies this`impl, other`impl
      ensures other == this ==> impl == old(impl)
      ensures other != this ==> impl == old(other.impl) && other.impl == null
    {
      if this != other {
        impl := other.impl;
        other.impl := null;
      }
    }

    /** The destructor: ends the trace when it still owns an implementation that has not ended. */
    method Destroy(steadyNow: int, epochNow: U64)
      modifies impl
      ensures impl == old(impl)
      ensures impl != null ==> impl.ended
      ensures impl != null && !old(impl.ended) ==> impl.endTime == steadyNow && impl.endTimeEpoch == epochNow
      ensures impl != null && old(impl.ended) ==> impl.endTime == old(impl.endTime) && impl.endTimeEpoch == old(impl.endTimeEpoch)
      ensures impl != null ==> impl.events == old(impl.events) && impl.children == old(impl.children) && impl.attributes == old(impl.attributes)
      ensures impl != null ==> impl.operationName == old(impl.operationName) && impl.json == old(impl.json)
      ensures impl != null ==> impl.traceId == old(impl.traceId) && impl.spanId == old(impl.spanId)
      ensures impl != null ==> impl.parentSpanId == old(impl.parentSpanId) && impl.parentTrace == old(impl.parentTrace)
      ensures impl != null ==> impl.startTime == old(impl.startTime) && impl.startTimeEpoch == old(impl.startTimeEpoch)
    {
      if impl != null && !impl.ended {
        impl.End(steadyNow, epochNow);
      }
    }

    /** createChildSpan: the child's constructor pushes a copy, then the child itself is pushed. */
    method CreateChildSpan(operationName: string, pairs: seq<(string, string)>,
                           spanDraws: seq<U32>, steadyNow: int, epochNow: U64) returns (child: Trace)
      requires impl != null
      requires |spanDraws| == 2
      modifies impl`children
      ensures fresh(child) && child.impl != null && fresh(child.impl)
      ensures child.impl.traceId == impl.traceId && child.impl.parentSpanId == impl.spanId
      ensures child.impl.spanId == HexWords(spanDraws) && child.impl.parentTrace == this
      ensures child.impl.json == pairs && child.impl.attributes == [] && !child.impl.ended
      ensures |impl.children| == |old(impl.children)| + 2
      ensures impl.children[..|old(impl.children)|] == old(impl.children)
      ensures impl.children[|impl.children| - 1] == child
      ensures var copy := impl.children[|old(impl.children)|];
        fresh(copy) && copy != child && copy.impl != null && fresh(copy.impl) && copy.impl.SameAs(child.impl)
    {
      child := new Trace.Child(this, operationName, pairs, spanDraws, steadyNow, epochNow);
      impl.children := impl.children + [child];
    }

    /** addAttribute: `m_attributes[key] = value` on the implementation. */
    method AddAttribute(key: string, value: string)
      requires impl != null
      modifies impl`attributes
      ensures impl.attributes == Put(old(impl.attributes), key, value)
      ensures Lookup(impl.attributes, key) == Some(value)
      ensures forall k :: k != key ==> Lookup(impl.attributes, k) == Lookup(old(impl.attributes), k)
      ensures Sorted(old(impl.attributes)) ==> Sorted(impl.attributes)
    {
      if Sorted(impl.attributes) {
        PutKeepsOrder(impl.attributes, key, value);
      }
      impl.attributes := Put(impl.attributes, key, value);
    }

    method AddEvent(name: string, pairs: seq<(string, string)>, epochNow: U64)
      requires impl != null
      modifies impl`events
      ensures impl.events == old(impl.events) + [ImplEvent(name, epochNow, EventPayload(name, pairs))]
    {
      impl.AddEvent(name, pairs, epochNow);
    }

    method End(steadyNow: int, epochNow: U64)
      requires impl != null
      modifies impl`ended, impl`endTime, impl`endTimeEpoch
      ensures impl.ended
      ensures old(impl.ended) ==> impl.endTime == old(impl.endTime) && impl.endTimeEpoch == old(impl.endTimeEpoch)
      ensures !old(impl.ended) ==> impl.endTime == steadyNow && impl.endTimeEpoch == epochNow
    {
      impl.End(steadyNow, epochNow);
    }
  }
}
