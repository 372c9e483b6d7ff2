/**
 * The filter sliders of the trace viewer (Viewer/Viewer.cpp): the bounds
 * cacheTraceInformation derives from the loaded traces, the values
 * initializeSliderBounds writes, and the min <= max fix-up the control
 * panel applies after each pair of sliders.
 */
module Sliders {
  import opened ViewerUtils
  import opened ViewerModel
  import opened TraceLoader
  import opened DoubleLimits

  function MinDurationOf(t: Trace): real { t.minDuration }
  function MaxDurationOf(t: Trace): real { t.maxDuration }
  function MinStartOf(t: Trace): real { t.minStartTime }
  function MaxStartOf(t: Trace): real { t.maxStartTime }

  predicate HasSpans(ts: seq<Trace>) { exists i :: 0 <= i < |ts| && |ts[i].spans| > 0 }

  /** std::min of a cached value over the traces that have spans. */
  function GlobalMin(ts: seq<Trace>, f: Trace -> real, seed: real): (r: real)
    ensures r <= seed && forall i :: 0 <= i < |ts| && |ts[i].spans| > 0 ==> r <= f(ts[i])
    decreases |ts|
  {
    if |ts| == 0 then seed
    else
      var prev := GlobalMin(ts[..|ts| - 1], f, seed);
      assert forall i :: 0 <= i < |ts| - 1 ==> ts[..|ts| - 1][i] == ts[i];
      if |ts[|ts| - 1].spans| > 0 then Min(prev, f(ts[|ts| - 1])) else prev
  }

  /** std::max of a cached value over the traces that have spans. */
  function GlobalMax(ts: seq<Trace>, f: Trace -> real, seed: real): (r: real)
    ensures r >= seed && forall i :: 0 <= i < |ts| && |ts[i].spans| > 0 ==> r >= f(ts[i])
    decreases |ts|
  {
    if |ts| == 0 then seed
    else
      var prev := GlobalMax(ts[..|ts| - 1], f, seed);
      assert forall i :: 0 <= i < |ts| - 1 ==> ts[..|ts| - 1][i] == ts[i];
      if |ts[|ts| - 1].spans| > 0 then Max(prev, f(ts[|ts| - 1])) else prev
  }

  /** The four values cacheTraceInformation passes on. */
  datatype Bounds = Bounds(minDuration: real, maxDuration: real, minTime: real, maxTime: real)

  /** The ranges over all traces with spans, or 0..1000 for both sliders when no trace has one. */
  function CachedBounds(ts: seq<Trace>): (b: Bounds)
    ensures HasSpans(ts) ==> forall i :: 0 <= i < |ts| && |ts[i].spans| > 0 ==>
      b.minDuration <= ts[i].minDuration && ts[i].maxDuration <= b.maxDuration &&
      b.minTime <= ts[i].minStartTime && ts[i].maxStartTime <= b.maxTime
    ensures !HasSpans(ts) ==> b == Bounds(0.0, 1000.0, 0.0, 1000.0)
  {
    if HasSpans(ts) then
      Bounds(GlobalMin(ts, MinDurationOf, DblMax), GlobalMax(ts, MaxDurationOf, 0.0),
             GlobalMin(ts, MinStartOf, DblMax), GlobalMax(ts, MaxStartOf, DblLowest))
    else Bounds(0.0, 1000.0, 0.0, 1000.0)
  }

  /**
   * The running std::min is attained: with no trace that has spans it is the
   * seed, and otherwise it is min(seed, f(t)) for some trace t with spans.
   */
  lemma {:induction false} GlobalMinAttained(ts: seq<Trace>, f: Trace -> real, seed: real)
    ensures !HasSpans(ts) ==> GlobalMin(ts, f, seed) == seed
    ensures HasSpans(ts) ==> exists i :: 0 <= i < |ts| && |ts[i].spans| > 0 && GlobalMin(ts, f, seed) == Min(seed, f(ts[i]))
    decreases |ts|
  {
    if |ts| > 0 {
      var pre := ts[..|ts| - 1];
      var last := |ts| - 1;
      GlobalMinAttained(pre, f, seed);
      HasSpansSnoc(ts);
      if HasSpans(pre) {
        var j :| 0 <= j < |pre| && |pre[j].spans| > 0 && GlobalMin(pre, f, seed) == Min(seed, f(pre[j]));
        assert pre[j] == ts[j];
        if |ts[last].spans| > 0 && f(ts[last]) < f(ts[j]) {
          assert GlobalMin(ts, f, seed) == Min(seed, f(ts[last]));
        } else {
          assert GlobalMin(ts, f, seed) == Min(seed, f(ts[j]));
        }
      } else if |ts[last].spans| > 0 {
        assert GlobalMin(ts, f, seed) == Min(seed, f(ts[last]));
      }
    }
  }

  /**
   * The running std::max is attained: with no trace that has spans it is the
   * seed, and otherwise it is max(seed, f(t)) for some trace t with spans.
   */
  lemma {:induction false} GlobalMaxAttained(ts: seq<Trace>, f: Trace -> real, seed: real)
    ensures !HasSpans(ts) ==> GlobalMax(ts, f, seed) == seed
    ensures HasSpans(ts) ==> exists i :: 0 <= i < |ts| && |ts[i].spans| > 0 && GlobalMax(ts, f, seed) == Max(seed, f(ts[i]))
    decreases |ts|
  {
    if |ts| > 0 {
      var pre := ts[..|ts| - 1];
      var last := |ts| - 1;
      GlobalMaxAttained(pre, f, seed);
      HasSpansSnoc(ts);
      if HasSpans(pre) {
        var j :| 0 <= j < |pre| && |pre[j].spans| > 0 && GlobalMax(pre, f, seed) == Max(seed, f(pre[j]));
        assert pre[j] == ts[j];
        if |ts[last].spans| > 0 && f(ts[last]) > f(ts[j]) {
          assert GlobalMax(ts, f, seed) == Max(seed, f(ts[last]));
        } else {
          assert GlobalMax(ts, f, seed) == Max(seed, f(ts[j]));
        }
      } else if |ts[last].spans| > 0 {
        assert GlobalMax(ts, f, seed) == Max(seed, f(ts[last]));
      }
    }
  }

  /**
   * Each cached bound is a value some trace with spans actually has, taken
   * against its seed: DBL_MAX for both minima, 0 for the longest duration and
   * lowest() for the latest start.
   */
  lemma CachedBoundsAttained(ts: seq<Trace>)
    requires HasSpans(ts)
    ensures exists i :: 0 <= i < |ts| && |ts[i].spans| > 0 && CachedBounds(ts).minDuration == Min(DblMax, ts[i].minDuration)
    ensures exists i :: 0 <= i < |ts| && |ts[i].spans| > 0 && CachedBounds(ts).maxDuration == Max(0.0, ts[i].maxDuration)
    ensures exists i :: 0 <= i < |ts| && |ts[i].spans| > 0 && CachedBounds(ts).minTime == Min(DblMax, ts[i].minStartTime)
    ensures exists i :: 0 <= i < |ts| && |ts[i].spans| > 0 && CachedBounds(ts).maxTime == Max(DblLowest, ts[i].maxStartTime)
  {
    GlobalMinAttained(ts, MinDurationOf, DblMax);
    GlobalMaxAttained(ts, MaxDurationOf, 0.0);
    GlobalMinAttained(ts, MinStartOf, DblMax);
    GlobalMaxAttained(ts, MaxStartOf, DblLowest);
  }

  /** HasSpans of a sequence, in terms of its prefix and last element. */
  lemma HasSpansSnoc(ts: seq<Trace>)
    requires |ts| > 0
    ensures HasSpans(ts) <==> HasSpans(ts[..|ts| - 1]) || |ts[|ts| - 1].spans| > 0
  {
    if HasSpans(ts) && |ts[|ts| - 1].spans| == 0 {
      var i :| 0 <= i < |ts| && |ts[i].spans| > 0;
      assert ts[..|ts| - 1][i] == ts[i];
    }
    if HasSpans(ts[..|ts| - 1]) {
      var i :| 0 <= i < |ts| - 1 && |ts[..|ts| - 1][i].spans| > 0;
      assert ts[i] == ts[..|ts| - 1][i];
    }
  }

  /** The running values of cacheTraceInformation's loop, over the traces seen so far. */
  ghost predicate RunningCache(ts: seq<Trace>, minDuration: real, maxDuration: real, minTime: real, maxTime: real,
                               hasSpans: bool)
  {
    && minDuration == GlobalMin(ts, MinDurationOf, DblMax) && maxDuration == GlobalMax(ts, MaxDurationOf, 0.0)
    && minTime == GlobalMin(ts, MinStartOf, DblMax) && maxTime == GlobalMax(ts, MaxStartOf, DblLowest)
    && hasSpans == HasSpans(ts)
  }

  /** A trace with spans moves the running values to include it; one without leaves them. */
  lemma RunningCacheSnoc(ts: seq<Trace>, t: Trace, minDuration: real, maxDuration: real, minTime: real, maxTime: real,
                         hasSpans: bool)
    requires RunningCache(ts, minDuration, maxDuration, minTime, maxTime, hasSpans)
    ensures |t.spans| > 0 ==>
      RunningCache(ts + [t], Min(minDuration, t.minDuration), Max(maxDuration, t.maxDuration),
                   Min(minTime, t.minStartTime), Max(maxTime, t.maxStartTime), true)
    ensures |t.spans| == 0 ==> RunningCache(ts + [t], minDuration, maxDuration, minTime, maxTime, hasSpans)
  {
    assert (ts + [t])[..|ts|] == ts;
    HasSpansSnoc(ts + [t]);
  }

  /** After the loop the running values are the cached bounds, or the 0..1000 fallback. */
  lemma RunningCacheComplete(ts: seq<Trace>, minDuration: real, maxDuration: real, minTime: real, maxTime: real,
                             hasSpans: bool)
    requires RunningCache(ts, minDuration, maxDuration, minTime, maxTime, hasSpans)
    ensures hasSpans == HasSpans(ts)
    ensures CachedBounds(ts) ==
      if hasSpans then Bounds(minDuration, maxDuration, minTime, maxTime) else Bounds(0.0, 1000.0, 0.0, 1000.0)
  {
  }

  /**
   * initializeSliderBounds: the duration slider spans [min, max * buffer],
   * the time slider [min, max], and each filter is set to its slider's ends.
   */
  function SliderBounds(c: ViewerConfig, b: Bounds): (r: ViewerConfig)
    ensures r.minDurationFilter == r.sliderMinBound == b.minDuration
    ensures r.maxDurationFilter == r.sliderMaxBound == b.maxDuration * c.durationBufferPercentage
    ensures r.minTimeFilter == r.timeSliderMinBound == b.minTime
    ensures r.maxTimeFilter == r.timeSliderMaxBound == b.maxTime
    ensures r.serviceFilter == c.serviceFilter && r.operationFilter == c.operationFilter
    ensures b.minDuration <= b.maxDuration * c.durationBufferPercentage && b.minTime <= b.maxTime ==> FiltersOrdered(r)
  {
    var maxBound := b.maxDuration * c.durationBufferPercentage;
    c.(sliderMinBound := b.minDuration, sliderMaxBound := maxBound,
       minDurationFilter := b.minDuration, maxDurationFilter := maxBound,
       timeSliderMinBound := b.minTime, timeSliderMaxBound := b.maxTime,
       minTimeFilter := b.minTime, maxTimeFilter := b.maxTime)
  }

  /**
   * Right after the cache is filled, every span of every loaded trace lies
   * inside the duration and start-time filters (the buffer factor is at
   * least 1), so only the text filters can hide it.
   */
  lemma {:induction false} CachedFiltersAdmitLoadedSpans(ts: seq<Trace>, c: ViewerConfig)
    requires forall i :: 0 <= i < |ts| ==> Consistent(ts[i])
    requires c.durationBufferPercentage >= 1.0
    ensures var r := SliderBounds(c, CachedBounds(ts));
      forall i, k :: 0 <= i < |ts| && 0 <= k < |ts[i].spans| ==>
        && DurationInRange(r, ts[i].spans[k]) && StartInRange(r, ts[i].spans[k])
        && (PassesFilters(r, ts[i].spans[k]) <==> ServiceMatches(r, ts[i].spans[k]) && OperationMatches(r, ts[i].spans[k]))
  {
    var b := CachedBounds(ts);
    forall i, k | 0 <= i < |ts| && 0 <= k < |ts[i].spans|
      ensures DurationInRange(SliderBounds(c, b), ts[i].spans[k]) && StartInRange(SliderBounds(c, b), ts[i].spans[k])
    {
      assert HasSpans(ts);
      SpanAdmitted(ts[i], ts[i].spans[k], b, c);
    }
  }

  /** One span of a consistent trace whose ranges lie inside the bounds passes the numeric filters. */
  lemma SpanAdmitted(t: Trace, s: Span, b: Bounds, c: ViewerConfig)
    requires Consistent(t) && s in t.spans
    requires b.minDuration <= t.minDuration && t.maxDuration <= b.maxDuration
    requires b.minTime <= t.minStartTime && t.maxStartTime <= b.maxTime
    requires c.durationBufferPercentage >= 1.0
    ensures DurationInRange(SliderBounds(c, b), s) && StartInRange(SliderBounds(c, b), s)
  {
    var k :| 0 <= k < |t.spans| && t.spans[k] == s;
    assert SpanWithinTrace(t, t.spans[k]);
    assert b.minDuration <= s.duration <= b.maxDuration;
    assert b.minTime <= s.startTime <= b.maxTime;
    MulMonotone(1.0, c.durationBufferPercentage, b.maxDuration);
    assert b.maxDuration <= b.maxDuration * c.durationBufferPercentage;
    var r := SliderBounds(c, b);
    assert r.minDurationFilter == b.minDuration && r.maxDurationFilter == b.maxDuration * c.durationBufferPercentage;
    assert r.minTimeFilter == b.minTime && r.maxTimeFilter == b.maxTime;
  }

  /** The duration sliders' fix-up: a minimum above the maximum raises the maximum to it. */
  function FixDurationFilters(c: ViewerConfig, lo: real, hi: real): (r: ViewerConfig)
    ensures r.minDurationFilter == lo && r.maxDurationFilter == Max(lo, hi)
    ensures r.minDurationFilter <= r.maxDurationFilter
    ensures r.(maxDurationFilter := c.maxDurationFilter, minDurationFilter := c.minDurationFilter) == c
  {
    var written := c.(minDurationFilter := lo, maxDurationFilter := hi);
    if written.minDurationFilter > written.maxDurationFilter then written.(maxDurationFilter := written.minDurationFilter) else written
  }

  /** The start-time sliders' fix-up, the same rule. */
  function FixTimeFilters(c: ViewerConfig, lo: real, hi: real): (r: ViewerConfig)
    ensures r.minTimeFilter == lo && r.maxTimeFilter == Max(lo, hi)
    ensures r.minTimeFilter <= r.maxTimeFilter
    ensures r.(maxTimeFilter := c.maxTimeFilter, minTimeFilter := c.minTimeFilter) == c
  {
    var written := c.(minTimeFilter := lo, maxTimeFilter := hi);
    if written.minTimeFilter > written.maxTimeFilter then written.(maxTimeFilter := written.minTimeFilter) else written
  }

  /** A fix-up leaves an already ordered pair as it was. */
  lemma FixUpsKeepOrderedPairs(c: ViewerConfig, lo: real, hi: real)
    requires lo <= hi
    ensures FixDurationFilters(c, lo, hi) == c.(minDurationFilter := lo, maxDurationFilter := hi)
    ensures FixTimeFilters(c, lo, hi) == c.(minTimeFilter := lo, maxTimeFilter := hi)
  {
  }
}
