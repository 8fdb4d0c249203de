/**
 * The analytic service's threshold detection: it runs the threshold
 * scan over the first series a metric query returns and turns every run
 * into a Detection segment. A run still open after the last sample is
 * closed at the query's END argument `to`, not at the last sample.
 *
 * The metric query is an input (its error, if any, is passed on
 * unchanged) and segment ids come from an injected generator `newId`:
 * the k-th segment emitted gets `newId(k)`.
 */
module AnalyticService {
  import opened Common
  import opened Crossing

  datatype SegmentType = Detection | Pattern | Anomaly | Labeled

  datatype Segment = Segment(id: Option<string>, from: nat, to: nat, segmentType: SegmentType)

  /** The (from, to) pairs the service reports: closed runs, then a trailing open run closed at `to`. */
  function ServicePairs(s: seq<Sample>, th: real, to: nat): seq<(nat, nat)>
  {
    var st := RunsUpTo(s, th, |s|);
    Stamps(s, st.closed) + (if st.open.Some? then [(s[st.open.value].0, to)] else [])
  }

  /** Turns pairs into Detection segments, the k-th with id `newId(k)`. */
  function ToSegments(ps: seq<(nat, nat)>, newId: nat -> string): (r: seq<Segment>)
    ensures |r| == |ps|
    ensures forall k :: 0 <= k < |r| ==>
      r[k].from == ps[k].0 && r[k].to == ps[k].1 && r[k].id == Some(newId(k)) && r[k].segmentType == Detection
  {
    seq(|ps|, k requires 0 <= k < |ps| => Segment(Some(newId(k)), ps[k].0, ps[k].1, Detection))
  }

  /** The segment for the k-th closed index pair of s. */
  function SegmentOf(s: seq<Sample>, p: (nat, nat), k: nat, newId: nat -> string): Segment
    requires p.0 < |s| && p.1 < |s|
  {
    Segment(Some(newId(k)), s[p.0].0, s[p.1].0, Detection)
  }

  /** The segments built from a bounded scan state: its closed runs, then an open run closed at `to`. */
  lemma StateSegments(s: seq<Sample>, st: RunState, to: nat, newId: nat -> string, result: seq<Segment>, from: Option<nat>)
    requires Bounded(st, |s|)
    requires from == OpenStamp(s, st.open)
    requires |result| == |st.closed| + (if from.Some? then 1 else 0)
    requires forall k :: 0 <= k < |st.closed| ==> result[k] == SegmentOf(s, st.closed[k], k, newId)
    requires from.Some? ==> result[|st.closed|] == Segment(Some(newId(|st.closed|)), from.value, to, Detection)
    ensures result == ToSegments(Stamps(s, st.closed) + (if st.open.Some? then [(s[st.open.value].0, to)] else []), newId)
  {
    var closedPs := Stamps(s, st.closed);
    var tail := if st.open.Some? then [(s[st.open.value].0, to)] else [];
    var ps := closedPs + tail;
    var r := ToSegments(ps, newId);
    forall k | 0 <= k < |r| ensures r[k] == result[k] {
      if k < |st.closed| {
        assert ps[k] == closedPs[k];
      } else {
        assert ps[k] == tail[0];
      }
    }
  }

  /** After the loop, the closed segments plus the trailing one are the service's segments. */
  lemma FinalSegments(s: seq<Sample>, th: real, to: nat, newId: nat -> string, result: seq<Segment>, from: Option<nat>)
    requires var st := RunsUpTo(s, th, |s|);
      from == OpenStamp(s, st.open) &&
      |result| == |st.closed| + (if from.Some? then 1 else 0) &&
      (forall k :: 0 <= k < |st.closed| ==> result[k] == SegmentOf(s, st.closed[k], k, newId)) &&
      (from.Some? ==> result[|st.closed|] == Segment(Some(newId(|st.closed|)), from.value, to, Detection))
    ensures result == ToSegments(ServicePairs(s, th, to), newId)
  {
    StateSegments(s, RunsUpTo(s, th, |s|), to, newId, result, from);
  }

  /** What `get_threshold_detections` returns for a query outcome. */
  function ThresholdDetections<E>(query: Result<MetricResult, E>, to: nat, threshold: real, newId: nat -> string)
    : Result<seq<Segment>, E>
  {
    match query
    case Failure(e) => Failure(e)
    case Success(mr) =>
      match FirstSeries(mr)
      case None => Success([])
      case Some(ts) => Success(ToSegments(ServicePairs(ts, threshold, to), newId))
  }

  method GetThresholdDetections<E>(query: Result<MetricResult, E>, to: nat, threshold: real, newId: nat -> string)
    returns (r: Result<seq<Segment>, E>)
    ensures r == ThresholdDetections(query, to, threshold, newId)
  {
    if query.Failure? {
      return Failure(query.error);
    }
    var mr := query.value;
    if |mr.data| == 0 {
      return Success([]);
    }
    var ts := mr.data[0].1;

    var result: seq<Segment> := [];
    var from: Option<nat> := None;
    var i := 0;
    while i < |ts|
      invariant 0 <= i <= |ts|
      invariant |result| == |RunsUpTo(ts, threshold, i).closed|
      invariant forall k :: 0 <= k < |result| ==> result[k] == SegmentOf(ts, RunsUpTo(ts, threshold, i).closed[k], k, newId)
      invariant from == OpenStamp(ts, RunsUpTo(ts, threshold, i).open)
    {
      var (t, v) := ts[i];
      ghost var st := RunsUpTo(ts, threshold, i);
      if v > threshold {
        if from.None? {
          from := Some(t);
        }
      } else if from.Some? {
        result := result + [Segment(Some(newId(|result|)), from.value, t, Detection)];
        from := None;
      }
      i := i + 1;
    }

    if from.Some? {
      result := result + [Segment(Some(newId(|result|)), from.value, to, Detection)];
    }
    FinalSegments(ts, threshold, to, newId, result, from);
    return Success(result);
  }

  /** A failed query is reported unchanged. */
  lemma QueryErrorPropagates<E>(e: E, to: nat, threshold: real, newId: nat -> string)
    ensures ThresholdDetections(Failure(e), to, threshold, newId) == Failure(e)
  {
  }

  /** A query result without any series gives no segments. */
  lemma NoSeriesNoSegments<E>(mr: MetricResult, to: nat, threshold: real, newId: nat -> string)
    requires |mr.data| == 0
    ensures ThresholdDetections<E>(Success(mr), to, threshold, newId) == Success([])
  {
  }

  /** A series that never exceeds the threshold (equality does not count) gives no segments. */
  lemma AllBelowNoSegments(s: seq<Sample>, th: real, to: nat)
    requires forall i :: 0 <= i < |s| ==> s[i].1 <= th
    ensures ServicePairs(s, th, to) == []
  {
    NoRunsWhenAllBelow(s, th, |s|);
  }

  /** One segment per maximal run of samples above the threshold. */
  lemma ServicePairsCount(s: seq<Sample>, th: real, to: nat)
    ensures |ServicePairs(s, th, to)| == RunCount(s, th, |s|)
  {
    RunsUpToSound(s, th, |s|);
  }

  /** Pair k of r is a run of s still open at the last sample, closed at `to`. */
  ghost predicate TrailingPair(s: seq<Sample>, th: real, to: nat, r: seq<(nat, nat)>, k: int)
  {
    0 <= k < |r| && r[k].1 == to && exists i :: OpenRun(s, th, i, |s|) && r[k].0 == s[i].0
  }

  /**
   * Every segment emitted inside the loop is a closed run: it starts at a
   * sample that begins a run and ends at the first later sample not above
   * the threshold. If the last sample is above the threshold there is
   * exactly one more segment, last, from that run's start to `to`;
   * otherwise every segment is a closed run.
   */
  lemma ServicePairsAreRuns(s: seq<Sample>, th: real, to: nat)
    ensures var r := ServicePairs(s, th, to);
      var trailing := |s| > 0 && Above(s, th, |s| - 1);
      (trailing ==> |r| > 0 && TrailingPair(s, th, to, r, |r| - 1)) &&
      (forall k :: 0 <= k < |r| - (if trailing then 1 else 0) ==> ClosedPair(s, th, r, k))
  {
    var st := RunsUpTo(s, th, |s|);
    RunsUpToSound(s, th, |s|);
    var r := ServicePairs(s, th, to);
    var trailing := |s| > 0 && Above(s, th, |s| - 1);
    assert st.open.Some? <==> trailing;
    assert |r| == |st.closed| + (if trailing then 1 else 0);
    if trailing {
      assert OpenRun(s, th, st.open.value, |s|);
      assert TrailingPair(s, th, to, r, |r| - 1);
    }
    forall k | 0 <= k < |st.closed| ensures ClosedPair(s, th, r, k) {
      assert ClosedRun(s, th, st.closed[k].0, st.closed[k].1);
      assert r[k] == (s[st.closed[k].0].0, s[st.closed[k].1].0);
    }
  }

  /**
   * With strictly increasing timestamps, every closed segment has
   * from < to and each segment ends before any later one starts.
   */
  lemma ServicePairsOrdered(s: seq<Sample>, th: real, to: nat)
    requires StrictlyIncreasing(s)
    ensures var r := ServicePairs(s, th, to);
      var closed := |RunsUpTo(s, th, |s|).closed|;
      (forall k :: 0 <= k < closed ==> r[k].0 < r[k].1) &&
      (forall j, k :: 0 <= j < k < |r| ==> r[j].1 < r[k].0)
  {
    var st := RunsUpTo(s, th, |s|);
    RunsUpToSound(s, th, |s|);
    var r := ServicePairs(s, th, to);
    forall k | 0 <= k < |st.closed| ensures r[k].0 < r[k].1 {
      assert ClosedRun(s, th, st.closed[k].0, st.closed[k].1);
    }
    forall j, k | 0 <= j < k < |r| ensures r[j].1 < r[k].0 {
      assert r[j] == (s[st.closed[j].0].0, s[st.closed[j].1].0);
      if k < |st.closed| {
        assert st.closed[j].1 < st.closed[k].0;
      } else {
        assert st.closed[j].1 < st.open.value;
      }
    }
  }

  /**
   * With strictly increasing timestamps and no sample after the query's
   * end `to`, every segment, the trailing one included, has from <= to.
   */
  lemma ServicePairsWithinQuery(s: seq<Sample>, th: real, to: nat)
    requires StrictlyIncreasing(s)
    requires forall i :: 0 <= i < |s| ==> s[i].0 <= to
    ensures var r := ServicePairs(s, th, to);
      forall k :: 0 <= k < |r| ==> r[k].0 <= r[k].1
  {
    var st := RunsUpTo(s, th, |s|);
    RunsUpToSound(s, th, |s|);
    ServicePairsOrdered(s, th, to);
    var r := ServicePairs(s, th, to);
    forall k | 0 <= k < |r| ensures r[k].0 <= r[k].1 {
      if k >= |st.closed| {
        assert r[k] == (s[st.open.value].0, to);
      }
    }
  }

  /** A sample after the query's end that starts a trailing run gives a segment with from > to. */
  lemma TrailingSegmentAfterQueryEnd()
    ensures ServicePairs([(100, 1.0)], 0.5, 50) == [(100, 50)]
  {
    var s: seq<Sample> := [(100, 1.0)];
    assert RunsUpTo(s, 0.5, 1) == RunState([], Some(0));
  }

  /** The example series 0.1, 0.9, 0.95, 0.2 at times 0, 10, 20, 30 and threshold 0.5 gives one Detection segment (10, 30). */
  lemma ExampleClosedRun(to: nat, newId: nat -> string)
    ensures ThresholdDetections<string>(Success(MetricResult([("m", [(0, 0.1), (10, 0.9), (20, 0.95), (30, 0.2)])])), to, 0.5, newId)
      == Success([Segment(Some(newId(0)), 10, 30, Detection)])
  {
    var s: seq<Sample> := [(0, 0.1), (10, 0.9), (20, 0.95), (30, 0.2)];
    assert FirstSeries(MetricResult([("m", s)])) == Some(s);
    assert RunsUpTo(s, 0.5, 4) == RunState([(1, 3)], None);
    assert ServicePairs(s, 0.5, to) == [(10, 30)];
    var segs := ToSegments([(10, 30)], newId);
    assert |segs| == 1 && segs[0] == Segment(Some(newId(0)), 10, 30, Detection);
    assert segs == [Segment(Some(newId(0)), 10, 30, Detection)];
  }

  /** Ending above the threshold: the segment runs from 10 to the query's end. */
  lemma ExampleOpenRun(to: nat, newId: nat -> string)
    ensures ThresholdDetections<string>(Success(MetricResult([("m", [(0, 0.1), (10, 0.9), (20, 0.95)])])), to, 0.5, newId)
      == Success([Segment(Some(newId(0)), 10, to, Detection)])
  {
    var s: seq<Sample> := [(0, 0.1), (10, 0.9), (20, 0.95)];
    assert FirstSeries(MetricResult([("m", s)])) == Some(s);
    assert RunsUpTo(s, 0.5, 3) == RunState([], Some(1));
    assert ServicePairs(s, 0.5, to) == [(10, to)];
    var segs := ToSegments([(10, to)], newId);
    assert |segs| == 1 && segs[0] == Segment(Some(newId(0)), 10, to, Detection);
    assert segs == [Segment(Some(newId(0)), 10, to, Detection)];
  }
}
