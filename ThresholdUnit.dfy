/**
 * The threshold analytic unit: a stateless strategy whose only state is
 * its threshold configuration. Learning has nothing to train; detection
 * reports the runs of samples above the threshold as timestamp pairs and
 * closes a run still open at the end at the LAST SAMPLE's timestamp.
 */
module ThresholdAnalyticUnit {
  import opened Common
  import opened Crossing
  import opened AnalyticUnitTypes

  /** The index pairs the unit reports: the closed runs, then a trailing open run closed at the last sample. */
  function UnitRuns(s: seq<Sample>, th: real): (r: seq<(nat, nat)>)
    ensures forall k :: 0 <= k < |r| ==> r[k].0 < |s| && r[k].1 < |s|
  {
    var st := RunsUpTo(s, th, |s|);
    st.closed + (if st.open.Some? then [(st.open.value, |s| - 1)] else [])
  }

  /** The pairs the unit reports on a series. */
  function UnitPairs(s: seq<Sample>, th: real): seq<(nat, nat)>
  {
    Stamps(s, UnitRuns(s, th))
  }

  /** What `detect` returns for a query result: nothing when there is no series. */
  function Detections(mr: MetricResult, th: real): seq<(nat, nat)>
  {
    match FirstSeries(mr)
    case None => []
    case Some(ts) => UnitPairs(ts, th)
  }

  class ThresholdAnalyticUnit {
    var config: ThresholdConfig

    constructor (config: ThresholdConfig)
      ensures this.config == config
    {
      this.config := config;
    }

    /** Nothing to train: learning always finishes, and the unit is left as it was. */
    method Learn() returns (r: LearningResult)
      ensures r == Finished
    {
      return Finished;
    }

    /** Scans the first series of the query result; reads the unit and changes nothing. */
    method Detect(mr: MetricResult) returns (result: seq<(nat, nat)>)
      ensures result == Detections(mr, config.threshold)
    {
      if |mr.data| == 0 {
        return [];
      }
      var ts := mr.data[0].1;
      var th := config.threshold;

      result := [];
      var from: Option<nat> := None;
      var i := 0;
      while i < |ts|
        invariant 0 <= i <= |ts|
        invariant result == Stamps(ts, RunsUpTo(ts, th, i).closed)
        invariant from == OpenStamp(ts, RunsUpTo(ts, th, i).open)
      {
        var (t, v) := ts[i];
        ghost var st := RunsUpTo(ts, th, i);
        if v > th {
          if from.None? {
            from := Some(t);
          }
        } else if from.Some? {
          assert RunsUpTo(ts, th, i + 1).closed == st.closed + [(st.open.value, i)];
          StampsAppend(ts, st.closed, (st.open.value, i));
          result := result + [(from.value, t)];
          from := None;
        }
        i := i + 1;
      }

      if from.Some? {
        result := result + [(from.value, ts[|ts| - 1].0)];
      }
    }
  }

  /** No series in the query result: no pairs. */
  lemma NoSeriesNoDetections(mr: MetricResult, th: real)
    requires |mr.data| == 0
    ensures Detections(mr, th) == []
  {
  }

  /** A series that never exceeds the threshold (equality does not count) gives no pairs. */
  lemma AllBelowNoPairs(s: seq<Sample>, th: real)
    requires forall i :: 0 <= i < |s| ==> s[i].1 <= th
    ensures UnitPairs(s, th) == []
  {
    NoRunsWhenAllBelow(s, th, |s|);
  }

  /** One pair per maximal run of samples above the threshold. */
  lemma UnitPairsCount(s: seq<Sample>, th: real)
    ensures |UnitPairs(s, th)| == RunCount(s, th, |s|)
  {
    RunsUpToSound(s, th, |s|);
  }

  /** Pair k of r is a run of s still open at the last sample, closed at the last sample's timestamp. */
  ghost predicate LastSamplePair(s: seq<Sample>, th: real, r: seq<(nat, nat)>, k: int)
  {
    0 <= k < |r| && |s| > 0 && r[k].1 == s[|s| - 1].0 &&
    exists i :: OpenRun(s, th, i, |s|) && r[k].0 == s[i].0
  }

  /**
   * Every pair emitted inside the loop is a closed run: it starts at a
   * sample that begins a run and ends at the first later sample not above
   * the threshold. If the last sample is above the threshold there is
   * exactly one more pair, last, from that run's start to the last
   * sample's timestamp; otherwise every pair is a closed run.
   */
  lemma UnitPairsAreRuns(s: seq<Sample>, th: real)
    ensures var r := UnitPairs(s, th);
      var trailing := |s| > 0 && Above(s, th, |s| - 1);
      (trailing ==> |r| > 0 && LastSamplePair(s, th, r, |r| - 1)) &&
      (forall k :: 0 <= k < |r| - (if trailing then 1 else 0) ==> ClosedPair(s, th, r, k))
  {
    var st := RunsUpTo(s, th, |s|);
    RunsUpToSound(s, th, |s|);
    var ps := UnitRuns(s, th);
    var r := UnitPairs(s, th);
    var trailing := |s| > 0 && Above(s, th, |s| - 1);
    assert st.open.Some? <==> trailing;
    assert |r| == |st.closed| + (if trailing then 1 else 0);
    if trailing {
      assert ps[|r| - 1] == (st.open.value, |s| - 1);
      assert OpenRun(s, th, st.open.value, |s|);
      assert LastSamplePair(s, th, r, |r| - 1);
    }
    forall k | 0 <= k < |st.closed| ensures ClosedPair(s, th, r, k) {
      assert ps[k] == st.closed[k];
      assert ClosedRun(s, th, st.closed[k].0, st.closed[k].1);
      assert r[k] == (s[st.closed[k].0].0, s[st.closed[k].1].0);
    }
  }

  /** With strictly increasing timestamps, pairs are increasing and do not overlap, and only a trailing open pair may be empty. */
  lemma UnitPairsOrdered(s: seq<Sample>, th: real)
    requires StrictlyIncreasing(s)
    ensures var r := UnitPairs(s, th);
      Ordered(r) &&
      forall k :: 0 <= k < |RunsUpTo(s, th, |s|).closed| ==> r[k].0 < r[k].1
  {
    var st := RunsUpTo(s, th, |s|);
    RunsUpToSound(s, th, |s|);
    var ps := UnitRuns(s, th);
    assert Ordered(ps) by {
      forall k | 0 <= k < |ps| ensures ps[k].0 <= ps[k].1 {
        if k < |st.closed| {
          assert ps[k] == st.closed[k];
          assert ClosedRun(s, th, ps[k].0, ps[k].1);
        }
      }
      forall j, k | 0 <= j < k < |ps| ensures ps[j].1 < ps[k].0 {
        assert ps[j] == st.closed[j];
        if k < |st.closed| {
          assert ps[k] == st.closed[k];
        } else {
          assert ps[k].0 == st.open.value;
        }
      }
    }
    StampsOrdered(s, ps);
    forall k | 0 <= k < |st.closed| ensures UnitPairs(s, th)[k].0 < UnitPairs(s, th)[k].1 {
      assert ps[k] == st.closed[k];
      assert ClosedRun(s, th, ps[k].0, ps[k].1);
    }
  }

  /** The example series 0.1, 0.9, 0.95, 0.2 at times 0, 10, 20, 30 and threshold 0.5 gives the single pair (10, 30). */
  lemma ExampleClosedRun()
    ensures UnitPairs([(0, 0.1), (10, 0.9), (20, 0.95), (30, 0.2)], 0.5) == [(10, 30)]
  {
    var s: seq<Sample> := [(0, 0.1), (10, 0.9), (20, 0.95), (30, 0.2)];
    assert RunsUpTo(s, 0.5, 4) == RunState([(1, 3)], None);
  }

  /** Ending above the threshold: the run is closed at the last sample, (10, 20). */
  lemma ExampleOpenRun()
    ensures UnitPairs([(0, 0.1), (10, 0.9), (20, 0.95)], 0.5) == [(10, 20)]
  {
    var s: seq<Sample> := [(0, 0.1), (10, 0.9), (20, 0.95)];
    assert RunsUpTo(s, 0.5, 3) == RunState([], Some(1));
  }
}
