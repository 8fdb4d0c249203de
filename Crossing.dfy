/**
 * The threshold-crossing scan that both threshold detectors run: one
 * forward pass over (timestamp, value) samples that opens a run at the
 * first sample whose value exceeds the threshold and closes it at the
 * first later sample whose value does not.
 *
 * The scan is specified on sample INDICES: a closed run is the index pair
 * (start, end) and a run still open carries only its start. The two
 * detectors differ only in how they turn indices into timestamps and in
 * where they close a run that is still open after the last sample, so
 * those end-of-series policies live in their own modules.
 */
module Crossing {
  import opened Common

  /** A sample of a time series: (timestamp in seconds, value). */
  type Sample = (nat, real)

  /** The result of a metric query: labelled series, in the map's iteration order. */
  datatype MetricResult = MetricResult(data: seq<(string, seq<Sample>)>)

  /** The series a detector works on: the first one of the result, if there is any. */
  function FirstSeries(mr: MetricResult): (r: Option<seq<Sample>>)
    ensures r.None? <==> |mr.data| == 0
    ensures r.Some? ==> r.value == mr.data[0].1
  {
    if |mr.data| == 0 then None else Some(mr.data[0].1)
  }

  /** Sample i exceeds the threshold; a value equal to it does not. */
  predicate Above(s: seq<Sample>, th: real, i: int)
    requires 0 <= i < |s|
  {
    s[i].1 > th
  }

  /** Sample i exceeds the threshold and its predecessor, if any, does not. */
  predicate RunStart(s: seq<Sample>, th: real, i: int)
    requires 0 <= i < |s|
  {
    Above(s, th, i) && (i == 0 || !Above(s, th, i - 1))
  }

  /** Samples i .. j-1 all exceed the threshold, i starts a run and j is the first sample after it that does not. */
  ghost predicate ClosedRun(s: seq<Sample>, th: real, i: int, j: int)
  {
    0 <= i < j < |s| && RunStart(s, th, i) && !Above(s, th, j) &&
    forall m :: i <= m < j ==> Above(s, th, m)
  }

  /** i starts a run that is still going on at sample n-1. */
  ghost predicate OpenRun(s: seq<Sample>, th: real, i: int, n: int)
  {
    0 <= i < n <= |s| && RunStart(s, th, i) &&
    forall m :: i <= m < n ==> Above(s, th, m)
  }

  /** Pair k of r is the timestamps of a closed run of s. */
  ghost predicate ClosedPair(s: seq<Sample>, th: real, r: seq<(nat, nat)>, k: int)
  {
    0 <= k < |r| && exists i, j :: ClosedRun(s, th, i, j) && r[k] == (s[i].0, s[j].0)
  }

  /** Timestamps strictly increase along the series. */
  ghost predicate StrictlyIncreasing(s: seq<Sample>)
  {
    forall i, j :: 0 <= i < j < |s| ==> s[i].0 < s[j].0
  }

  /** The number of runs (maximal stretches of samples above the threshold) that start before index n. */
  function RunCount(s: seq<Sample>, th: real, n: nat): nat
    requires n <= |s|
  {
    if n == 0 then 0 else RunCount(s, th, n - 1) + (if RunStart(s, th, n - 1) then 1 else 0)
  }

  /** The scan's state: the runs closed so far and the start of the open one. */
  datatype RunState = RunState(closed: seq<(nat, nat)>, open: Option<nat>)

  /** Every index the state mentions is below n. */
  ghost predicate Bounded(st: RunState, n: nat)
  {
    (forall k :: 0 <= k < |st.closed| ==> st.closed[k].0 < n && st.closed[k].1 < n) &&
    (st.open.Some? ==> st.open.value < n)
  }

  /** What the loop body does with sample i. */
  function Step(s: seq<Sample>, th: real, st: RunState, i: nat): (r: RunState)
    requires i < |s|
    ensures r.open.Some? <==> Above(s, th, i)
    ensures r.open.Some? && st.open.Some? ==> r.open == st.open
    ensures r.closed == st.closed || (st.open.Some? && r.closed == st.closed + [(st.open.value, i)])
  {
    if s[i].1 > th then
      if st.open.Some? then st else RunState(st.closed, Some(i))
    else if st.open.Some? then RunState(st.closed + [(st.open.value, i)], None)
    else st
  }

  /** The scan's state after the first n samples. */
  function RunsUpTo(s: seq<Sample>, th: real, n: nat): (r: RunState)
    requires n <= |s|
    ensures Bounded(r, n)
  {
    if n == 0 then RunState([], None) else Step(s, th, RunsUpTo(s, th, n - 1), n - 1)
  }

  /** Pairs are ordered: none ends before it starts, and each ends before any later one starts. */
  ghost predicate Ordered(ps: seq<(nat, nat)>)
  {
    (forall k :: 0 <= k < |ps| ==> ps[k].0 <= ps[k].1) &&
    (forall j, k :: 0 <= j < k < |ps| ==> ps[j].1 < ps[k].0)
  }

  /** Every closed pair is a closed run that ends before n, and the pairs are ordered. */
  ghost predicate ClosedSound(s: seq<Sample>, th: real, n: nat, st: RunState)
  {
    (forall k :: 0 <= k < |st.closed| ==> ClosedRun(s, th, st.closed[k].0, st.closed[k].1) && st.closed[k].1 < n) &&
    Ordered(st.closed)
  }

  /** An open start begins a run reaching sample n-1 that starts after every closed run; with none open, sample n-1 is not above. */
  ghost predicate OpenSound(s: seq<Sample>, th: real, n: nat, st: RunState)
    requires n <= |s|
  {
    (st.open.Some? ==> OpenRun(s, th, st.open.value, n)) &&
    (st.open.Some? ==> forall k :: 0 <= k < |st.closed| ==> st.closed[k].1 < st.open.value) &&
    (st.open.None? ==> n == 0 || !Above(s, th, n - 1))
  }

  /** Every run start before n is recorded, as the open start or as the start of a closed pair. */
  ghost predicate Complete(s: seq<Sample>, th: real, n: nat, st: RunState)
    requires n <= |s|
  {
    forall i :: 0 <= i < n && RunStart(s, th, i) ==>
      st.open == Some(i) || exists k :: 0 <= k < |st.closed| && st.closed[k].0 == i
  }

  /** Closed plus open runs are exactly the runs that start before n. */
  ghost predicate Counted(s: seq<Sample>, th: real, n: nat, st: RunState)
    requires n <= |s|
  {
    |st.closed| + (if st.open.Some? then 1 else 0) == RunCount(s, th, n)
  }

  /** What the scan state after n samples means. */
  ghost predicate Sound(s: seq<Sample>, th: real, n: nat, st: RunState)
    requires n <= |s|
  {
    ClosedSound(s, th, n, st) && OpenSound(s, th, n, st) && Complete(s, th, n, st) && Counted(s, th, n, st)
  }

  /** Closing the open run at sample i keeps the closed pairs sound. */
  lemma CloseKeepsClosedSound(s: seq<Sample>, th: real, i: nat, prev: RunState)
    requires i < |s| && !Above(s, th, i) && prev.open.Some?
    requires ClosedSound(s, th, i, prev) && OpenSound(s, th, i, prev)
    ensures ClosedSound(s, th, i + 1, Step(s, th, prev, i))
  {
    var st := Step(s, th, prev, i);
    var o := prev.open.value;
    assert st.closed == prev.closed + [(o, i)];
    assert ClosedRun(s, th, o, i);
  }

  /** Closing the open run at sample i keeps every run start recorded. */
  lemma CloseKeepsComplete(s: seq<Sample>, th: real, i: nat, prev: RunState)
    requires i < |s| && !Above(s, th, i) && prev.open.Some?
    requires Complete(s, th, i, prev)
    ensures Complete(s, th, i + 1, Step(s, th, prev, i))
  {
    var st := Step(s, th, prev, i);
    var o := prev.open.value;
    assert st.closed == prev.closed + [(o, i)];
    forall j | 0 <= j < i + 1 && RunStart(s, th, j)
      ensures st.open == Some(j) || exists k :: 0 <= k < |st.closed| && st.closed[k].0 == j
    {
      if j == o {
        assert st.closed[|prev.closed|].0 == j;
      } else {
        assert j != i;
        var k :| 0 <= k < |prev.closed| && prev.closed[k].0 == j;
        assert st.closed[k].0 == j;
      }
    }
  }

  /** Sample i closes the open run: the new state is sound. */
  lemma CloseKeepsSound(s: seq<Sample>, th: real, i: nat, prev: RunState)
    requires i < |s| && !Above(s, th, i) && prev.open.Some?
    requires Sound(s, th, i, prev)
    ensures Sound(s, th, i + 1, Step(s, th, prev, i))
  {
    CloseKeepsClosedSound(s, th, i, prev);
    CloseKeepsComplete(s, th, i, prev);
    assert !RunStart(s, th, i);
  }

  /** Sample i opens a run: the new state records it. */
  lemma OpenKeepsSound(s: seq<Sample>, th: real, i: nat, prev: RunState)
    requires i < |s| && Above(s, th, i) && prev.open.None?
    requires Sound(s, th, i, prev) && Bounded(prev, i)
    ensures Sound(s, th, i + 1, Step(s, th, prev, i))
  {
    var st := Step(s, th, prev, i);
    assert st == RunState(prev.closed, Some(i));
    assert RunStart(s, th, i);
    assert OpenRun(s, th, i, i + 1);
  }

  /** Sample i extends the open run or is skipped: the closed pairs and the open start stay. */
  lemma KeepKeepsSound(s: seq<Sample>, th: real, i: nat, prev: RunState)
    requires i < |s| && (Above(s, th, i) <==> prev.open.Some?)
    requires Sound(s, th, i, prev)
    ensures Sound(s, th, i + 1, Step(s, th, prev, i))
  {
    var st := Step(s, th, prev, i);
    assert st == prev;
    if prev.open.Some? {
      assert i > 0 && Above(s, th, i - 1);
      assert !RunStart(s, th, i);
    }
  }

  /** One loop iteration preserves the meaning of the scan state. */
  lemma StepKeepsSound(s: seq<Sample>, th: real, i: nat, prev: RunState)
    requires i < |s| && Sound(s, th, i, prev) && Bounded(prev, i)
    ensures Sound(s, th, i + 1, Step(s, th, prev, i))
  {
    if Above(s, th, i) && prev.open.None? {
      OpenKeepsSound(s, th, i, prev);
    } else if !Above(s, th, i) && prev.open.Some? {
      CloseKeepsSound(s, th, i, prev);
    } else {
      KeepKeepsSound(s, th, i, prev);
    }
  }

  lemma {:induction false} RunsUpToSound(s: seq<Sample>, th: real, n: nat)
    requires n <= |s|
    ensures Sound(s, th, n, RunsUpTo(s, th, n))
  {
    if n > 0 {
      var prev := RunsUpTo(s, th, n - 1);
      assert RunsUpTo(s, th, n) == Step(s, th, prev, n - 1);
      RunsUpToSound(s, th, n - 1);
      StepKeepsSound(s, th, n - 1, prev);
    }
  }

  /** No sample above the threshold: the scan closes and opens nothing. */
  lemma {:induction false} NoRunsWhenAllBelow(s: seq<Sample>, th: real, n: nat)
    requires n <= |s|
    requires forall i :: 0 <= i < n ==> s[i].1 <= th
    ensures RunsUpTo(s, th, n) == RunState([], None)
  {
    if n > 0 {
      NoRunsWhenAllBelow(s, th, n - 1);
    }
  }

  /** The timestamps of a sequence of index pairs. */
  function Stamps(s: seq<Sample>, ps: seq<(nat, nat)>): (r: seq<(nat, nat)>)
    requires forall k :: 0 <= k < |ps| ==> ps[k].0 < |s| && ps[k].1 < |s|
    ensures |r| == |ps|
    ensures forall k :: 0 <= k < |ps| ==> r[k] == (s[ps[k].0].0, s[ps[k].1].0)
  {
    seq(|ps|, k requires 0 <= k < |ps| => (s[ps[k].0].0, s[ps[k].1].0))
  }

  /** Stamping one more index pair appends its timestamps. */
  lemma StampsAppend(s: seq<Sample>, ps: seq<(nat, nat)>, p: (nat, nat))
    requires forall k :: 0 <= k < |ps| ==> ps[k].0 < |s| && ps[k].1 < |s|
    requires p.0 < |s| && p.1 < |s|
    ensures Stamps(s, ps + [p]) == Stamps(s, ps) + [(s[p.0].0, s[p.1].0)]
  {
    var r := Stamps(s, ps + [p]);
    assert forall k :: 0 <= k < |ps| ==> (ps + [p])[k] == ps[k];
    assert r[|ps|] == (s[p.0].0, s[p.1].0);
  }

  /** The timestamp at which an open run started. */
  function OpenStamp(s: seq<Sample>, o: Option<nat>): (r: Option<nat>)
    requires o.Some? ==> o.value < |s|
    ensures r.Some? <==> o.Some?
    ensures r.Some? ==> r.value == s[o.value].0
  {
    if o.Some? then Some(s[o.value].0) else None
  }

  /** With strictly increasing timestamps, ordered index pairs give ordered timestamp pairs. */
  lemma StampsOrdered(s: seq<Sample>, ps: seq<(nat, nat)>)
    requires forall k :: 0 <= k < |ps| ==> ps[k].0 < |s| && ps[k].1 < |s|
    requires StrictlyIncreasing(s) && Ordered(ps)
    ensures Ordered(Stamps(s, ps))
  {
  }
}
