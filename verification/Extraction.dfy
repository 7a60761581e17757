/**
  Running the extractors, in sequence or in a pool whose results come back in any
  order (src/zataone/core/pipeline_run.py, lines 25-86).
 */
module Extraction {
  import opened Options
  import opened Signals
  import opened Sequences

  // What running one extractor gives: its signals, or none and the error's text.
  datatype Run = Run(id: string, signals: seq<Signal>, error: Option<string>)

  datatype Results = Results(signals: seq<Signal>, counts: map<string, nat>, failed: map<string, string>)

  function Merge(r: Results, run: Run): Results {
    Results(r.signals + run.signals,
            r.counts[run.id := |run.signals|],
            if run.error.Some? then r.failed[run.id := run.error.value] else r.failed)
  }

  // The results merged in the order in which the runs complete.
  function MergeAll(order: seq<Run>): Results {
    if order == [] then Results([], map[], map[]) else Merge(MergeAll(order[..|order| - 1]), order[|order| - 1])
  }

  // extract_signals_parallel. With a pool, any pending run may be the next to complete.
  method ExtractSignals(runs: seq<Run>, parallel: bool) returns (r: Results, ghost order: seq<Run>)
    ensures r == MergeAll(order) && multiset(order) == multiset(runs)
    ensures !parallel || |runs| <= 1 ==> r == MergeAll(runs)
  {
    r, order := Results([], map[], map[]), [];
    if parallel && |runs| > 1 {
      var pending := multiset(runs);
      while |pending| > 0
        invariant r == MergeAll(order) && multiset(order) + pending == multiset(runs)
        decreases |pending|
      {
        var run :| run in pending;
        r := Merge(r, run);
        assert (order + [run])[..|order|] == order;
        order := order + [run];
        pending := pending - multiset{run};
      }
    } else {
      for k := 0 to |runs|
        invariant order == runs[..k] && r == MergeAll(order)
      {
        r := Merge(r, runs[k]);
        order := order + [runs[k]];
        assert runs[..k + 1][..k] == runs[..k];
        assert order == runs[..k + 1];
      }
      assert runs[..|runs|] == runs;
    }
  }

  /******* What is merged *******/

  // Each table entry comes from some run with that id.
  lemma {:induction false} CountsFromRuns(order: seq<Run>)
    ensures var counts := MergeAll(order).counts;
            && (forall run :: run in order ==> run.id in counts)
            && (forall id :: id in counts ==>
                  exists run :: run in order && run.id == id && counts[id] == |run.signals|)
  {
    if order != [] {
      var n := |order| - 1;
      CountsFromRuns(order[..n]);
      assert order == order[..n] + [order[n]];
    }
  }

  predicate FailedWith(run: Run, id: string, text: string) {
    run.id == id && run.error == Some(text)
  }

  ghost predicate SomeFailure(order: seq<Run>, id: string, text: string) {
    exists run :: run in order && FailedWith(run, id, text)
  }

  lemma {:induction false} FailuresFromRuns(order: seq<Run>)
    ensures forall run :: run in order && run.error.Some? ==> run.id in MergeAll(order).failed
    ensures forall id :: id in MergeAll(order).failed ==> SomeFailure(order, id, MergeAll(order).failed[id])
  {
    if order != [] {
      var n := |order| - 1;
      var before := MergeAll(order[..n]).failed;
      FailuresFromRuns(order[..n]);
      assert order == order[..n] + [order[n]];
      var failed := MergeAll(order).failed;
      forall id | id in failed ensures SomeFailure(order, id, failed[id]) {
        if FailedWith(order[n], id, failed[id]) {
          assert order[n] in order;
        } else {
          assert id in before && failed[id] == before[id];
          assert SomeFailure(order[..n], id, before[id]);
          var run :| run in order[..n] && FailedWith(run, id, before[id]);
          assert run in order;
        }
      }
    }
  }

  function SignalsOf(): Run -> seq<Signal> {
    (run: Run) => run.signals
  }

  lemma {:induction false} MergedSignals(order: seq<Run>)
    ensures MergeAll(order).signals == FlatMap(order, SignalsOf())
  {
    if order != [] { MergedSignals(order[..|order| - 1]); }
  }

  // Runs that share an id report as many signals, and the same error when both fail.
  ghost predicate AgreeById(runs: seq<Run>) {
    forall a, b :: a in runs && b in runs && a.id == b.id ==>
      |a.signals| == |b.signals| && (a.error.Some? && b.error.Some? ==> a.error == b.error)
  }

  ghost predicate SameResults(r: Results, s: Results) {
    r.counts == s.counts && r.failed == s.failed && multiset(r.signals) == multiset(s.signals)
  }

  lemma SameMembers(s: seq<Run>, t: seq<Run>)
    requires multiset(s) == multiset(t)
    ensures forall x :: x in s <==> x in t
  {
    forall x ensures x in s <==> x in t {
      assert x in s <==> x in multiset(s);
      assert x in t <==> x in multiset(t);
    }
  }

  lemma AgreeingCounts(runs: seq<Run>, order: seq<Run>)
    requires AgreeById(runs) && forall x :: x in order <==> x in runs
    ensures MergeAll(order).counts == MergeAll(runs).counts
  {
    CountsFromRuns(order);
    CountsFromRuns(runs);
    var r, s := MergeAll(order).counts, MergeAll(runs).counts;
    forall id ensures id in r <==> id in s {
      if id in r { var x :| x in order && x.id == id && r[id] == |x.signals|; }
      if id in s { var x :| x in runs && x.id == id && s[id] == |x.signals|; }
    }
    forall id | id in r ensures r[id] == s[id] {
      var x :| x in order && x.id == id && r[id] == |x.signals|;
      var y :| y in runs && y.id == id && s[id] == |y.signals|;
    }
  }

  lemma AgreeingFailures(runs: seq<Run>, order: seq<Run>)
    requires AgreeById(runs) && forall x :: x in order <==> x in runs
    ensures MergeAll(order).failed == MergeAll(runs).failed
  {
    FailuresFromRuns(order);
    FailuresFromRuns(runs);
    var r, s := MergeAll(order).failed, MergeAll(runs).failed;
    forall id ensures id in r <==> id in s {
      if id in r {
        assert SomeFailure(order, id, r[id]);
        var x :| x in order && FailedWith(x, id, r[id]);
        assert x in runs;
      }
      if id in s {
        assert SomeFailure(runs, id, s[id]);
        var x :| x in runs && FailedWith(x, id, s[id]);
        assert x in order;
      }
    }
    forall id | id in r ensures r[id] == s[id] {
      assert SomeFailure(order, id, r[id]) && SomeFailure(runs, id, s[id]);
      var x :| x in order && FailedWith(x, id, r[id]);
      var y :| y in runs && FailedWith(y, id, s[id]);
      assert x in runs;
    }
  }

  lemma AgreeingRunsOrderFree(runs: seq<Run>, order: seq<Run>)
    requires AgreeById(runs) && multiset(order) == multiset(runs)
    ensures SameResults(MergeAll(order), MergeAll(runs))
  {
    SameMembers(order, runs);
    AgreeingCounts(runs, order);
    AgreeingFailures(runs, order);
    MergedSignals(order);
    MergedSignals(runs);
    FlatMapPermutes(order, runs, SignalsOf());
  }

  // A schedule in which a given run completes last.
  lemma CompleteLast(runs: seq<Run>, a: Run) returns (order: seq<Run>)
    requires a in runs
    ensures multiset(order) == multiset(runs)
    ensures a.id in MergeAll(order).counts && MergeAll(order).counts[a.id] == |a.signals|
    ensures a.error.Some? ==> a.id in MergeAll(order).failed && MergeAll(order).failed[a.id] == a.error.value
  {
    var k :| 0 <= k < |runs| && runs[k] == a;
    order := runs[..k] + runs[k + 1..] + [a];
    RemoveFromMultiset(runs, k);
    assert order[..|order| - 1] == runs[..k] + runs[k + 1..];
  }

  ghost predicate ScheduleFree(runs: seq<Run>) {
    forall order: seq<Run> :: multiset(order) == multiset(runs) ==> SameResults(MergeAll(order), MergeAll(runs))
  }

  // Main theorem: the results do not depend on the completion order exactly when runs
  // with a common id agree.
  lemma ScheduleFreeIffAgree(runs: seq<Run>)
    ensures ScheduleFree(runs) <==> AgreeById(runs)
  {
    if AgreeById(runs) {
      forall order: seq<Run> | multiset(order) == multiset(runs)
        ensures SameResults(MergeAll(order), MergeAll(runs))
      {
        AgreeingRunsOrderFree(runs, order);
      }
    }
    if ScheduleFree(runs) {
      forall a, b | a in runs && b in runs && a.id == b.id
        ensures |a.signals| == |b.signals| && (a.error.Some? && b.error.Some? ==> a.error == b.error)
      {
        var x := CompleteLast(runs, a);
        var y := CompleteLast(runs, b);
        assert SameResults(MergeAll(x), MergeAll(runs)) && SameResults(MergeAll(y), MergeAll(runs));
      }
    }
  }

  // The registry keys extractors by id, so every id runs once and nothing depends on the schedule.
  lemma DistinctIdsAgree(runs: seq<Run>)
    requires forall i, j :: 0 <= i < j < |runs| ==> runs[i].id != runs[j].id
    ensures AgreeById(runs) && ScheduleFree(runs)
  {
    ScheduleFreeIffAgree(runs);
  }
}
