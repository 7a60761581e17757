/**
  Which part of a run depends on the schedule: extraction, shortlist, evaluation in
  fragment mode, scoring, display and routing taken together (core/pipeline_run.py,
  lines 46-86; core/pipeline.py, lines 372-443; policy_engine/engine.py, lines 146-228;
  services/verdict_service.py, lines 167-215).
 */
module Schedule {
  import opened Options
  import opened Text
  import opened Sequences
  import opened StableSort
  import opened Signals
  import opened Dsl
  import opened Violations
  import opened Engine
  import opened Extraction
  import opened Pipeline
  import opened Verdict
  import Bm25
  import DocumentBuilder
  import EngineMeaning
  import Retriever

  // What a run stores, given the order in which the extractors completed and the
  // violations in the order in which the engine produced them.
  function Stored(order: seq<Run>, violations: seq<Violation>, engineOn: bool, review: Option<Review>): State {
    var r := MergeAll(order);
    RunState(RunInput(Full, engineOn, r.failed, |r.signals|, violations, review))
  }

  // The text of the document built in the order of arrival, from which the shortlist is drawn.
  function TextOfOrder(asset: DocumentBuilder.Asset, order: seq<Run>): string {
    DocumentBuilder.BuiltDocument(asset, MergeAll(order).signals).text
  }

  function FragmentInput(order: seq<Run>): Input {
    Input(MergeAll(order).signals, None)
  }

  // Two schedules of the same extractors in fragment mode: any completion orders, any
  // orders of visiting the triggered rules, each with its own shortlist.
  lemma SameShortlistSameOutcome(re: Search, t: Tables, pack: seq<Entry>, active: Option<set<string>>, runs: seq<Run>,
                                 order1: seq<Run>, order2: seq<Run>, vs1: seq<Violation>, vs2: seq<Violation>,
                                 engineOn: bool, review: Option<Review>)
    requires AgreeById(runs) && multiset(order1) == multiset(runs) && multiset(order2) == multiset(runs)
    requires multiset(vs1) == multiset(Expected(re, t, pack, FragmentInput(order1), active))
    requires multiset(vs2) == multiset(Expected(re, t, pack, FragmentInput(order2), active))
    ensures multiset(vs1) == multiset(vs2)
    ensures Stored(order1, vs1, engineOn, review) == Stored(order2, vs2, engineOn, review)
  {
    AgreeingRunsOrderFree(runs, order1);
    AgreeingRunsOrderFree(runs, order2);
    var a, b := MergeAll(order1).signals, MergeAll(order2).signals;
    assert |multiset(a)| == |a| && |multiset(b)| == |b|;
    EngineMeaning.SignalOrderFree(re, t, pack, active, a, b);
    var failed := MergeAll(order1).failed;
    var i := RunInput(Full, engineOn, failed, |a|, vs1, review);
    RunOrderFree(i, i.(violations := vs2));
  }

  // Texts that differ in case only draw the same shortlist.
  lemma ShortlistUpToCase(log: Bm25.Log, p: Option<Retriever.Pack>, text1: string, text2: string, pack: seq<Entry>,
                          s: Retriever.Settings)
    requires Lower(text1) == Lower(text2)
    ensures DrawnFor(log, p, text1, pack, s) == DrawnFor(log, p, text2, pack, s)
  {
    if p.Some? { Bm25.RankingUpToCase(log, Retriever.Documents(p.value), text1, text2); }
  }

  // In fragment mode the outcome does not depend on the schedule when retrieval is off, or
  // when both orders of arrival build the same text up to case. Which runs build one text
  // in all orders is shown in RunParts.
  lemma ScheduleIndependent(re: Search, log: Bm25.Log, t: Tables, pack: seq<Entry>, p: Option<Retriever.Pack>,
                            s: Retriever.Settings, asset: DocumentBuilder.Asset, runs: seq<Run>,
                            order1: seq<Run>, order2: seq<Run>, vs1: seq<Violation>, vs2: seq<Violation>,
                            engineOn: bool, review: Option<Review>)
    requires AgreeById(runs) && multiset(order1) == multiset(runs) && multiset(order2) == multiset(runs)
    requires multiset(vs1) == multiset(Expected(re, t, pack, FragmentInput(order1),
                                                DrawnFor(log, p, TextOfOrder(asset, order1), pack, s)))
    requires multiset(vs2) == multiset(Expected(re, t, pack, FragmentInput(order2),
                                                DrawnFor(log, p, TextOfOrder(asset, order2), pack, s)))
    requires !s.enabled || p.None? || Lower(TextOfOrder(asset, order1)) == Lower(TextOfOrder(asset, order2))
    ensures multiset(vs1) == multiset(vs2)
    ensures Stored(order1, vs1, engineOn, review) == Stored(order2, vs2, engineOn, review)
  {
    var active := DrawnFor(log, p, TextOfOrder(asset, order1), pack, s);
    if s.enabled && p.Some? {
      ShortlistUpToCase(log, p, TextOfOrder(asset, order1), TextOfOrder(asset, order2), pack, s);
    }
    assert active == DrawnFor(log, p, TextOfOrder(asset, order2), pack, s);
    SameShortlistSameOutcome(re, t, pack, active, runs, order1, order2, vs1, vs2, engineOn, review);
  }

  /******* Exactly when *******/

  lemma EvidencePermutes(re: Search, e: Entry, a: seq<Signal>, b: seq<Signal>)
    requires multiset(a) == multiset(b)
    ensures EngineMeaning.Evidence(re, e, Input(a, None)) <==> EngineMeaning.Evidence(re, e, Input(b, None))
  {
    SameElements(a, b);
  }

  // Two shortlists hold the same of the rules that have evidence.
  ghost predicate SameOfEvident(re: Search, pack: seq<Entry>, i: Input, active1: Option<set<string>>,
                                active2: Option<set<string>>)
  {
    forall e :: e in pack && EngineMeaning.Evidence(re, e, i) ==> (Active(active1, e.id) <==> Active(active2, e.id))
  }

  lemma OutputsPermute(re: Search, t: Tables, a: seq<Signal>, b: seq<Signal>, active1: Option<set<string>>,
                       active2: Option<set<string>>, e: Entry)
    requires multiset(a) == multiset(b)
    requires EngineMeaning.Evidence(re, e, Input(a, None)) ==> (Active(active1, e.id) <==> Active(active2, e.id))
    ensures multiset(Output(re, t, Input(a, None), active1)(e)) == multiset(Output(re, t, Input(b, None), active2)(e))
  {
    EngineMeaning.OutputIds(re, t, Input(a, None), active1, e);
    EngineMeaning.OutputIds(re, t, Input(b, None), active2, e);
    EvidencePermutes(re, e, a, b);
    EngineMeaning.OutputPermutes(re, t, active1, e, a, b);
    if EngineMeaning.Evidence(re, e, Input(a, None)) {
      assert Output(re, t, Input(b, None), active1)(e) == Output(re, t, Input(b, None), active2)(e);
    }
  }

  // Main theorem: two fragment-mode evaluations of the same signals in two orders, each
  // with its own shortlist, give the same violations exactly when the shortlists hold the
  // same of the rules that have evidence.
  lemma ViolationsAgreeIff(re: Search, t: Tables, pack: seq<Entry>, a: seq<Signal>, b: seq<Signal>,
                           active1: Option<set<string>>, active2: Option<set<string>>)
    requires DistinctIds(pack) && multiset(a) == multiset(b)
    ensures multiset(Expected(re, t, pack, Input(a, None), active1))
            == multiset(Expected(re, t, pack, Input(b, None), active2))
       <==> SameOfEvident(re, pack, Input(a, None), active1, active2)
  {
    var vs1, vs2 := Expected(re, t, pack, Input(a, None), active1), Expected(re, t, pack, Input(b, None), active2);
    if SameOfEvident(re, pack, Input(a, None), active1, active2) {
      var f, g := Output(re, t, Input(a, None), active1), Output(re, t, Input(b, None), active2);
      forall e | e in pack ensures multiset(f(e)) == multiset(g(e)) {
        OutputsPermute(re, t, a, b, active1, active2, e);
      }
      FlatMapPointwise(pack, f, g);
    }
    if multiset(vs1) == multiset(vs2) {
      SameElements(vs1, vs2);
      forall e | e in pack && EngineMeaning.Evidence(re, e, Input(a, None))
        ensures Active(active1, e.id) <==> Active(active2, e.id)
      {
        EvidencePermutes(re, e, a, b);
        EngineMeaning.RuleFiresIff(re, t, pack, Input(a, None), active1, e);
        EngineMeaning.RuleFiresIff(re, t, pack, Input(b, None), active2, e);
      }
    }
  }
}
