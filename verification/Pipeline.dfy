/**
  A full run from the extractors to the review state
  (src/zataone/core/pipeline.py, lines 349-452 and 560-596).
 */
module Pipeline {
  import opened Options
  import opened Sequences
  import opened StableSort
  import opened Signals
  import opened Dsl
  import opened Violations
  import opened Engine
  import opened Extraction
  import opened Verdict
  import Bm25
  import DocumentBuilder
  import EngineMeaning
  import Retriever

  datatype Flags = Flags(parallel: bool, engineOn: bool, documentCentric: bool, retrieval: Retriever.Settings)

  /******* What clears a run, in terms of its inputs *******/

  // Some rule that the run evaluates has evidence.
  ghost predicate SomeEvidence(re: Search, pack: seq<Entry>, i: Input, active: Option<set<string>>) {
    exists e :: e in pack && Active(active, e.id) && EngineMeaning.Evidence(re, e, i)
  }

  lemma NoViolationsIff(re: Search, t: Tables, pack: seq<Entry>, i: Input, active: Option<set<string>>)
    ensures Expected(re, t, pack, i, active) == [] <==> !SomeEvidence(re, pack, i, active)
  {
    var f := Output(re, t, i, active);
    forall e ensures f(e) != [] <==> Active(active, e.id) && EngineMeaning.Evidence(re, e, i) {
      EngineMeaning.OutputIds(re, t, i, active, e);
    }
    if Expected(re, t, pack, i, active) == [] {
      FlatMapNothing(pack, f);
    }
    if !SomeEvidence(re, pack, i, active) {
      FlatMapEmpty(pack, f);
    }
  }

  ghost predicate AllSucceed(runs: seq<Run>) {
    forall run :: run in runs ==> run.error.None?
  }

  lemma NothingFailedIff(order: seq<Run>)
    ensures MergeAll(order).failed == map[] <==> AllSucceed(order)
  {
    FailuresFromRuns(order);
    if AllSucceed(order) {
      assert forall id, text :: !SomeFailure(order, id, text);
    }
  }

  // What a run cleared without a human has in common.
  ghost predicate Clear(re: Search, pack: seq<Entry>, i: Input, active: Option<set<string>>, runs: seq<Run>,
                        engineOn: bool, review: Option<Review>)
  {
    && engineOn && AllSucceed(runs) && i.signals != [] && !Diverges(review)
    && !SomeEvidence(re, pack, i, active)
  }

  lemma ClearedIff(re: Search, t: Tables, pack: seq<Entry>, i: Input, active: Option<set<string>>, runs: seq<Run>,
                   order: seq<Run>, engineOn: bool, review: Option<Review>, violations: seq<Violation>)
    requires multiset(order) == multiset(runs) && i.signals == MergeAll(order).signals
    requires engineOn ==> multiset(violations) == multiset(Expected(re, t, pack, i, active))
    ensures var input := RunInput(Full, engineOn, MergeAll(order).failed, |i.signals|, violations, review);
            ReviewStateForVerdict(RunState(input)) == None <==> Clear(re, pack, i, active, runs, engineOn, review)
  {
    AutoClearedIff(RunInput(Full, engineOn, MergeAll(order).failed, |i.signals|, violations, review));
    NothingFailedIff(order);
    SameElements(order, runs);
    NoViolationsIff(re, t, pack, i, active);
    if engineOn { SameElements(violations, Expected(re, t, pack, i, active)); }
  }

  // A detected object carries one of the rule's primary labels.
  predicate SeenBy(e: Entry, seen: Signal) {
    IsVisionObject(seen) && VisionPrimary(e) && LabelOf(seen) in AllowedLabels(e.rule)
  }

  lemma SeenObjectIsEvidence(re: Search, pack: seq<Entry>, i: Input, active: Option<set<string>>, e: Entry,
                             seen: Signal)
    requires active.Some? ==> VisionPrimaryIds(pack) <= active.value
    requires e in pack && seen in i.signals && SeenBy(e, seen)
    ensures SomeEvidence(re, pack, i, active)
  {
    assert e.id in VisionPrimaryIds(pack);
    assert EngineMeaning.Evidence(re, e, i);
  }

  /******* The shortlist *******/

  function VisionPrimaryIds(pack: seq<Entry>): set<string> {
    set e | e in pack && VisionPrimary(e) :: e.id
  }

  function IdSet(ids: seq<string>): set<string> {
    set id | id in ids
  }

  // The ids drawn for a text: the best rules of the cut ranking and the vision-primary
  // ones, or the fallback when there are none. No ids, no shortlist.
  function Drawn(log: Bm25.Log, p: Retriever.Pack, text: string, vision: set<string>, s: Retriever.Settings)
    : Option<set<string>>
  {
    var docs := Retriever.Documents(p);
    var top := Retriever.IdsOf(Retriever.TopRules(p, Bm25.Take(Bm25.Ranking(log, docs, text), s.topK * 2), s.topK));
    var ids :=
      if top == [] && vision == {} && s.fallbackAll then IdSet(Retriever.PackIds(p.rules)) else IdSet(top) + vision;
    if s.enabled && docs != [] && ids != {} then Some(ids) else None
  }

  function DrawnFor(log: Bm25.Log, p: Option<Retriever.Pack>, text: string, pack: seq<Entry>, s: Retriever.Settings)
    : (active: Option<set<string>>)
    ensures active.Some? ==> VisionPrimaryIds(pack) <= active.value
  {
    if p.Some? then Drawn(log, p.value, text, VisionPrimaryIds(pack), s) else None
  }

  lemma ShortlistIds(p: Retriever.Pack, ranked: seq<Bm25.Scored<Retriever.DocId>>, vision: set<string>,
                     s: Retriever.Settings, r: Retriever.Retrieval)
    requires Retriever.IsShortlist(p, ranked, vision, s, r)
    ensures var top := Retriever.IdsOf(Retriever.TopRules(p, ranked, s.topK));
            IdSet(r.ruleIds) == if top == [] && vision == {} && s.fallbackAll then IdSet(Retriever.PackIds(p.rules))
                                else IdSet(top) + vision
  {
  }

  lemma NoDocumentsNoRules(p: Retriever.Pack)
    ensures Retriever.Documents(p) == [] ==> p.rules == []
  {
  }

  lemma NoIdsNoSet(ids: seq<string>)
    ensures ids == [] <==> IdSet(ids) == {}
  {
    if ids != [] { assert ids[0] in IdSet(ids); }
  }

  // What `retrieve` promised gives the ids that are drawn.
  lemma RetrievedIsDrawn(log: Bm25.Log, p: Retriever.Pack, text: string, vision: set<string>, s: Retriever.Settings,
                         r: Retriever.Retrieval)
    requires r.ranked <==> s.enabled && Retriever.Documents(p) != []
    requires !r.ranked ==> r.ruleIds == Retriever.PackIds(p.rules)
    requires r.ranked ==>
               var drawn := Bm25.Take(Bm25.Ranking(log, Retriever.Documents(p), text), s.topK * 2);
               Retriever.IsShortlist(p, drawn, vision, s, r)
    ensures Drawn(log, p, text, vision, s) == if s.enabled && r.ruleIds != [] then Some(IdSet(r.ruleIds)) else None
  {
    NoIdsNoSet(r.ruleIds);
    if r.ranked {
      ShortlistIds(p, Bm25.Take(Bm25.Ranking(log, Retriever.Documents(p), text), s.topK * 2), vision, s, r);
    } else {
      NoDocumentsNoRules(p);
    }
  }

  // The ids handed to the engine: what was retrieved, if retrieval is on and found any rule.
  method Shortlist(log: Bm25.Log, text: string, pack: seq<Entry>, retriever: Retriever.PolicyRetriever?,
                   s: Retriever.Settings)
    returns (active: Option<set<string>>)
    requires retriever != null ==> retriever.Valid()
    requires s.topK >= 1
    ensures active == DrawnFor(log, if retriever == null then None else Some(retriever.pack), text, pack, s)
  {
    active := None;
    if retriever != null {
      var vision := VisionPrimaryIds(pack);
      var r := retriever.Retrieve(log, text, vision, s);
      RetrievedIsDrawn(log, retriever.pack, text, vision, s, r);
      if s.enabled && r.ruleIds != [] {
        active := Some(IdSet(r.ruleIds));
      }
    }
  }

  /******* The run *******/

  function EngineInput(asset: DocumentBuilder.Asset, signals: seq<Signal>, documentCentric: bool): Input {
    Input(signals, if documentCentric then Some(DocumentBuilder.BuiltDocument(asset, signals)) else None)
  }

  // _run_deterministic_core, then the display verdict and the routing of `run`. The run
  // raises exactly when the engine does. The ghost result names the input of the engine,
  // with the signals in order of arrival; a primary label seen on any object keeps the run
  // from being cleared, whatever the shortlist and the advisory are.
  method RunFull(re: Search, log: Bm25.Log, asset: DocumentBuilder.Asset, runs: seq<Run>, engine: PolicyEngine,
                 retriever: Retriever.PolicyRetriever?, flags: Flags, review: Option<Review>)
    returns (v: VerdictRecord?, reviewState: Option<ReviewState>, active: Option<set<string>>, ghost i: Input)
    requires engine.Valid() && engine.activeRuleIds == None
    requires retriever != null ==> retriever.Valid()
    requires flags.retrieval.topK >= 1
    ensures multiset(i.signals) == multiset(FlatMap(runs, SignalsOf()))
    ensures i == EngineInput(asset, i.signals, flags.documentCentric)
    ensures active == DrawnFor(log, if retriever == null then None else Some(retriever.pack),
                               DocumentBuilder.BuiltDocument(asset, i.signals).text, engine.rules, flags.retrieval)
    ensures v == null <==> flags.engineOn && Raises(re, engine.rules, i, active)
    ensures v != null ==> fresh(v) && reviewState == ReviewStateForVerdict(v.Value())
    ensures v != null ==> (reviewState == None <==> Clear(re, engine.rules, i, active, runs, flags.engineOn, review))
    ensures v != null && (exists e, seen :: e in engine.rules && seen in i.signals && SeenBy(e, seen)) ==>
              reviewState == Some(PendingReview)
  {
    var r, order := ExtractSignals(runs, flags.parallel);
    MergedSignals(order);
    FlatMapPermutes(order, runs, SignalsOf());
    var document := DocumentBuilder.Build(asset, r.signals);
    i := EngineInput(asset, r.signals, flags.documentCentric);
    active := Shortlist(log, document.text, engine.rules, retriever, flags.retrieval);
    var violations: seq<Violation> := [];
    v, reviewState := null, None;
    if flags.engineOn {
      var result := engine.EvaluateAll(re, r.signals, Some(document), flags.documentCentric, active);
      if result.Raised? { return; }
      violations := result.value;
    }
    v, reviewState := Verdict.Run(RunInput(Full, flags.engineOn, r.failed, |r.signals|, violations, review));
    ClearedIff(re, engine.tables, engine.rules, i, active, runs, order, flags.engineOn, review, violations);
    if e, seen :| e in engine.rules && seen in i.signals && SeenBy(e, seen) {
      SeenObjectIsEvidence(re, engine.rules, i, active, e, seen);
    }
  }
}
