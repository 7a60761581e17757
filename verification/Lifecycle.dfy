/**
  The life of an asset: stub, pipeline run, failure, reaper, advisory reviews merged in
  later and human decisions (services/ingestion_service.py, core/pipeline.py lines
  613-765, core/reaper.py lines 39-67, services/llm_final_review_service.py lines 500-629,
  services/review_service.py lines 131-210, api/routes.py lines 294-402 and 916-951).

  A step is one committed transaction or one that rolls back. Apply says what a step
  does to the tables; the class performs it statement by statement.
 */
module Lifecycle {
  import opened Options
  import opened Text
  import opened Verdict

  /******* Tables *******/

  type Id = nat

  datatype AssetStatus = Processing | Completed | Failed

  datatype AssetRow = AssetRow(status: AssetStatus, reviewState: Option<ReviewState>)

  datatype VerdictRow = VerdictRow(id: Id, assetId: Id, result: State)

  datatype EventType = ComplianceCheck | ReviewDecisionEvent

  datatype AuditRow = AuditRow(assetId: Id, verdictId: Id, event: EventType)

  datatype Decision = Approved | Rejected | NeedsChanges

  datatype DecisionRow = DecisionRow(assetId: Id, verdictId: Id, decision: Decision, reviewer: string)

  // The database, and the assets whose pipeline run has not ended. `keys` is the unique
  // index on (tenant, idempotency key). Verdicts stand in order of creation.
  datatype Tables = Tables(
    assets: map<Id, AssetRow>,
    keys: map<string, Id>,
    verdicts: seq<VerdictRow>,
    audit: seq<AuditRow>,
    decisions: seq<DecisionRow>,
    running: set<Id>)

  const EMPTY := Tables(map[], map[], [], [], [], {})

  function LatestVerdict(verdicts: seq<VerdictRow>, a: Id): Option<VerdictRow> {
    if verdicts == [] then None
    else
      var v := verdicts[|verdicts| - 1];
      if v.assetId == a then Some(v) else LatestVerdict(verdicts[..|verdicts| - 1], a)
  }

  // The latest verdict of an asset with another advisory review stored in its result.
  function WithReview(verdicts: seq<VerdictRow>, a: Id, r: Review): seq<VerdictRow> {
    if verdicts == [] then []
    else
      var n := |verdicts| - 1;
      var v := verdicts[n];
      if v.assetId == a then verdicts[..n] + [v.(result := v.result.(review := Some(r)))]
      else WithReview(verdicts[..n], a, r) + [v]
  }

  predicate VerdictExists(verdicts: seq<VerdictRow>, id: Id) {
    exists v :: v in verdicts && v.id == id
  }

  // An identifier that no row has yet, as uuid4 gives.
  predicate Unused(t: Tables, id: Id) {
    id !in t.assets && !VerdictExists(t.verdicts, id)
  }

  /******* Steps *******/

  datatype Step =
    | CreateStub(asset: Id, key: Option<string>)
    | PersistRun(asset: Id, verdict: Id, result: State)   // the graph is committed
    | FailRun(asset: Id)                                  // the run raised, or its commit was rolled back
    | LoseRun(asset: Id)                                  // the process died under the run
    | Reap(stale: set<Id>)                                // assets created before the cut-off
    | MergeReview(asset: Id, review: Review)              // an advisory pass over a completed asset
    | Decide(asset: Id, decision: string, reviewer: string, source: string)

  function ParseDecision(s: string): Option<Decision> {
    var d := Lower(Strip(s));
    if d == "approved" then Some(Approved)
    else if d == "rejected" then Some(Rejected)
    else if d == "needs_changes" then Some(NeedsChanges)
    else None
  }

  predicate ValidSource(s: string) {
    Lower(Strip(if s == "" then "human_review" else s)) in ["human_review", "appeal", "platform_feedback"]
  }

  function FinalState(d: Decision): ReviewState {
    match d
    case Approved => FinalApproved
    case Rejected => FinalRejected
    case NeedsChanges => FinalNeedsChanges
  }

  function SetStatus(t: Tables, a: Id, s: AssetStatus): Tables {
    if a in t.assets then t.(assets := t.assets[a := t.assets[a].(status := s)]) else t
  }

  // The decision is refused, and nothing is written.
  predicate Refused(t: Tables, a: Id, decision: string, reviewer: string, source: string) {
    || ParseDecision(decision).None? || !ValidSource(source) || Strip(reviewer) == ""
    || a !in t.assets
    // the audit row would point at a verdict that does not exist
    || (LatestVerdict(t.verdicts, a).None? && !VerdictExists(t.verdicts, a))
  }

  predicate Mergeable(t: Tables, a: Id) {
    a in t.assets && t.assets[a].status == Completed && LatestVerdict(t.verdicts, a).Some?
  }

  function Apply(t: Tables, s: Step): Tables {
    match s
    case CreateStub(a, key) =>
      if !Unused(t, a) || (key.Some? && key.value in t.keys) then t
      else
        t.(assets := t.assets[a := AssetRow(Processing, None)],
           keys := if key.Some? then t.keys[key.value := a] else t.keys,
           running := t.running + {a})
    case PersistRun(a, v, result) =>
      if a !in t.running || a !in t.assets || !Unused(t, v) then t
      else
        t.(assets := t.assets[a := AssetRow(Completed, ReviewStateForVerdict(result))],
           verdicts := t.verdicts + [VerdictRow(v, a, result)],
           audit := t.audit + [AuditRow(a, v, ComplianceCheck)],
           running := t.running - {a})
    case FailRun(a) =>
      if a !in t.running then t else SetStatus(t, a, Failed).(running := t.running - {a})
    case LoseRun(a) => t.(running := t.running - {a})
    case Reap(stale) =>
      t.(assets := map a | a in t.assets ::
           if a in stale && t.assets[a].status == Processing then t.assets[a].(status := Failed) else t.assets[a])
    case MergeReview(a, r) => if Mergeable(t, a) then t.(verdicts := WithReview(t.verdicts, a, r)) else t
    case Decide(a, decision, reviewer, source) =>
      if Refused(t, a, decision, reviewer, source) then t
      else
        var d := ParseDecision(decision).value;
        var v := if LatestVerdict(t.verdicts, a).Some? then LatestVerdict(t.verdicts, a).value.id else a;
        t.(assets := t.assets[a := t.assets[a].(reviewState := Some(FinalState(d)))],
           audit := t.audit + [AuditRow(a, v, ReviewDecisionEvent)],
           decisions := t.decisions + [DecisionRow(a, v, d, Strip(reviewer))])
  }

  function RunSteps(t: Tables, steps: seq<Step>): Tables {
    if steps == [] then t else Apply(RunSteps(t, steps[..|steps| - 1]), steps[|steps| - 1])
  }

  // find_existing_verdict
  function FindExisting(t: Tables, key: string): Option<(Id, State)> {
    if key !in t.keys then None
    else
      match LatestVerdict(t.verdicts, t.keys[key])
      case Some(v) => Some((t.keys[key], v.result))
      case None => None
  }

  /******* The services *******/

  class Store {
    var assets: map<Id, AssetRow>
    var keys: map<string, Id>
    var verdicts: seq<VerdictRow>
    var audit: seq<AuditRow>
    var decisions: seq<DecisionRow>
    ghost var running: set<Id>

    ghost function Value(): Tables
      reads this
    {
      Tables(assets, keys, verdicts, audit, decisions, running)
    }

    constructor ()
      ensures Value() == EMPTY
    {
      assets, keys, verdicts, audit, decisions := map[], map[], [], [], [];
      running := {};
    }

    // create_asset_stub and the commit of post_assets: a duplicate id or key rolls back.
    method CreateAssetStub(a: Id, key: Option<string>) returns (ok: bool)
      modifies this
      ensures Value() == Apply(old(Value()), Step.CreateStub(a, key))
      ensures ok <==> Unused(old(Value()), a) && (key.Some? ==> key.value !in old(keys))
    {
      if a in assets || VerdictExists(verdicts, a) { return false; }
      if key.Some? {
        if key.value in keys { return false; }
        keys := keys[key.value := a];
      }
      assets := assets[a := AssetRow(Processing, None)];
      running := running + {a};
      ok := true;
    }

    // _persist_compliance_graph for an existing asset, as one transaction; a missing
    // asset is logged and nothing is written. The verdict's id is a new uuid.
    method PersistGraph(a: Id, v: Id, result: State) returns (ok: bool)
      requires a in running && Unused(Value(), v)
      modifies this
      ensures Value() == Apply(old(Value()), Step.PersistRun(a, v, result))
      ensures ok <==> a in old(assets)
    {
      if a !in assets { return false; }
      assets := assets[a := assets[a].(status := Completed)];
      verdicts := verdicts + [VerdictRow(v, a, result)];
      assets := assets[a := assets[a].(reviewState := ReviewStateForVerdict(result))];
      audit := audit + [AuditRow(a, v, ComplianceCheck)];
      running := running - {a};
      ok := true;
    }

    // set_asset_status
    method SetAssetStatus(a: Id, status: AssetStatus) returns (found: bool)
      modifies this`assets
      ensures Value() == SetStatus(old(Value()), a, status)
      ensures found <==> a in old(assets)
    {
      found := a in assets;
      if found { assets := assets[a := assets[a].(status := status)]; }
    }

    // The handler of a run that raised or could not be stored.
    method MarkFailed(a: Id) returns (found: bool)
      requires a in running
      modifies this
      ensures Value() == Apply(old(Value()), Step.FailRun(a))
      ensures found <==> a in old(assets)
    {
      found := SetAssetStatus(a, Failed);
      running := running - {a};
    }

    // run_llm_final_review and merge_verdict_with_llm_review; `review` is the record the
    // advisory model gave.
    method MergeAdvisoryReview(a: Id, review: Review) returns (ok: bool)
      modifies this`verdicts
      ensures Value() == Apply(old(Value()), Step.MergeReview(a, review))
      ensures ok <==> Mergeable(old(Value()), a)
    {
      if a !in assets { return false; }
      if LatestVerdict(verdicts, a).None? || assets[a].status != Completed { return false; }
      verdicts := WithReview(verdicts, a, review);
      ok := true;
    }

    // reap_stuck_assets
    method ReapStuckAssets(stale: set<Id>) returns (count: nat)
      modifies this`assets
      ensures Value() == Apply(old(Value()), Step.Reap(stale))
      ensures count == |set a | a in old(assets) && a in stale && old(assets)[a].status == Processing|
    {
      ghost var before := assets;
      var stuck := set a | a in assets && a in stale && assets[a].status == Processing;
      count := |stuck|;
      var todo := stuck;
      while todo != {}
        invariant todo <= stuck && assets.Keys == before.Keys
        invariant forall a :: a in before ==>
          assets[a] == if a in stuck - todo then before[a].(status := Failed) else before[a]
        decreases |todo|
      {
        var a :| a in todo;
        assets := assets[a := assets[a].(status := Failed)];
        todo := todo - {a};
      }
      assert stuck - todo == stuck;
      assert assets == Apply(old(Value()), Step.Reap(stale)).assets;
    }

    // submit_decision: the row and the state are written first, and undone when the
    // audit event breaks the foreign key.
    method SubmitDecision(a: Id, decision: string, reviewer: string, source: string) returns (ok: bool)
      modifies this
      ensures Value() == Apply(old(Value()), Step.Decide(a, decision, reviewer, source))
      ensures ok <==> !Refused(old(Value()), a, decision, reviewer, source)
    {
      var d := ParseDecision(decision);
      if d.None? || !ValidSource(source) || Strip(reviewer) == "" || a !in assets { return false; }
      var v := LatestVerdict(verdicts, a);
      var verdictId := if v.Some? then v.value.id else a;
      var assetsBefore, decisionsBefore := assets, decisions;
      decisions := decisions + [DecisionRow(a, verdictId, d.value, Strip(reviewer))];
      assets := assets[a := assets[a].(reviewState := Some(FinalState(d.value)))];
      LatestVerdictExists(verdicts, a);
      if !VerdictExists(verdicts, verdictId) {
        assets, decisions := assetsBefore, decisionsBefore;
        return false;
      }
      audit := audit + [AuditRow(a, verdictId, ReviewDecisionEvent)];
      ok := true;
    }
  }

  lemma {:induction false} LatestVerdictExists(verdicts: seq<VerdictRow>, a: Id)
    ensures var v := LatestVerdict(verdicts, a); v.Some? ==> v.value in verdicts && v.value.assetId == a
    ensures LatestVerdict(verdicts, a).None? ==> forall v :: v in verdicts ==> v.assetId != a
  {
    if verdicts != [] {
      var n := |verdicts| - 1;
      LatestVerdictExists(verdicts[..n], a);
      assert verdicts == verdicts[..n] + [verdicts[n]];
    }
  }
}
