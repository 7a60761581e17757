/**
  What every run of the services keeps, whatever the interleaving of stubs, pipeline
  runs, failures, crashes, reaper sweeps and human decisions.
 */
module LifecycleMeaning {
  import opened Options
  import opened Text
  import opened Verdict
  import opened Lifecycle

  /******* The invariant *******/

  ghost predicate HasVerdict(t: Tables, a: Id) {
    exists v :: v in t.verdicts && v.assetId == a
  }

  function LastDecision(decisions: seq<DecisionRow>, a: Id): Option<Decision> {
    if decisions == [] then None
    else
      var d := decisions[|decisions| - 1];
      if d.assetId == a then Some(d.decision) else LastDecision(decisions[..|decisions| - 1], a)
  }

  // The last decision if there is one, else what the pipeline's verdict says.
  function DueReviewState(t: Tables, a: Id): Option<ReviewState> {
    match LastDecision(t.decisions, a)
    case Some(d) => Some(FinalState(d))
    case None =>
      match LatestVerdict(t.verdicts, a)
      case Some(v) => ReviewStateForVerdict(v.result)
      case None => None
  }

  function EventCount(audit: seq<AuditRow>, e: EventType): nat {
    if audit == [] then 0
    else EventCount(audit[..|audit| - 1], e) + if audit[|audit| - 1].event == e then 1 else 0
  }

  ghost predicate VerdictsOk(t: Tables) {
    && (forall v :: v in t.verdicts ==> v.assetId in t.assets && v.id !in t.assets)
    && (forall i, j :: 0 <= i < j < |t.verdicts| ==>
          t.verdicts[i].id != t.verdicts[j].id && t.verdicts[i].assetId != t.verdicts[j].assetId)
  }

  ghost predicate StatusOk(t: Tables) {
    && (forall a :: a in t.assets ==> (t.assets[a].status == Completed <==> HasVerdict(t, a)))
    && (forall a :: a in t.running ==> a in t.assets && !HasVerdict(t, a))
  }

  ghost predicate ReviewOk(t: Tables) {
    forall a :: a in t.assets ==> t.assets[a].reviewState == DueReviewState(t, a)
  }

  // The audit foreign keys, and one event per verdict and per decision.
  ghost predicate AuditOk(t: Tables) {
    && (forall e :: e in t.audit ==> exists v :: v in t.verdicts && v.id == e.verdictId && v.assetId == e.assetId)
    && EventCount(t.audit, ComplianceCheck) == |t.verdicts|
    && EventCount(t.audit, ReviewDecisionEvent) == |t.decisions|
  }

  ghost predicate DecisionsOk(t: Tables) {
    forall d :: d in t.decisions ==> exists v :: v in t.verdicts && v.id == d.verdictId && v.assetId == d.assetId
  }

  ghost predicate KeysOk(t: Tables) {
    && (forall k :: k in t.keys ==> t.keys[k] in t.assets)
    && (forall k, l :: k in t.keys && l in t.keys && t.keys[k] == t.keys[l] ==> k == l)
  }

  ghost predicate Inv(t: Tables) {
    VerdictsOk(t) && StatusOk(t) && ReviewOk(t) && AuditOk(t) && DecisionsOk(t) && KeysOk(t)
  }

  /******* Every step keeps it *******/

  lemma LatestSnoc(verdicts: seq<VerdictRow>, v: VerdictRow, a: Id)
    ensures LatestVerdict(verdicts + [v], a) == if v.assetId == a then Some(v) else LatestVerdict(verdicts, a)
  {
    assert (verdicts + [v])[..|verdicts|] == verdicts;
  }

  lemma LastDecisionSnoc(decisions: seq<DecisionRow>, d: DecisionRow, a: Id)
    ensures LastDecision(decisions + [d], a) == if d.assetId == a then Some(d.decision) else LastDecision(decisions, a)
  {
    assert (decisions + [d])[..|decisions|] == decisions;
  }

  lemma EventCountSnoc(audit: seq<AuditRow>, row: AuditRow, e: EventType)
    ensures EventCount(audit + [row], e) == EventCount(audit, e) + if row.event == e then 1 else 0
  {
    assert (audit + [row])[..|audit|] == audit;
  }

  lemma {:induction false} LastDecisionFound(decisions: seq<DecisionRow>, a: Id)
    ensures LastDecision(decisions, a).Some? ==> exists d :: d in decisions && d.assetId == a
  {
    if decisions != [] {
      var n := |decisions| - 1;
      LastDecisionFound(decisions[..n], a);
      assert decisions == decisions[..n] + [decisions[n]];
    }
  }

  // Without a verdict there is no decision either.
  lemma NoVerdictNoDecision(t: Tables, a: Id)
    requires DecisionsOk(t) && !HasVerdict(t, a)
    ensures LastDecision(t.decisions, a).None? && LatestVerdict(t.verdicts, a).None?
  {
    LastDecisionFound(t.decisions, a);
    LatestVerdictExists(t.verdicts, a);
  }

  // A new processing asset, and its key if it has one.
  function Added(t: Tables, a: Id, keys: map<string, Id>): Tables {
    t.(assets := t.assets[a := AssetRow(Processing, None)], keys := keys, running := t.running + {a})
  }

  lemma AddedReview(t: Tables, a: Id, keys: map<string, Id>)
    requires VerdictsOk(t) && ReviewOk(t) && DecisionsOk(t) && AuditOk(t) && Unused(t, a)
    ensures ReviewOk(Added(t, a, keys)) && DecisionsOk(Added(t, a, keys)) && AuditOk(Added(t, a, keys))
  {
    NoVerdictNoDecision(t, a);
    assert forall b :: DueReviewState(Added(t, a, keys), b) == DueReviewState(t, b);
  }

  lemma AddedStatus(t: Tables, a: Id, keys: map<string, Id>)
    requires VerdictsOk(t) && StatusOk(t) && Unused(t, a)
    ensures VerdictsOk(Added(t, a, keys)) && StatusOk(Added(t, a, keys))
  {
    assert forall b :: HasVerdict(Added(t, a, keys), b) <==> HasVerdict(t, b);
  }

  lemma CreateKeeps(t: Tables, a: Id, key: Option<string>)
    requires Inv(t)
    ensures Inv(Apply(t, Step.CreateStub(a, key)))
  {
    var u := Apply(t, Step.CreateStub(a, key));
    if u != t {
      AddedReview(t, a, u.keys);
      AddedStatus(t, a, u.keys);
      assert u == Added(t, a, u.keys);
    }
  }

  // A finished run: the asset is completed and has its verdict.
  function Finished(t: Tables, row: VerdictRow): Tables {
    t.(assets := t.assets[row.assetId := AssetRow(Completed, ReviewStateForVerdict(row.result))],
       verdicts := t.verdicts + [row],
       audit := t.audit + [AuditRow(row.assetId, row.id, ComplianceCheck)],
       running := t.running - {row.assetId})
  }

  lemma FinishedVerdicts(t: Tables, row: VerdictRow)
    requires VerdictsOk(t) && row.assetId in t.assets && !HasVerdict(t, row.assetId) && Unused(t, row.id)
    ensures VerdictsOk(Finished(t, row))
  {
    assert forall i :: 0 <= i < |t.verdicts| ==> t.verdicts[i] in t.verdicts;
  }

  lemma FinishedStatus(t: Tables, row: VerdictRow)
    requires StatusOk(t) && row.assetId in t.assets
    ensures StatusOk(Finished(t, row))
  {
    var u := Finished(t, row);
    assert row in u.verdicts && forall x :: x in t.verdicts ==> x in u.verdicts;
    forall b ensures HasVerdict(u, b) <==> HasVerdict(t, b) || b == row.assetId {}
  }

  lemma FinishedReview(t: Tables, row: VerdictRow)
    requires ReviewOk(t) && DecisionsOk(t) && !HasVerdict(t, row.assetId)
    ensures ReviewOk(Finished(t, row))
  {
    var u := Finished(t, row);
    NoVerdictNoDecision(t, row.assetId);
    forall b
      ensures LatestVerdict(u.verdicts, b) == if b == row.assetId then Some(row) else LatestVerdict(t.verdicts, b)
    {
      LatestSnoc(t.verdicts, row, b);
    }
  }

  lemma FinishedTrail(t: Tables, row: VerdictRow)
    requires AuditOk(t) && DecisionsOk(t)
    ensures AuditOk(Finished(t, row)) && DecisionsOk(Finished(t, row))
  {
    var u := Finished(t, row);
    EventCountSnoc(t.audit, AuditRow(row.assetId, row.id, ComplianceCheck), ComplianceCheck);
    EventCountSnoc(t.audit, AuditRow(row.assetId, row.id, ComplianceCheck), ReviewDecisionEvent);
    assert row in u.verdicts && forall x :: x in t.verdicts ==> x in u.verdicts;
  }

  lemma PersistKeeps(t: Tables, a: Id, v: Id, result: State)
    requires Inv(t)
    ensures Inv(Apply(t, Step.PersistRun(a, v, result)))
  {
    var u, row := Apply(t, Step.PersistRun(a, v, result)), VerdictRow(v, a, result);
    if u != t {
      FinishedVerdicts(t, row);
      FinishedStatus(t, row);
      FinishedReview(t, row);
      FinishedTrail(t, row);
      assert u == Finished(t, row);
    }
  }

  // Steps that only change the status of assets without a verdict.
  lemma StatusChangeKeeps(t: Tables, u: Tables)
    requires Inv(t) && u == t.(assets := u.assets, running := u.running)
    requires u.assets.Keys == t.assets.Keys && u.running <= t.running
    requires forall a :: a in t.assets ==> u.assets[a].reviewState == t.assets[a].reviewState
    requires forall a :: a in t.assets ==> (u.assets[a].status == Completed <==> t.assets[a].status == Completed)
    ensures Inv(u)
  {
    assert forall b :: HasVerdict(u, b) <==> HasVerdict(t, b);
    assert forall b :: DueReviewState(u, b) == DueReviewState(t, b);
  }

  // Recording a decision that names the asset's verdict.
  function Recorded(t: Tables, a: Id, v: VerdictRow, d: Decision, reviewer: string): Tables
    requires a in t.assets
  {
    t.(assets := t.assets[a := t.assets[a].(reviewState := Some(FinalState(d)))],
       audit := t.audit + [AuditRow(a, v.id, ReviewDecisionEvent)],
       decisions := t.decisions + [DecisionRow(a, v.id, d, reviewer)])
  }

  lemma RecordedReview(t: Tables, a: Id, v: VerdictRow, d: Decision, reviewer: string)
    requires ReviewOk(t) && a in t.assets
    ensures ReviewOk(Recorded(t, a, v, d, reviewer))
  {
    var u := Recorded(t, a, v, d, reviewer);
    forall b ensures LastDecision(u.decisions, b) == if b == a then Some(d) else LastDecision(t.decisions, b) {
      LastDecisionSnoc(t.decisions, DecisionRow(a, v.id, d, reviewer), b);
    }
  }

  lemma RecordedTrail(t: Tables, a: Id, v: VerdictRow, d: Decision, reviewer: string)
    requires AuditOk(t) && DecisionsOk(t) && a in t.assets && v in t.verdicts && v.assetId == a
    ensures AuditOk(Recorded(t, a, v, d, reviewer)) && DecisionsOk(Recorded(t, a, v, d, reviewer))
  {
    var row := AuditRow(a, v.id, ReviewDecisionEvent);
    EventCountSnoc(t.audit, row, ComplianceCheck);
    EventCountSnoc(t.audit, row, ReviewDecisionEvent);
  }

  lemma RecordedStatus(t: Tables, a: Id, v: VerdictRow, d: Decision, reviewer: string)
    requires VerdictsOk(t) && StatusOk(t) && KeysOk(t) && a in t.assets
    ensures var u := Recorded(t, a, v, d, reviewer); VerdictsOk(u) && StatusOk(u) && KeysOk(u)
  {
    var u := Recorded(t, a, v, d, reviewer);
    assert forall b :: HasVerdict(u, b) <==> HasVerdict(t, b);
  }

  lemma DecideKeeps(t: Tables, a: Id, decision: string, reviewer: string, source: string)
    requires Inv(t)
    ensures Inv(Apply(t, Step.Decide(a, decision, reviewer, source)))
  {
    if !Refused(t, a, decision, reviewer, source) {
      var d := ParseDecision(decision).value;
      LatestVerdictExists(t.verdicts, a);
      var v := LatestVerdict(t.verdicts, a).value;
      RecordedReview(t, a, v, d, Strip(reviewer));
      RecordedTrail(t, a, v, d, Strip(reviewer));
      RecordedStatus(t, a, v, d, Strip(reviewer));
      assert Apply(t, Step.Decide(a, decision, reviewer, source)) == Recorded(t, a, v, d, Strip(reviewer));
    }
  }

  // Merging a review touches nothing but one review.
  lemma {:induction false} WithReviewRows(verdicts: seq<VerdictRow>, a: Id, r: Review)
    ensures |WithReview(verdicts, a, r)| == |verdicts|
    ensures forall i :: 0 <= i < |verdicts| ==>
              var u := WithReview(verdicts, a, r);
              u[i] == verdicts[i].(result := verdicts[i].result.(review := u[i].result.review))
              && (verdicts[i].assetId != a ==> u[i] == verdicts[i])
  {
    if verdicts != [] { WithReviewRows(verdicts[..|verdicts| - 1], a, r); }
  }

  lemma {:induction false} WithReviewLatest(verdicts: seq<VerdictRow>, a: Id, r: Review, b: Id)
    ensures var v := LatestVerdict(verdicts, b);
            LatestVerdict(WithReview(verdicts, a, r), b)
            == if b == a && v.Some? then Some(v.value.(result := v.value.result.(review := Some(r)))) else v
  {
    if verdicts != [] {
      var n := |verdicts| - 1;
      WithReviewLatest(verdicts[..n], a, r, b);
      if verdicts[n].assetId == a {
        LatestSnoc(verdicts[..n], WithReview(verdicts, a, r)[n], b);
      } else {
        LatestSnoc(WithReview(verdicts[..n], a, r), verdicts[n], b);
      }
    }
  }

  // The rows u are the rows t up to their reviews.
  ghost predicate SameButReviews(t: seq<VerdictRow>, u: seq<VerdictRow>) {
    |u| == |t| && forall i :: 0 <= i < |t| ==> u[i].id == t[i].id && u[i].assetId == t[i].assetId
  }

  lemma SameRows(t: seq<VerdictRow>, u: seq<VerdictRow>)
    requires SameButReviews(t, u)
    ensures forall x :: x in t ==> exists y :: y in u && y.id == x.id && y.assetId == x.assetId
  {
    forall x | x in t ensures exists y :: y in u && y.id == x.id && y.assetId == x.assetId {
      var i :| 0 <= i < |t| && t[i] == x;
      assert u[i] in u;
    }
  }

  lemma SameVerdictsExist(t: Tables, u: Tables)
    requires u == t.(verdicts := u.verdicts) && SameButReviews(t.verdicts, u.verdicts)
    ensures forall b :: HasVerdict(u, b) <==> HasVerdict(t, b)
  {
    SameRows(t.verdicts, u.verdicts);
    SameRows(u.verdicts, t.verdicts);
  }

  lemma MergedVerdicts(t: Tables, u: Tables)
    requires VerdictsOk(t) && u == t.(verdicts := u.verdicts) && SameButReviews(t.verdicts, u.verdicts)
    ensures VerdictsOk(u)
  {
    SameRows(u.verdicts, t.verdicts);
  }

  lemma MergedTrail(t: Tables, u: Tables)
    requires AuditOk(t) && DecisionsOk(t)
    requires u == t.(verdicts := u.verdicts) && SameButReviews(t.verdicts, u.verdicts)
    ensures AuditOk(u) && DecisionsOk(u)
  {
    SameRows(t.verdicts, u.verdicts);
  }

  lemma MergedReviewState(t: Tables, a: Id, r: Review)
    requires ReviewOk(t)
    ensures ReviewOk(t.(verdicts := WithReview(t.verdicts, a, r)))
  {
    var u := t.(verdicts := WithReview(t.verdicts, a, r));
    forall b ensures DueReviewState(u, b) == DueReviewState(t, b) {
      WithReviewLatest(t.verdicts, a, r, b);
    }
  }

  lemma MergeKeeps(t: Tables, a: Id, r: Review)
    requires Inv(t)
    ensures Inv(Apply(t, Step.MergeReview(a, r)))
  {
    if Mergeable(t, a) {
      var u := t.(verdicts := WithReview(t.verdicts, a, r));
      WithReviewRows(t.verdicts, a, r);
      assert SameButReviews(t.verdicts, u.verdicts);
      SameVerdictsExist(t, u);
      MergedVerdicts(t, u);
      MergedTrail(t, u);
      MergedReviewState(t, a, r);
      assert Apply(t, Step.MergeReview(a, r)) == u;
    }
  }

  lemma StepKeeps(t: Tables, s: Step)
    requires Inv(t)
    ensures Inv(Apply(t, s))
  {
    match s
    case CreateStub(a, key) => CreateKeeps(t, a, key);
    case PersistRun(a, v, result) => PersistKeeps(t, a, v, result);
    case FailRun(a) => StatusChangeKeeps(t, Apply(t, s));
    case LoseRun(a) => StatusChangeKeeps(t, Apply(t, s));
    case Reap(stale) => StatusChangeKeeps(t, Apply(t, s));
    case MergeReview(a, r) => MergeKeeps(t, a, r);
    case Decide(a, decision, reviewer, source) => DecideKeeps(t, a, decision, reviewer, source);
  }

  lemma {:induction false} RunsKeep(t: Tables, steps: seq<Step>)
    requires Inv(t)
    ensures Inv(RunSteps(t, steps))
  {
    if steps != [] {
      RunsKeep(t, steps[..|steps| - 1]);
      StepKeeps(RunSteps(t, steps[..|steps| - 1]), steps[|steps| - 1]);
    }
  }

  /******* Consequences for whole runs *******/

  // Main theorem: after any steps from the empty database, an asset is completed exactly
  // when it has a verdict, its review state is the one due, and the audit trail has one
  // event per verdict and one per decision, each pointing at the asset's own verdict.
  lemma EveryRunIsConsistent(steps: seq<Step>, a: Id)
    ensures var t := RunSteps(EMPTY, steps);
            && (a in t.assets ==>
                  && (t.assets[a].status == Completed <==> HasVerdict(t, a))
                  && t.assets[a].reviewState == DueReviewState(t, a))
            && |t.audit| == |t.verdicts| + |t.decisions|
            && AuditOk(t)
  {
    var t := RunSteps(EMPTY, steps);
    RunsKeep(EMPTY, steps);
    AuditTotal(t.audit);
  }

  lemma {:induction false} AuditTotal(audit: seq<AuditRow>)
    ensures |audit| == EventCount(audit, ComplianceCheck) + EventCount(audit, ReviewDecisionEvent)
  {
    if audit != [] { AuditTotal(audit[..|audit| - 1]); }
  }

  // Once a decision is recorded, the review state is that of the last decision for good.
  lemma DecisionIsFinal(before: seq<Step>, after: seq<Step>, a: Id)
    requires a in RunSteps(EMPTY, before).assets && LastDecision(RunSteps(EMPTY, before).decisions, a).Some?
    ensures var t := RunSteps(RunSteps(EMPTY, before), after);
            && a in t.assets
            && LastDecision(t.decisions, a).Some?
            && t.assets[a].reviewState == Some(FinalState(LastDecision(t.decisions, a).value))
  {
    RunsKeep(EMPTY, before);
    RunsKeep(RunSteps(EMPTY, before), after);
    DecidedStays(RunSteps(EMPTY, before), after, a);
  }

  lemma {:induction false} DecidedStays(t: Tables, steps: seq<Step>, a: Id)
    requires a in t.assets && LastDecision(t.decisions, a).Some?
    ensures a in RunSteps(t, steps).assets && LastDecision(RunSteps(t, steps).decisions, a).Some?
  {
    if steps != [] {
      var n := |steps| - 1;
      DecidedStays(t, steps[..n], a);
      var u := RunSteps(t, steps[..n]);
      match steps[n]
      case Decide(b, decision, reviewer, source) =>
        if !Refused(u, b, decision, reviewer, source) {
          var v := Apply(u, steps[n]);
          LastDecisionSnoc(u.decisions, v.decisions[|u.decisions|], a);
          assert v.decisions == u.decisions + [v.decisions[|u.decisions|]];
        }
      case _ =>
    }
  }

  // A well-formed decision is accepted exactly on completed assets.
  lemma DecisionAcceptedIffCompleted(t: Tables, a: Id, decision: string, reviewer: string, source: string)
    requires Inv(t)
    requires ParseDecision(decision).Some? && ValidSource(source) && Strip(reviewer) != ""
    ensures !Refused(t, a, decision, reviewer, source) <==> a in t.assets && t.assets[a].status == Completed
  {
    LatestVerdictExists(t.verdicts, a);
  }

  // The review merged into an asset's verdict last, if any was.
  function MergedReview(t: Tables, steps: seq<Step>, a: Id): Option<Review> {
    if steps == [] then None
    else
      var n := |steps| - 1;
      var s := steps[n];
      if s.MergeReview? && s.asset == a && Mergeable(RunSteps(t, steps[..n]), a) then Some(s.review)
      else MergedReview(t, steps[..n], a)
  }

  function AfterMerge(s: State, merged: Option<Review>): State {
    if merged.Some? then s.(review := merged) else s
  }

  lemma LatestKept(t: Tables, s: Step, a: Id)
    requires VerdictsOk(t) && StatusOk(t) && HasVerdict(t, a)
    ensures var v := LatestVerdict(t.verdicts, a);
            LatestVerdict(Apply(t, s).verdicts, a)
            == if v.Some? && s.MergeReview? && s.asset == a && Mergeable(t, a)
               then Some(v.value.(result := v.value.result.(review := Some(s.review)))) else v
  {
    match s
    case PersistRun(b, v, result) =>
      if Apply(t, s) != t { LatestSnoc(t.verdicts, VerdictRow(v, b, result), a); }
    case MergeReview(b, r) => WithReviewLatest(t.verdicts, b, r, a);
    case _ =>
  }

  // A verdict, once there, is the asset's verdict for good: same row, status, band, score
  // and metadata; only its advisory review becomes the one merged last. The asset stays
  // completed.
  lemma {:induction false} VerdictIsFinal(t: Tables, steps: seq<Step>, a: Id)
    requires Inv(t) && LatestVerdict(t.verdicts, a).Some?
    ensures var v, u := LatestVerdict(t.verdicts, a).value, RunSteps(t, steps);
            && LatestVerdict(u.verdicts, a) == Some(v.(result := AfterMerge(v.result, MergedReview(t, steps, a))))
            && a in u.assets && u.assets[a].status == Completed
  {
    if steps != [] {
      var n := |steps| - 1;
      VerdictIsFinal(t, steps[..n], a);
      var before := RunSteps(t, steps[..n]);
      LatestVerdictExists(before.verdicts, a);
      RunsKeep(t, steps[..n]);
      LatestKept(before, steps[n], a);
    }
    RunsKeep(t, steps);
    LatestVerdictExists(RunSteps(t, steps).verdicts, a);
  }

  // Every verdict that is stored is what some run of the pipeline ended with.
  ghost predicate FromRuns(steps: seq<Step>) {
    forall s :: s in steps && s.PersistRun? ==> exists i: RunInput :: s.result == RunState(i)
  }

  lemma {:induction false} NoVerdictNoMerge(steps: seq<Step>, a: Id)
    requires LatestVerdict(RunSteps(EMPTY, steps).verdicts, a).None?
    ensures MergedReview(EMPTY, steps, a).None?
  {
    if steps != [] {
      var n := |steps| - 1;
      var t := RunSteps(EMPTY, steps[..n]);
      RunsKeep(EMPTY, steps[..n]);
      if LatestVerdict(t.verdicts, a).Some? {
        LatestVerdictExists(t.verdicts, a);
        LatestKept(t, steps[n], a);
      }
      NoVerdictNoMerge(steps[..n], a);
    }
  }

  lemma NewVerdictIsPersisted(t: Tables, s: Step, a: Id)
    requires LatestVerdict(t.verdicts, a).None? && LatestVerdict(Apply(t, s).verdicts, a).Some?
    ensures s.PersistRun? && LatestVerdict(Apply(t, s).verdicts, a).value.result == s.result
  {
    match s
    case PersistRun(b, v, result) =>
      if Apply(t, s) != t { LatestSnoc(t.verdicts, VerdictRow(v, b, result), a); }
    case MergeReview(b, r) => WithReviewLatest(t.verdicts, b, r, a);
    case _ =>
  }

  lemma {:induction false} StoredFromRun(steps: seq<Step>, a: Id) returns (i: RunInput)
    requires FromRuns(steps) && LatestVerdict(RunSteps(EMPTY, steps).verdicts, a).Some?
    ensures LatestVerdict(RunSteps(EMPTY, steps).verdicts, a).value.result
         == AfterMerge(RunState(i), MergedReview(EMPTY, steps, a))
  {
    var n := |steps| - 1;
    var t, s := RunSteps(EMPTY, steps[..n]), steps[n];
    RunsKeep(EMPTY, steps[..n]);
    assert FromRuns(steps[..n]) by {
      assert forall x :: x in steps[..n] ==> x in steps;
    }
    LatestVerdictExists(t.verdicts, a);
    if LatestVerdict(t.verdicts, a).Some? {
      i := StoredFromRun(steps[..n], a);
      LatestKept(t, s, a);
    } else {
      NoVerdictNoMerge(steps[..n], a);
      NewVerdictIsPersisted(t, s, a);
      assert s in steps;
      i :| s.result == RunState(i);
    }
  }

  lemma ClearedVerdict(t: Tables, a: Id)
    requires Inv(t) && a in t.assets && t.assets[a].status == Completed && t.assets[a].reviewState == None
    ensures var v := LatestVerdict(t.verdicts, a); v.Some? && ReviewStateForVerdict(v.value.result) == None
  {
    LatestVerdictExists(t.verdicts, a);
  }

  lemma ClearedRunDidNotDiverge(i: RunInput, merged: Option<Review>)
    requires ReviewStateForVerdict(AfterMerge(RunState(i), merged)) == None
    ensures Diverges(AfterMerge(RunState(i), merged).review) <==> Diverges(merged)
  {
    assert ReviewStateForVerdict(RunState(i)) == None;
    AutoClearedIff(i);
    assert RunState(i).review == i.review;
  }

  // Main theorem: an asset that was cleared without a human holds a diverging advisory
  // exactly when one was merged in after its run. What AutoClearedIff says of a run is
  // therefore no invariant of the stored rows.
  lemma ClearedDivergesIffMerged(steps: seq<Step>, a: Id)
    requires FromRuns(steps)
    requires var t := RunSteps(EMPTY, steps);
             a in t.assets && t.assets[a].status == Completed && t.assets[a].reviewState == None
    ensures var v := LatestVerdict(RunSteps(EMPTY, steps).verdicts, a);
            v.Some? && (Diverges(v.value.result.review) <==> Diverges(MergedReview(EMPTY, steps, a)))
  {
    RunsKeep(EMPTY, steps);
    ClearedVerdict(RunSteps(EMPTY, steps), a);
    var i := StoredFromRun(steps, a);
    ClearedRunDidNotDiverge(i, MergedReview(EMPTY, steps, a));
  }

  // Merging a review never changes an asset's review state, whatever the review says.
  lemma MergeKeepsReviewState(t: Tables, a: Id, r: Review)
    requires Inv(t) && a in t.assets && t.assets[a].status == Completed
    ensures var u := Apply(t, Step.MergeReview(a, r));
            && u.assets == t.assets
            && LatestVerdict(u.verdicts, a).Some? && LatestVerdict(u.verdicts, a).value.result.review == Some(r)
  {
    LatestVerdictExists(t.verdicts, a);
    WithReviewLatest(t.verdicts, a, r, a);
  }

  // Idempotency keys: a key answers with a verdict exactly when its asset is completed.
  lemma KeyAnswersIffCompleted(t: Tables, key: string)
    requires Inv(t)
    ensures FindExisting(t, key).Some? <==> key in t.keys && t.assets[t.keys[key]].status == Completed
  {
    if key in t.keys { LatestVerdictExists(t.verdicts, t.keys[key]); }
  }

  lemma KeysKept(t: Tables, s: Step, key: string)
    requires key in t.keys
    ensures key in Apply(t, s).keys && Apply(t, s).keys[key] == t.keys[key]
  {
  }

  lemma {:induction false} KeysStay(t: Tables, steps: seq<Step>, key: string)
    requires key in t.keys
    ensures key in RunSteps(t, steps).keys && RunSteps(t, steps).keys[key] == t.keys[key]
  {
    if steps != [] {
      KeysStay(t, steps[..|steps| - 1], key);
      KeysKept(RunSteps(t, steps[..|steps| - 1]), steps[|steps| - 1], key);
    }
  }

  // ... and from then on with the same asset and the same verdict, up to the advisory
  // review that was merged last.
  lemma KeyAnswersForever(t: Tables, steps: seq<Step>, key: string)
    requires Inv(t) && FindExisting(t, key).Some?
    ensures var (a, result) := FindExisting(t, key).value;
            FindExisting(RunSteps(t, steps), key) == Some((a, AfterMerge(result, MergedReview(t, steps, a))))
  {
    KeysStay(t, steps, key);
    VerdictIsFinal(t, steps, t.keys[key]);
  }

  // The run of the key's asset has ended without a verdict.
  ghost predicate Spent(t: Tables, key: string) {
    key in t.keys && t.keys[key] !in t.running && !HasVerdict(t, t.keys[key])
  }

  lemma SpentStays(t: Tables, s: Step, key: string)
    requires Inv(t) && Spent(t, key)
    ensures Spent(Apply(t, s), key)
  {
    KeysKept(t, s, key);
    assert t.keys[key] in t.assets;
    if s.MergeReview? && Mergeable(t, s.asset) {
      WithReviewRows(t.verdicts, s.asset, s.review);
      SameVerdictsExist(t, Apply(t, s));
    }
  }

  lemma {:induction false} SpentForever(t: Tables, steps: seq<Step>, key: string)
    requires Inv(t) && Spent(t, key)
    ensures Spent(RunSteps(t, steps), key)
  {
    if steps != [] {
      var n := |steps| - 1;
      SpentForever(t, steps[..n], key);
      RunsKeep(t, steps[..n]);
      SpentStays(RunSteps(t, steps[..n]), steps[n], key);
    }
  }

  // A key whose run failed or was lost never answers, and cannot be submitted again.
  lemma SpentKeyNeverAnswers(t: Tables, steps: seq<Step>, key: string, retry: Id)
    requires Inv(t) && Spent(t, key)
    ensures var u := RunSteps(t, steps);
            FindExisting(u, key) == None && Apply(u, Step.CreateStub(retry, Some(key))) == u
  {
    SpentForever(t, steps, key);
    LatestVerdictExists(RunSteps(t, steps).verdicts, RunSteps(t, steps).keys[key]);
  }

  // Exactly the keys that are not spent can still be answered.
  lemma KeyCanAnswerIff(t: Tables, key: string, v: Id, result: State)
    requires Inv(t) && key in t.keys && Unused(t, v)
    ensures (exists steps: seq<Step> :: FindExisting(RunSteps(t, steps), key).Some?) <==> !Spent(t, key)
  {
    var a := t.keys[key];
    if Spent(t, key) {
      forall steps: seq<Step> ensures FindExisting(RunSteps(t, steps), key) == None {
        SpentKeyNeverAnswers(t, steps, key, v);
      }
    } else if HasVerdict(t, a) {
      LatestVerdictExists(t.verdicts, a);
      assert FindExisting(RunSteps(t, []), key).Some?;
    } else {
      var finish := Step.PersistRun(a, v, result);
      var steps := [finish];
      assert steps[..0] == [];
      LatestSnoc(t.verdicts, VerdictRow(v, a, result), a);
      assert RunSteps(t, steps) == Apply(t, finish);
      assert FindExisting(RunSteps(t, steps), key).Some?;
    }
  }

  /******* Decisions in the reviewer's words *******/

  ghost predicate Decided(t: Tables, u: Tables, a: Id, v: Id, d: Decision, reviewer: string, state: ReviewState) {
    && a in t.assets && u.assets == t.assets[a := t.assets[a].(reviewState := Some(state))]
    && u.decisions == t.decisions + [DecisionRow(a, v, d, Strip(reviewer))]
    && u.audit == t.audit + [AuditRow(a, v, ReviewDecisionEvent)]
    && u.verdicts == t.verdicts && u.keys == t.keys && u.running == t.running
  }

  // On an asset with a verdict, a named reviewer's decision from a known source ends as it
  // says, up to case and blanks; any other word changes nothing.
  lemma DecisionEnds(t: Tables, a: Id, v: VerdictRow, word: string, reviewer: string, source: string)
    requires a in t.assets && LatestVerdict(t.verdicts, a) == Some(v) && Strip(reviewer) != ""
    requires source == "" || Lower(Strip(source)) in {"human_review", "appeal", "platform_feedback"}
    ensures var u, w := Apply(t, Step.Decide(a, word, reviewer, source)), Lower(Strip(word));
            && (w == "approved" ==> Decided(t, u, a, v.id, Approved, reviewer, FinalApproved))
            && (w == "rejected" ==> Decided(t, u, a, v.id, Rejected, reviewer, FinalRejected))
            && (w == "needs_changes" ==> Decided(t, u, a, v.id, NeedsChanges, reviewer, FinalNeedsChanges))
            && (w !in {"approved", "rejected", "needs_changes"} ==> u == t)
  {
    assert |"approved"| == |"rejected"| == 8 && |"needs_changes"| == 13 && "approved"[0] != "rejected"[0];
    assert Strip("human_review") == "human_review" && Lower("human_review") == "human_review";
  }

  // From any other source, or without a reviewer's name, no decision is recorded.
  lemma DecisionRefused(t: Tables, a: Id, word: string, reviewer: string, source: string)
    requires Strip(reviewer) == ""
          || (source != "" && Lower(Strip(source)) !in {"human_review", "appeal", "platform_feedback"})
    ensures Apply(t, Step.Decide(a, word, reviewer, source)) == t
  {
  }
}
