/**
  From violations to the review queue: degradation (core/pipeline.py, lines 295-452),
  display override (core/verdict_display.py) and routing (services/review_service.py,
  lines 39-60), composed as CompliancePipeline.run composes them.
 */
module Verdict {
  import opened Options
  import opened Text
  import opened Violations
  import opened Scoring

  /******* Data *******/

  datatype Mode = Full | Fast

  datatype Authority = Deterministic | Advisory

  // The advisory review: any JSON record. A missing or empty record is None.
  datatype Review = Review(
    recommendedStatus: Option<string>, recommendedVerdict: Option<string>, agreement: Option<string>)

  datatype Reason =
    | NoReason | NoExtractorSignals | DivergesFromDeterministic
    | AdvisoryUnavailable | AdvisoryAssessment | AdvisoryDivergence | AdvisoryAligned | AdvisoryUnclear

  datatype Metadata = Metadata(
    degraded: map<string, string>,
    engineRan: bool,
    authority: Option<Authority>,
    deterministicStatus: Option<Status>,
    deterministicBand: Option<Band>,
    signalCount: Option<nat>,
    mode: Option<Mode>,
    elevated: bool,
    reason: Reason)

  // The verdict dictionary as a value.
  datatype State = State(status: Status, band: Band, score: nat, review: Option<Review>, meta: Metadata)

  const NO_METADATA := Metadata(map[], false, None, None, None, None, None, false, NoReason)

  /******* Each stage as a function on states *******/

  // VerdictService.generate
  function Generated(vs: seq<Violation>): State {
    var score := RiskScore(vs);
    State(DetermineStatus(score), DetermineBand(score), score, None, NO_METADATA)
  }

  // An engine that is off leaves the verdict to the advisory; a failed extractor
  // means incomplete coverage, so a clean result is not trusted.
  function Degraded(g: State, engineOn: bool, failed: map<string, string>): State {
    var s := if engineOn then g else g.(status := PendingAdvisory, band := PendingAdvisoryBand);
    var degraded := failed != map[];
    s.(status := if degraded && s.status == Compliant then ReviewRequired else s.status,
       band := if degraded && s.band == LikelyApprovedBand then BorderlineBand else s.band,
       meta := s.meta.(degraded := failed, engineRan := engineOn, mode := Some(Full),
                       authority := Some(if engineOn then Deterministic else Advisory)))
  }

  // CompliancePipeline._run_deterministic_core, from the policy engine's output on
  function DeterministicCore(vs: seq<Violation>, engineOn: bool, failed: map<string, string>): State {
    Degraded(Generated(if engineOn then vs else []), engineOn, failed)
  }

  // CompliancePipeline._run_fast_precore
  function FastPrecore(): State {
    Generated([]).(status := PendingAdvisory, band := PendingAdvisoryBand,
                   meta := NO_METADATA.(mode := Some(Fast), authority := Some(Advisory)))
  }

  // str(value or default).strip()
  function Field(value: Option<string>, default: string): string {
    Strip(if value.GetOr("") == "" then default else value.value)
  }

  datatype Display = Display(status: Status, band: Band, reason: Reason, elevated: bool)

  function StatusAdvice(s: string): Option<(Status, Band)> {
    if s == "COMPLIANT" then Some((Compliant, LikelyApprovedBand))
    else if s == "REVIEW_REQUIRED" then Some((ReviewRequired, BorderlineBand))
    else if s == "LIKELY_REJECTED" || s == "REJECTED" then Some((LikelyRejected, LikelyRejectedBand))
    else None
  }

  function BandAdvice(s: string): Option<Band> {
    if s == "likely_approved" then Some(LikelyApprovedBand)
    else if s == "borderline" then Some(BorderlineBand)
    else if s == "likely_rejected" then Some(LikelyRejectedBand)
    else None
  }

  function Agreement(r: Option<Review>): string {
    Lower(Field(if r.Some? then r.value.agreement else None, "unclear"))
  }

  // The advisory said "diverges".
  predicate Diverges(r: Option<Review>) {
    Agreement(r) == "diverges"
  }

  // _display_from_advisory
  function DisplayFromAdvisory(r: Option<Review>): Display {
    if r.None? then Display(ReviewRequired, BorderlineBand, AdvisoryUnavailable, true)
    else
      match StatusAdvice(Upper(Field(r.value.recommendedStatus, "")))
      case Some((status, band)) =>
        Display(status, BandAdvice(Lower(Field(r.value.recommendedVerdict, ""))).GetOr(band), AdvisoryAssessment, false)
      case None =>
        if Agreement(r) == "diverges" then Display(ReviewRequired, BorderlineBand, AdvisoryDivergence, true)
        else if Agreement(r) == "aligns" then Display(Compliant, LikelyApprovedBand, AdvisoryAligned, false)
        else Display(ReviewRequired, BorderlineBand, AdvisoryUnclear, true)
  }

  // The escalation of a deterministic verdict.
  function DisplayDeterministic(s: State, signalCount: nat): Display {
    if signalCount == 0 then Display(ReviewRequired, BorderlineBand, NoExtractorSignals, true)
    else if Diverges(s.review) then Display(ReviewRequired, BorderlineBand, DivergesFromDeterministic, true)
    else Display(s.status, s.band, NoReason, false)
  }

  // apply_display_verdict
  function Displayed(s: State, signalCount: nat, mode: Mode, engineRan: bool): State {
    var advisoryPrimary := mode == Fast || !engineRan;
    var d := if advisoryPrimary then DisplayFromAdvisory(s.review) else DisplayDeterministic(s, signalCount);
    s.(status := d.status, band := d.band,
       meta := s.meta.(
         engineRan := engineRan,
         authority := Some(if advisoryPrimary then Advisory else Deterministic),
         deterministicStatus := Some(s.status), deterministicBand := Some(s.band),
         signalCount := Some(signalCount), mode := Some(mode),
         elevated := d.elevated, reason := d.reason))
  }

  datatype ReviewState = PendingReview | FinalApproved | FinalRejected | FinalNeedsChanges

  // review_state_for_verdict: None means auto-cleared.
  function ReviewStateForVerdict(s: State): Option<ReviewState> {
    if s.meta.degraded != map[] then Some(PendingReview)
    else if s.status in {ReviewRequired, NonCompliant, LikelyRejected, PendingAdvisory} then Some(PendingReview)
    else if s.band in {BorderlineBand, LikelyRejectedBand, PendingAdvisoryBand} then Some(PendingReview)
    else if s.meta.authority == Some(Advisory) then Some(PendingReview)
    else None
  }

  // Exactly what needs no human: an undegraded COMPLIANT, likely approved verdict that is not
  // the advisory's alone. Anything else is queued.
  lemma QueuedIff(s: State)
    ensures ReviewStateForVerdict(s) in {None, Some(PendingReview)}
    ensures ReviewStateForVerdict(s) == None
       <==> s.meta.degraded == map[] && s.status == Compliant && s.band == LikelyApprovedBand
            && s.meta.authority != Some(Advisory)
  {
  }

  // A whole run. In fast mode no extractor runs, so there are no signals and no failures.
  datatype RunInput = RunInput(
    mode: Mode, engineOn: bool, failed: map<string, string>, signalCount: nat,
    violations: seq<Violation>, review: Option<Review>)

  function RunState(i: RunInput): State {
    var core := if i.mode == Fast then FastPrecore() else DeterministicCore(i.violations, i.engineOn, i.failed);
    Displayed(core.(review := i.review), if i.mode == Fast then 0 else i.signalCount, i.mode, core.meta.engineRan)
  }

  /******* The same run on a mutable verdict *******/

  class VerdictRecord {
    var status: Status
    var band: Band
    var score: nat
    var review: Option<Review>
    var meta: Metadata

    ghost function Value(): State
      reads this
    {
      State(status, band, score, review, meta)
    }

    // VerdictService.generate
    constructor Generate(vs: seq<Violation>)
      ensures Value() == Generated(vs)
    {
      var total := CalculateRiskScore(vs);
      score := total;
      status := DetermineStatus(total);
      band := DetermineBand(total);
      review := None;
      meta := NO_METADATA;
    }

    // Lines 413-443 of core/pipeline.py
    method Degrade(engineOn: bool, failed: map<string, string>)
      modifies this
      ensures Value() == Degraded(old(Value()), engineOn, failed)
    {
      if !engineOn {
        status := PendingAdvisory;
        band := PendingAdvisoryBand;
      }
      if failed != map[] {
        if status == Compliant { status := ReviewRequired; }
        if band == LikelyApprovedBand { band := BorderlineBand; }
      }
      meta := meta.(degraded := failed);
      meta := meta.(mode := Some(Full));
      meta := meta.(engineRan := engineOn);
      meta := meta.(authority := Some(if engineOn then Deterministic else Advisory));
    }

    // apply_display_verdict
    method ApplyDisplayVerdict(signalCount: nat, mode: Mode, engineRan: bool)
      modifies this
      ensures Value() == Displayed(old(Value()), signalCount, mode, engineRan)
    {
      var advisoryPrimary := mode == Fast || !engineRan;
      meta := meta.(deterministicStatus := Some(status), deterministicBand := Some(band),
                    signalCount := Some(signalCount), mode := Some(mode), engineRan := engineRan,
                    authority := Some(if advisoryPrimary then Advisory else Deterministic));
      if advisoryPrimary {
        var d := DisplayFromAdvisory(review);
        meta := meta.(elevated := d.elevated, reason := d.reason);
        status, band := d.status, d.band;
      } else if signalCount == 0 {
        meta := meta.(elevated := true, reason := NoExtractorSignals);
        status, band := ReviewRequired, BorderlineBand;
      } else if Agreement(review) == "diverges" {
        meta := meta.(elevated := true, reason := DivergesFromDeterministic);
        status, band := ReviewRequired, BorderlineBand;
      } else {
        meta := meta.(elevated := false, reason := NoReason);
      }
    }
  }

  // CompliancePipeline.run, up to the review state that is stored.
  method Run(i: RunInput) returns (v: VerdictRecord, reviewState: Option<ReviewState>)
    ensures fresh(v) && v.Value() == RunState(i)
    ensures reviewState == ReviewStateForVerdict(RunState(i))
  {
    var signalCount := i.signalCount;
    if i.mode == Fast {
      signalCount := 0;
      v := new VerdictRecord.Generate([]);
      v.status, v.band := PendingAdvisory, PendingAdvisoryBand;
      v.meta := v.meta.(mode := Some(Fast), authority := Some(Advisory));
    } else {
      v := new VerdictRecord.Generate(if i.engineOn then i.violations else []);
      v.Degrade(i.engineOn, i.failed);
    }
    v.review := i.review;
    v.ApplyDisplayVerdict(signalCount, i.mode, v.meta.engineRan);
    reviewState := ReviewStateForVerdict(State(v.status, v.band, v.score, v.review, v.meta));
  }

  /******* What a run guarantees *******/

  // Main theorem: when exactly a finished run is cleared without a human.
  lemma AutoClearedIff(i: RunInput)
    ensures ReviewStateForVerdict(RunState(i)) == None
       <==> && i.mode == Full
            && i.engineOn
            && i.failed == map[]
            && i.signalCount > 0
            && i.violations == []
            && !Diverges(i.review)
  {
    CompliantIffNoViolations(i.violations);
  }

  function Severe(s: Status): nat {
    match s
    case Compliant => 0
    case PendingAdvisory => 1
    case ReviewRequired => 2
    case LikelyRejected => 3
    case NonCompliant => 3
  }

  // The shown status of an engine run is never milder than the engine's own, except
  // that an escalation shows NON_COMPLIANT as REVIEW_REQUIRED.
  lemma ShownNeverMilderIff(i: RunInput)
    requires i.mode == Full && i.engineOn
    ensures Severe(RunState(i).status) >= Severe(DeterministicCore(i.violations, true, i.failed).status)
       <==> !((i.signalCount == 0 || Diverges(i.review)) && RiskScore(i.violations) >= NON_COMPLIANT_THRESHOLD)
  {
  }

  // The engine's own verdict is kept beside the shown one, whatever the advisory says.
  lemma DeterministicOutcomeKept(i: RunInput)
    requires i.mode == Full && i.engineOn
    ensures var core := DeterministicCore(i.violations, true, i.failed);
            var s := RunState(i);
            && s.meta.deterministicStatus == Some(core.status)
            && s.meta.deterministicBand == Some(core.band)
            && s.score == RiskScore(i.violations)
            && s.meta.degraded == i.failed
            && (s.meta.elevated <==> i.signalCount == 0 || Diverges(i.review))
  {
  }

  // A band that the advisory names itself.
  predicate NamesBand(r: Review, word: string) {
    r.recommendedVerdict.Some? && Lower(Strip(r.recommendedVerdict.value)) == word
  }

  // A status that the advisory recommends, up to case and blanks.
  predicate Recommends(r: Review, word: string) {
    r.recommendedStatus.Some? && Upper(Strip(r.recommendedStatus.value)) == word
  }

  predicate Agrees(r: Review, word: string) {
    r.agreement.Some? && Lower(Strip(r.agreement.value)) == word
  }

  // The recommended status is shown, with the band the advisory names or else its own.
  ghost predicate ShownAs(d: Display, r: Review, status: Status, band: Band) {
    && d.status == status
    && (NamesBand(r, "likely_approved") ==> d.band == LikelyApprovedBand)
    && (NamesBand(r, "borderline") ==> d.band == BorderlineBand)
    && (NamesBand(r, "likely_rejected") ==> d.band == LikelyRejectedBand)
    && (!NamesBand(r, "likely_approved") && !NamesBand(r, "borderline") && !NamesBand(r, "likely_rejected") ==>
          d.band == band)
  }

  predicate RecommendsNothing(r: Review) {
    !Recommends(r, "COMPLIANT") && !Recommends(r, "REVIEW_REQUIRED") && !Recommends(r, "LIKELY_REJECTED")
    && !Recommends(r, "REJECTED")
  }

  lemma AdvisoryRead(r: Review)
    ensures var d := DisplayFromAdvisory(Some(r));
            && (Recommends(r, "COMPLIANT") ==> ShownAs(d, r, Compliant, LikelyApprovedBand))
            && (Recommends(r, "REVIEW_REQUIRED") ==> ShownAs(d, r, ReviewRequired, BorderlineBand))
            && (Recommends(r, "LIKELY_REJECTED") ==> ShownAs(d, r, LikelyRejected, LikelyRejectedBand))
            && (Recommends(r, "REJECTED") ==> ShownAs(d, r, LikelyRejected, LikelyRejectedBand))
            && (RecommendsNothing(r) ==>
                  if Agrees(r, "aligns") then d.status == Compliant && d.band == LikelyApprovedBand
                  else d.status == ReviewRequired && d.band == BorderlineBand)
  {
    AdvisoryFields(r);
  }

  // What a run shows when the advisory is its authority: the recommended status, with the
  // band that the advisory names; without a recommendation, whether it agrees; without an
  // advisory, a case for review.
  lemma AdvisoryShown(i: RunInput)
    requires i.mode == Fast || !i.engineOn
    ensures exists d: Display ::
              && RunState(i).status == d.status && RunState(i).band == d.band
              && (i.review.None? ==> d.status == ReviewRequired && d.band == BorderlineBand)
              && (i.review.Some? ==>
                    var r := i.review.value;
                    && (Recommends(r, "COMPLIANT") ==> ShownAs(d, r, Compliant, LikelyApprovedBand))
                    && (Recommends(r, "REVIEW_REQUIRED") ==> ShownAs(d, r, ReviewRequired, BorderlineBand))
                    && (Recommends(r, "LIKELY_REJECTED") ==> ShownAs(d, r, LikelyRejected, LikelyRejectedBand))
                    && (Recommends(r, "REJECTED") ==> ShownAs(d, r, LikelyRejected, LikelyRejectedBand))
                    && (RecommendsNothing(r) ==>
                          if Agrees(r, "aligns") then d.status == Compliant && d.band == LikelyApprovedBand
                          else d.status == ReviewRequired && d.band == BorderlineBand))
  {
    var d := DisplayFromAdvisory(i.review);
    if i.review.Some? { AdvisoryRead(i.review.value); }
    assert RunState(i).status == d.status && RunState(i).band == d.band;
  }

  lemma EmptyFields()
    ensures Upper(Strip("")) == Lower(Strip("")) == "" && Lower(Strip("unclear")) == "unclear"
  {
    assert Strip("") == "" && Strip("unclear") == "unclear";
  }

  lemma AdvisoryFields(r: Review)
    ensures forall w: string :: w != "" ==> (Upper(Field(r.recommendedStatus, "")) == w <==> Recommends(r, w))
    ensures forall w: string :: w != "" ==> (Lower(Field(r.recommendedVerdict, "")) == w <==> NamesBand(r, w))
    ensures Agreement(Some(r)) == "aligns" <==> Agrees(r, "aligns")
    ensures Agreement(Some(r)) == "diverges" <==> Agrees(r, "diverges")
  {
    EmptyFields();
    assert |"unclear"| == 7 && |"aligns"| == 6 && |"diverges"| == 8;
  }

  // What a run shows when the engine is its authority: the engine's outcome, unless there
  // are no signals or the advisory says that it diverges.
  lemma DeterministicShown(i: RunInput)
    requires i.mode == Full && i.engineOn
    ensures var s, core := RunState(i), DeterministicCore(i.violations, true, i.failed);
            if i.signalCount == 0 || (i.review.Some? && Agrees(i.review.value, "diverges"))
            then s.status == ReviewRequired && s.band == BorderlineBand
            else s.status == core.status && s.band == core.band
    ensures ReviewStateForVerdict(RunState(i)) in {None, Some(PendingReview)}
  {
    EmptyFields();
    assert |"unclear"| == 7 && |"diverges"| == 8;
    if i.review.Some? { AdvisoryFields(i.review.value); }
  }

  // What is kept of the stages before the display, with the reason for what is shown.
  lemma StagesKept(i: RunInput)
    ensures var m, score := RunState(i).meta, RiskScore(i.violations);
            if i.mode == Fast || !i.engineOn then
              && m.deterministicStatus == Some(PendingAdvisory) && m.deterministicBand == Some(PendingAdvisoryBand)
              && m.authority == Some(Advisory) && !m.engineRan && RunState(i).score == 0
            else
              && m.authority == Some(Deterministic) && m.engineRan
              && m.deterministicStatus
                 == Some(if score >= 700 then NonCompliant
                         else if score == 0 && i.failed == map[] then Compliant else ReviewRequired)
              && m.deterministicBand
                 == Some(if score >= 700 then LikelyRejectedBand
                         else if score < 300 && i.failed == map[] then LikelyApprovedBand else BorderlineBand)
    ensures var m := RunState(i).meta;
            && m.mode == Some(i.mode) && m.signalCount == Some(if i.mode == Fast then 0 else i.signalCount)
            && m.degraded == (if i.mode == Fast then map[] else i.failed)
  {
  }

  // Why the shown outcome is what it is.
  lemma ReasonsKept(i: RunInput)
    ensures var m := RunState(i).meta;
            if i.mode == Full && i.engineOn then
              if i.signalCount == 0 then m.elevated && m.reason == NoExtractorSignals
              else if i.review.Some? && Agrees(i.review.value, "diverges") then
                m.elevated && m.reason == DivergesFromDeterministic
              else !m.elevated && m.reason == NoReason
            else if i.review.None? then m.elevated && m.reason == AdvisoryUnavailable
            else if !RecommendsNothing(i.review.value) then !m.elevated && m.reason == AdvisoryAssessment
            else if Agrees(i.review.value, "diverges") then m.elevated && m.reason == AdvisoryDivergence
            else if Agrees(i.review.value, "aligns") then !m.elevated && m.reason == AdvisoryAligned
            else m.elevated && m.reason == AdvisoryUnclear
  {
    EmptyFields();
    assert |"unclear"| == 7 && |"diverges"| == 8 && |"aligns"| == 6;
    if i.review.Some? { AdvisoryFields(i.review.value); }
  }

  // The order of the violations does not show.
  lemma RunOrderFree(i: RunInput, j: RunInput)
    requires j == i.(violations := j.violations) && multiset(i.violations) == multiset(j.violations)
    ensures RunState(i) == RunState(j)
  {
    ScoreOrderFree(i.violations, j.violations);
  }
}
