/**
  The points of the scoring rules, in literal numbers (services/verdict_service.py, lines
  18-27 and 144-215): what one violation adds, from its rule's severity name and the
  confidences written in it, and what any list of violations comes to. Scores are in
  tenths of a point.
 */
module ScorePoints {
  import opened Options
  import opened StableSort
  import opened Dsl
  import opened LegacyRules
  import opened Sequences
  import opened Signals
  import opened Violations
  import opened Engine
  import opened Scoring
  import opened Verdict
  import EngineMeaning

  /******* What one violation adds *******/

  // The confidence that is read: the match's, else the signal's, else 0.8.
  function Confidence(v: Violation): real {
    if v.confidence != 0.0 then v.confidence
    else if v.signalConfidence != 0.0 then v.signalConfidence
    else 0.8
  }

  // With v the list scores so much more: above 0.9, from 0.7 to 0.9, below 0.7.
  predicate Adds(vs: seq<Violation>, v: Violation, high: nat, middle: nat, low: nat) {
    && (Confidence(v) > 0.9 ==> Total(vs + [v]) == Total(vs) + high)
    && (0.7 <= Confidence(v) <= 0.9 ==> Total(vs + [v]) == Total(vs) + middle)
    && (Confidence(v) < 0.7 ==> Total(vs + [v]) == Total(vs) + low)
  }

  lemma AddsItsContribution(vs: seq<Violation>, v: Violation)
    ensures Total(vs + [v]) == Total(vs) + Contribution(v)
  {
    assert (vs + [v])[..|vs|] == vs;
  }

  lemma PointsOfRule(r: Rule) returns (points: nat)
    ensures points == SeverityPoints(SeverityName(SeverityFloat(r)))
    ensures r.severity == Some("LOW") ==> points == 5
    ensures r.severity == Some("HIGH") || r.severity == None ==> points == 50
    ensures r.severity == Some("CRITICAL") ==> points == 100
    ensures r.severity.Some? && r.severity.value !in {"LOW", "HIGH", "CRITICAL"} ==> points == 20
  {
    assert |"LOW"| == 3 && |"MEDIUM"| == 6 && |"HIGH"| == 4 && |"CRITICAL"| == 8;
    points := SeverityPoints(SeverityName(SeverityFloat(r)));
  }

  lemma AddsByPoints(vs: seq<Violation>, v: Violation, points: nat)
    requires points == SeverityPoints(SeverityName(v.severity))
    ensures Adds(vs, v, 10 * points, 7 * points, 3 * points)
  {
    AddsItsContribution(vs, v);
  }

  // A rule that names no severity counts as HIGH, one that names an unknown one as MEDIUM.
  lemma PointsOfOne(vs: seq<Violation>, v: Violation, r: Rule)
    requires v.severity == SeverityFloat(r)
    ensures r.severity == Some("LOW") ==> Adds(vs, v, 50, 35, 15)
    ensures r.severity == Some("MEDIUM") ==> Adds(vs, v, 200, 140, 60)
    ensures r.severity == Some("HIGH") || r.severity == None ==> Adds(vs, v, 500, 350, 150)
    ensures r.severity == Some("CRITICAL") ==> Adds(vs, v, 1000, 700, 300)
    ensures r.severity.Some? && r.severity.value !in {"LOW", "MEDIUM", "HIGH", "CRITICAL"} ==> Adds(vs, v, 200, 140, 60)
  {
    var points := PointsOfRule(r);
    AddsByPoints(vs, v, points);
  }

  /******* What a list comes to *******/

  // What the scorer is told: a severity name and a confidence.
  datatype Finding = Finding(severity: Option<string>, confidence: real)

  // The published table: points by severity, times 1.0, 0.7 or 0.3 by confidence.
  function Tenths(f: Finding): nat {
    var points :=
      match f.severity
      case None => 50
      case Some(name) =>
        if name == "CRITICAL" then 100 else if name == "HIGH" then 50 else if name == "LOW" then 5 else 20;
    points * (if f.confidence > 0.9 then 10 else if f.confidence >= 0.7 then 7 else 3)
  }

  function Sum(fs: seq<Finding>): nat {
    if fs == [] then 0 else Sum(fs[..|fs| - 1]) + Tenths(fs[|fs| - 1])
  }

  // The violation was found by a rule of that severity, with that confidence.
  ghost predicate Tells(v: Violation, f: Finding) {
    Confidence(v) == f.confidence && exists r: Rule :: r.severity == f.severity && v.severity == SeverityFloat(r)
  }

  ghost predicate TellAll(vs: seq<Violation>, fs: seq<Finding>) {
    |vs| == |fs| && forall k :: 0 <= k < |vs| ==> Tells(vs[k], fs[k])
  }

  lemma OneTenths(vs: seq<Violation>, v: Violation, f: Finding)
    requires Tells(v, f)
    ensures Total(vs + [v]) == Total(vs) + Tenths(f)
  {
    var r: Rule :| r.severity == f.severity && v.severity == SeverityFloat(r);
    PointsOfOne(vs, v, r);
  }

  lemma {:induction false} TotalIsSum(vs: seq<Violation>, fs: seq<Finding>)
    requires TellAll(vs, fs)
    ensures Total(vs) == Sum(fs)
  {
    if vs != [] {
      var n := |vs| - 1;
      TotalIsSum(vs[..n], fs[..n]);
      OneTenths(vs[..n], vs[n], fs[n]);
      assert vs == vs[..n] + [vs[n]];
    }
  }

  // Main theorem: the score is the sum, capped at 100 points. The engine's status is
  // NON_COMPLIANT from 70 points on and COMPLIANT only without violations, and its verdict
  // is borderline from 30 points on and likely rejected from 70 on.
  lemma ScoreInPoints(vs: seq<Violation>, fs: seq<Finding>)
    requires TellAll(vs, fs)
    ensures RiskScore(vs) == if Sum(fs) <= 1000 then Sum(fs) else 1000
    ensures var s := Generated(vs);
            && s.score == RiskScore(vs)
            && (s.status == NonCompliant <==> Sum(fs) >= 700)
            && (s.status == Compliant <==> vs == [])
            && (s.status == ReviewRequired <==> vs != [] && Sum(fs) < 700)
            && (s.band == LikelyRejectedBand <==> Sum(fs) >= 700)
            && (s.band == BorderlineBand <==> 300 <= Sum(fs) < 700)
            && (s.band == LikelyApprovedBand <==> Sum(fs) < 300)
  {
    TotalIsSum(vs, fs);
    CompliantIffNoViolations(vs);
  }

  // What a full run with a working engine and working extractors keeps as its own outcome.
  lemma RunInPoints(i: RunInput, fs: seq<Finding>)
    requires i.mode == Full && i.engineOn && i.failed == map[] && TellAll(i.violations, fs)
    ensures var s := RunState(i);
            && s.score == (if Sum(fs) <= 1000 then Sum(fs) else 1000)
            && (s.meta.deterministicStatus == Some(NonCompliant) <==> Sum(fs) >= 700)
            && (s.meta.deterministicBand == Some(LikelyRejectedBand) <==> Sum(fs) >= 700)
            && (s.meta.deterministicBand == Some(BorderlineBand) <==> 300 <= Sum(fs) < 700)
            && (s.meta.deterministicBand == Some(LikelyApprovedBand) <==> Sum(fs) < 300)
  {
    ScoreInPoints(i.violations, fs);
    DeterministicOutcomeKept(i);
  }

  /******* The violations of a run tell their rules' severities *******/

  ghost predicate SeverityOf(e: Entry, vs: seq<Violation>) {
    forall v :: v in vs ==> v.severity == SeverityFloat(e.rule)
  }

  lemma ReportsSeverity<T>(e: Entry, s: seq<T>, f: T -> seq<Violation>)
    requires forall x :: x in s ==> SeverityOf(e, f(x))
    ensures SeverityOf(e, FlatMap(s, f))
  {
    FlatMapMembers(s, f);
  }

  lemma SupportSeverity(t: Tables, e: Entry, i: Input)
    ensures SeverityOf(e, SupportPart(t, e, i)) && SeverityOf(e, EmbeddingPart(t, e, i))
  {
    if e.id in t.visionSupport {
      ReportsSeverity(e, Keep(Keep(i.signals, IsVisionObject), CarriesLabel(t.visionSupport[e.id])),
                      ObjectViolation(e, i));
    }
    if e.id in t.embeddingRules {
      ReportsSeverity(e, Keep(i.signals, IsEmbedding(t.embeddingRules[e.id])), EmbeddingViolation(e, i));
    }
  }

  lemma AssembledSeverity(re: Search, t: Tables, e: Entry, i: Input)
    ensures SeverityOf(e, Assembled(re, t, e, i))
  {
    EngineMeaning.FourParts(re, t, e, i);
    ReportsSeverity(e, TextMatches(re, e, i), MatchViolation(e, i));
    ReportsSeverity(e, VisionMatches(e, i), ObjectViolation(e, i));
    SupportSeverity(t, e, i);
  }

  // Every violation was found by the rule of the pack that it names, at that rule's severity.
  lemma FoundAtSeverity(re: Search, t: Tables, pack: seq<Entry>, i: Input, active: Option<set<string>>, v: Violation)
    requires v in Expected(re, t, pack, i, active)
    ensures exists e :: e in pack && e.id == v.ruleId && v.severity == SeverityFloat(e.rule)
  {
    FlatMapMembers(pack, Output(re, t, i, active));
    var e :| e in pack && v in Output(re, t, i, active)(e);
    AssembledSeverity(re, t, e, i);
    EngineMeaning.AssembledIds(re, t, e, i);
  }

  // The finding is that of the rule which v names.
  ghost predicate ToldBy(pack: seq<Entry>, v: Violation, f: Finding) {
    exists e :: e in pack && e.id == v.ruleId && v.severity == SeverityFloat(e.rule)
                && f == Finding(e.rule.severity, Confidence(v))
  }

  ghost predicate Tellable(pack: seq<Entry>, v: Violation) {
    exists f :: ToldBy(pack, v, f) && Tells(v, f)
  }

  lemma {:induction false} TellEach(pack: seq<Entry>, vs: seq<Violation>) returns (fs: seq<Finding>)
    requires forall v :: v in vs ==> Tellable(pack, v)
    ensures TellAll(vs, fs) && forall k :: 0 <= k < |vs| ==> ToldBy(pack, vs[k], fs[k])
  {
    fs := [];
    if vs != [] {
      var n := |vs| - 1;
      fs := TellEach(pack, vs[..n]);
      assert Tellable(pack, vs[n]);
      var last :| ToldBy(pack, vs[n], last) && Tells(vs[n], last);
      fs := fs + [last];
    }
  }

  // So the violations of any run tell the severities of the rules that they name.
  lemma RunTold(re: Search, t: Tables, pack: seq<Entry>, i: Input, active: Option<set<string>>, vs: seq<Violation>)
    returns (fs: seq<Finding>)
    requires multiset(vs) == multiset(Expected(re, t, pack, i, active))
    ensures TellAll(vs, fs) && forall k :: 0 <= k < |vs| ==> ToldBy(pack, vs[k], fs[k])
  {
    SameElements(vs, Expected(re, t, pack, i, active));
    forall v | v in vs ensures Tellable(pack, v) {
      FoundAtSeverity(re, t, pack, i, active, v);
      var e :| e in pack && e.id == v.ruleId && v.severity == SeverityFloat(e.rule);
      var f := Finding(e.rule.severity, Confidence(v));
      assert ToldBy(pack, v, f) && Tells(v, f);
    }
    fs := TellEach(pack, vs);
  }

  /******* Severities in order *******/

  lemma HigherNameMorePoints(a: real, b: real)
    requires a <= b <= 1.0
    ensures SeverityPoints(SeverityName(a)) <= SeverityPoints(SeverityName(b))
  {
  }

  lemma MoreContribution(v: Violation, severity: real)
    requires v.severity <= severity <= 1.0
    ensures Contribution(v) <= Contribution(v.(severity := severity))
  {
    HigherNameMorePoints(v.severity, severity);
    var c := ConfidenceTenths(BestConfidence(v));
    TimesMonotone(SeverityPoints(SeverityName(v.severity)), SeverityPoints(SeverityName(severity)), c);
  }

  lemma TimesMonotone(a: nat, b: nat, c: nat)
    requires a <= b
    ensures a * c <= b * c
  {
  }

  // Raising the severity of one violation never lowers the score. Above 1.0, which no rule
  // asks for, the scorer goes back to HIGH.
  lemma SeverityMonotone(vs: seq<Violation>, k: nat, severity: real)
    requires k < |vs| && vs[k].severity <= severity <= 1.0
    ensures RiskScore(vs) <= RiskScore(vs[k := vs[k].(severity := severity)])
  {
    var w := vs[k].(severity := severity);
    var ws := vs[k := w];
    TotalRemove(vs, k);
    TotalRemove(ws, k);
    assert ws[..k] == vs[..k] && ws[k + 1..] == vs[k + 1..];
    MoreContribution(vs[k], severity);
  }
}
