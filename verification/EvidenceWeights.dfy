/**
  How evidence weighs: from a rule's severity through a violation to its part of the
  risk score (engine.py, lines 17 and 192-193, against verdict_service.py, lines 144-201).
 */
module EvidenceWeights {
  import opened Options
  import opened Sequences
  import opened StableSort
  import opened Signals
  import opened Dsl
  import opened LegacyRules
  import opened Violations
  import opened Engine
  import opened Scoring

  // The severity a rule asks for.
  function RuleSeverity(r: Rule): Severity {
    match r.severity
    case None => High
    case Some(s) =>
      if s == "LOW" then Low
      else if s == "HIGH" then High
      else if s == "CRITICAL" then Critical
      else Medium  // an unknown name weighs 0.5
  }

  // The scorer recovers a rule's severity from the number the engine wrote.
  lemma SeverityRoundTrip(r: Rule)
    ensures SeverityName(SeverityFloat(r)) == RuleSeverity(r)
  {
  }

  // The weight a piece of evidence has, in tenths of the rule's points: an object counts
  // in full, an image similarity least, a text match by its confidence.
  function Weight(v: Violation): nat {
    match v.evidence
    case VisionObject(_, _) => 10
    case EmbeddingSimilarity(_) => 3
    case TextMatch(_, _, _, _, _) => ConfidenceTenths(BestConfidence(v))
  }

  ghost predicate Weighed(e: Entry, vs: seq<Violation>) {
    forall v :: v in vs ==> Contribution(v) == SeverityPoints(RuleSeverity(e.rule)) * Weight(v)
  }

  lemma ReportsWeighed<T>(e: Entry, s: seq<T>, f: T -> seq<Violation>)
    requires forall x :: x in s ==> Weighed(e, f(x))
    ensures Weighed(e, FlatMap(s, f))
  {
    FlatMapMembers(s, f);
  }

  lemma MatchesWeighed(e: Entry, i: Input, matches: seq<Match>)
    ensures Weighed(e, FlatMap(matches, MatchViolation(e, i)))
  {
    SeverityRoundTrip(e.rule);
    ReportsWeighed(e, matches, MatchViolation(e, i));
  }

  lemma RescanWeighed(re: Search, e: Entry, i: Input)
    ensures Weighed(e, Rescan(re, e, i))
  {
    SeverityRoundTrip(e.rule);
    if i.document.None? {
      ReportsWeighed(e, Keep(i.signals, IsTextSignal), RescanViolation(re, e));
    }
  }

  lemma ObjectsWeighed(e: Entry, i: Input, objects: seq<Signal>)
    ensures Weighed(e, FlatMap(objects, ObjectViolation(e, i)))
  {
    SeverityRoundTrip(e.rule);
    ReportsWeighed(e, objects, ObjectViolation(e, i));
  }

  lemma EmbeddingsWeighed(t: Tables, e: Entry, i: Input)
    ensures Weighed(e, EmbeddingPart(t, e, i))
  {
    SeverityRoundTrip(e.rule);
    if e.id in t.embeddingRules {
      ReportsWeighed(e, Keep(i.signals, IsEmbedding(t.embeddingRules[e.id])), EmbeddingViolation(e, i));
    }
  }

  lemma SupportWeighed(t: Tables, e: Entry, i: Input)
    ensures Weighed(e, SupportPart(t, e, i))
  {
    if e.id in t.visionSupport {
      ObjectsWeighed(e, i, Keep(Keep(i.signals, IsVisionObject), CarriesLabel(t.visionSupport[e.id])));
    }
  }

  // Main theorem: every violation a rule assembles adds its severity's points times its
  // evidence's weight.
  lemma EvidenceCountsByKind(re: Search, t: Tables, e: Entry, i: Input)
    ensures Weighed(e, Assembled(re, t, e, i))
  {
    MatchesWeighed(e, i, TextMatches(re, e, i));
    ObjectsWeighed(e, i, VisionMatches(e, i));
    RescanWeighed(re, e, i);
    EmbeddingsWeighed(t, e, i);
    SupportWeighed(t, e, i);
  }

  /******* One object can decide *******/

  lemma {:induction false} TotalAtLeast(vs: seq<Violation>, v: Violation)
    requires v in vs
    ensures Total(vs) >= Contribution(v)
  {
    var n := |vs| - 1;
    if v in vs[..n] {
      TotalAtLeast(vs[..n], v);
    } else {
      assert vs == vs[..n] + [vs[n]];
    }
  }

  lemma ObjectReported(re: Search, t: Tables, pack: seq<Entry>, i: Input, active: Option<set<string>>, e: Entry,
                       seen: Signal)
    requires e in pack && Active(active, e.id) && seen in VisionMatches(e, i)
    ensures ObjectViolation(e, i)(seen)[0] in Expected(re, t, pack, i, active)
  {
    var v := ObjectViolation(e, i)(seen)[0];
    FlatMapMembers(VisionMatches(e, i), ObjectViolation(e, i));
    assert v in ObjectViolation(e, i)(seen);
    assert v in Assembled(re, t, e, i);
    FlatMapMembers(pack, Output(re, t, i, active));
    assert v in Output(re, t, i, active)(e);
  }

  lemma FullScore(expected: seq<Violation>, vs: seq<Violation>, v: Violation)
    requires multiset(vs) == multiset(expected) && v in expected && Contribution(v) >= MAX_SCORE
    ensures RiskScore(vs) == MAX_SCORE && DetermineStatus(RiskScore(vs)) == NonCompliant
  {
    SameElements(vs, expected);
    TotalAtLeast(vs, v);
  }

  lemma CriticalContribution(e: Entry, i: Input, seen: Signal)
    requires e.rule.severity == Some("CRITICAL")
    ensures Contribution(ObjectViolation(e, i)(seen)[0]) >= MAX_SCORE
  {
    SeverityRoundTrip(e.rule);
    assert RuleSeverity(e.rule) == Critical;
  }

  // An object that carries a primary label of an active critical rule alone gives the full
  // score and makes the engine's status NON_COMPLIANT, whatever else was found and in any
  // order; an escalation may still show it as REVIEW_REQUIRED.
  lemma CriticalObjectRejects(re: Search, t: Tables, pack: seq<Entry>, i: Input, active: Option<set<string>>, e: Entry,
                              seen: Signal, violations: seq<Violation>)
    requires e in pack && Active(active, e.id) && e.rule.severity == Some("CRITICAL")
    requires seen in VisionMatches(e, i)
    requires multiset(violations) == multiset(Expected(re, t, pack, i, active))
    ensures RiskScore(violations) == MAX_SCORE && DetermineStatus(RiskScore(violations)) == NonCompliant
  {
    ObjectReported(re, t, pack, i, active, e, seen);
    CriticalContribution(e, i, seen);
    FullScore(Expected(re, t, pack, i, active), violations, ObjectViolation(e, i)(seen)[0]);
  }
}
