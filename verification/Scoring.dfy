/**
  Risk scoring (src/zataone/services/verdict_service.py, lines 15-215).

  Scores are whole numbers of tenths of a point: every contribution is a whole number
  of points times 1.0, 0.7 or 0.3, so rounding to two decimals changes nothing.
 */
module Scoring {
  import opened Violations

  datatype Severity = Low | Medium | High | Critical

  function Abs(x: real): real {
    if x < 0.0 then -x else x
  }

  // _get_severity_value for a numeric severity.
  function SeverityName(sv: real): Severity {
    if Abs(0.2 - sv) < 0.01 then Low
    else if Abs(0.4 - sv) < 0.01 then Medium
    else if Abs(0.7 - sv) < 0.01 then High
    else if Abs(1.0 - sv) < 0.01 then Critical
    else if sv >= 0.7 then High
    else if sv >= 0.4 then Medium
    else Low
  }

  function SeverityPoints(s: Severity): nat {
    match s
    case Critical => 100
    case High => 50
    case Medium => 20
    case Low => 5
  }

  // _confidence_multiplier, in tenths.
  function ConfidenceTenths(confidence: real): nat {
    if confidence > 0.9 then 10 else if confidence >= 0.7 then 7 else 3
  }

  // ed.get("confidence") or ed.get("signal_confidence") or 0.8
  function BestConfidence(v: Violation): real {
    if v.confidence != 0.0 then v.confidence
    else if v.signalConfidence != 0.0 then v.signalConfidence
    else 0.8
  }

  function Contribution(v: Violation): nat {
    SeverityPoints(SeverityName(v.severity)) * ConfidenceTenths(BestConfidence(v))
  }

  function Total(vs: seq<Violation>): nat {
    if vs == [] then 0 else Total(vs[..|vs| - 1]) + Contribution(vs[|vs| - 1])
  }

  const MAX_SCORE := 1000
  const NON_COMPLIANT_THRESHOLD := 700
  const BORDERLINE_THRESHOLD := 300

  function RiskScore(vs: seq<Violation>): (r: nat) {
    if Total(vs) <= MAX_SCORE then Total(vs) else MAX_SCORE
  }

  // _calculate_risk_score
  method CalculateRiskScore(vs: seq<Violation>) returns (score: nat)
    ensures score == RiskScore(vs)
  {
    if vs == [] { return 0; }
    var total := 0;
    for i := 0 to |vs|
      invariant total == Total(vs[..i])
    {
      assert vs[..i + 1][..i] == vs[..i];
      total := total + SeverityPoints(SeverityName(vs[i].severity)) * ConfidenceTenths(BestConfidence(vs[i]));
    }
    assert vs[..|vs|] == vs;
    score := if total <= MAX_SCORE then total else MAX_SCORE;
  }

  datatype Status = Compliant | ReviewRequired | NonCompliant | LikelyRejected | PendingAdvisory

  datatype Band = LikelyApprovedBand | BorderlineBand | LikelyRejectedBand | PendingAdvisoryBand

  function DetermineStatus(score: nat): Status {
    if score == 0 then Compliant
    else if score >= NON_COMPLIANT_THRESHOLD then NonCompliant
    else ReviewRequired
  }

  function DetermineBand(score: nat): Band {
    if score >= NON_COMPLIANT_THRESHOLD then LikelyRejectedBand
    else if score >= BORDERLINE_THRESHOLD then BorderlineBand
    else LikelyApprovedBand
  }

  /******* Properties of the score *******/

  lemma ContributionPositive(v: Violation)
    ensures Contribution(v) >= 15
  {
    var p, c := SeverityPoints(SeverityName(v.severity)), ConfidenceTenths(BestConfidence(v));
    assert p >= 5 && c >= 3;
    assert p * c >= 5 * c;
  }

  lemma {:induction false} TotalPositive(vs: seq<Violation>)
    ensures Total(vs) >= 15 * |vs|
  {
    if vs != [] {
      TotalPositive(vs[..|vs| - 1]);
      ContributionPositive(vs[|vs| - 1]);
    }
  }

  // Only a run without violations scores zero, and only it is compliant.
  lemma CompliantIffNoViolations(vs: seq<Violation>)
    ensures RiskScore(vs) == 0 <==> vs == []
    ensures DetermineStatus(RiskScore(vs)) == Compliant <==> vs == []
  {
    TotalPositive(vs);
  }

  lemma {:induction false} TotalConcat(vs: seq<Violation>, ws: seq<Violation>)
    ensures Total(vs + ws) == Total(vs) + Total(ws)
  {
    if ws == [] {
      assert vs + ws == vs;
    } else {
      var n := |ws| - 1;
      assert (vs + ws)[..|vs + ws| - 1] == vs + ws[..n];
      TotalConcat(vs, ws[..n]);
    }
  }

  lemma TotalRemove(vs: seq<Violation>, i: nat)
    requires i < |vs|
    ensures Total(vs) == Total(vs[..i] + vs[i + 1..]) + Contribution(vs[i])
  {
    var before, upTo, after := vs[..i], vs[..i + 1], vs[i + 1..];
    assert upTo[..i] == before;
    assert upTo + after == vs;
    TotalConcat(upTo, after);
    TotalConcat(before, after);
  }

  // The score does not depend on the order of the violations.
  lemma {:induction false} TotalOrderFree(vs: seq<Violation>, ws: seq<Violation>)
    requires multiset(vs) == multiset(ws)
    ensures Total(vs) == Total(ws)
    decreases |vs|
  {
    if vs == [] {
      assert |multiset(ws)| == |ws|;
      assert |multiset(vs)| == 0;
    } else {
      var n := |vs| - 1;
      var x := vs[n];
      assert vs == vs[..n] + [x];
      assert x in multiset(ws);
      var i :| 0 <= i < |ws| && ws[i] == x;
      var rest := ws[..i] + ws[i + 1..];
      assert ws == ws[..i] + [x] + ws[i + 1..];
      assert multiset(rest) == multiset(ws) - multiset{x};
      assert multiset(vs[..n]) == multiset(vs) - multiset{x};
      TotalOrderFree(vs[..n], rest);
      TotalRemove(ws, i);
    }
  }

  // Score, status and band depend on the violations as a multiset only.
  lemma ScoreOrderFree(vs: seq<Violation>, ws: seq<Violation>)
    requires multiset(vs) == multiset(ws)
    ensures RiskScore(vs) == RiskScore(ws)
    ensures DetermineStatus(RiskScore(vs)) == DetermineStatus(RiskScore(ws))
    ensures DetermineBand(RiskScore(vs)) == DetermineBand(RiskScore(ws))
  {
    TotalOrderFree(vs, ws);
  }

  // More violations never lower the score.
  lemma ScoreMonotone(vs: seq<Violation>, ws: seq<Violation>)
    ensures RiskScore(vs) <= RiskScore(vs + ws)
  {
    TotalConcat(vs, ws);
  }
}
