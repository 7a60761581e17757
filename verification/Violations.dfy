/** Violations as the policy engine reports them (src/zataone/schemas/violation.py). */
module Violations {
  import opened Options
  import opened Signals
  import opened Dsl

  datatype Evidence =
    | TextMatch(matchedTerm: string, matchedText: string, ocrText: string, span: Option<MatchSpan>, bbox: Option<Box>)
    | VisionObject(objectLabel: string, objectBox: Option<Box>)
    | EmbeddingSimilarity(regulation: string)

  // `confidence` and `signalConfidence` are the two entries of evidence_data read by the scorer.
  datatype Violation = Violation(
    signalId: string,
    ruleId: string,
    severity: real,
    confidence: real,
    signalConfidence: real,
    documentCentric: bool,
    evidence: Evidence)
}
