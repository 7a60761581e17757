/**
  Rules, their compilation to match trees (src/zataone/policy_engine/dsl/legacy_adapter.py)
  and the older matcher that reads a rule directly (engine.py, lines 456-504).
 */
module LegacyRules {
  import opened Options
  import opened Text
  import opened Yaml
  import opened Dsl
  import opened Parser
  import opened Sequences

  // An entry of a rule's pattern lists: a string, a dictionary, or anything else.
  datatype RawPattern =
    | Plain(s: string)
    | Info(pattern: Option<string>, confidence: Option<real>, description: string)
    | Odd

  // An entry of a rule's term lists: a string, or another value with what str() shows of it.
  datatype RawTerm =
    | Term(s: string)
    | NoString(shown: string)

  // A rule of a policy pack. A list that is null is None; a missing one reads as empty.
  datatype Rule = Rule(
    name: string,
    severity: Option<string>,
    matchBlock: Value,
    prohibitedTerms: Option<seq<RawTerm>>,
    patterns: Option<seq<RawPattern>>,
    contextTerms: Option<seq<RawTerm>>,
    exceptionTerms: Option<seq<RawTerm>>,
    exceptionPatterns: Option<seq<RawPattern>>,
    visionPrimaryLabels: seq<string>)

  // xs or []
  function OrEmpty<T>(xs: Option<seq<T>>): seq<T> {
    xs.GetOr([])
  }

  // A loop over null raises.
  function Listed<T>(xs: Option<seq<T>>): Outcome<seq<T>> {
    match xs
    case Some(s) => Ok(s)
    case None => Raised
  }

  /******* The adapter *******/

  // str(t)
  function TermText(t: RawTerm): seq<string> {
    match t
    case Term(s) => [s]
    case NoString(shown) => [shown]
  }

  function AdaptTerms(ts: seq<RawTerm>): seq<string> {
    FlatMap(ts, TermText)
  }

  function AdaptPattern(p: RawPattern): seq<PatternSpec> {
    match p
    case Plain(s) => [PatternSpec(s, DEFAULT_CONFIDENCE, "")]
    case Info(pattern, confidence, description) =>
      if pattern.GetOr("") == "" then []
      else [PatternSpec(pattern.value, confidence.GetOr(DEFAULT_CONFIDENCE), description)]
    case Odd => []
  }

  function AdaptPatterns(ps: seq<RawPattern>): seq<PatternSpec> {
    FlatMap(ps, AdaptPattern)
  }

  // _legacy_patterns
  method LegacyPatterns(raw: Option<seq<RawPattern>>) returns (specs: seq<PatternSpec>)
    ensures specs == AdaptPatterns(OrEmpty(raw))
  {
    specs := [];
    if raw.None? { return; }
    for n := 0 to |raw.value|
      invariant specs == AdaptPatterns(raw.value[..n])
    {
      FlatMapSnoc(raw.value, n, AdaptPattern);
      match raw.value[n] {
        case Plain(s) =>
          specs := specs + [PatternSpec(s, DEFAULT_CONFIDENCE, "")];
        case Info(pattern, confidence, description) =>
          if pattern.GetOr("") != "" {
            specs := specs + [PatternSpec(pattern.value, confidence.GetOr(DEFAULT_CONFIDENCE), description)];
          }
        case Odd =>
      }
    }
    assert raw.value[..|raw.value|] == raw.value;
  }

  function LegacyAst(r: Rule): Ast {
    var exceptions :=
      if OrEmpty(r.exceptionTerms) != [] || OrEmpty(r.exceptionPatterns) != []
      then Some(AnyOf(AdaptTerms(OrEmpty(r.exceptionTerms)), AdaptPatterns(OrEmpty(r.exceptionPatterns)), []))
      else None;
    var context :=
      if OrEmpty(r.contextTerms) != [] then Some(AnyOf(AdaptTerms(r.contextTerms.value), [], [])) else None;
    var terms, patterns := AdaptTerms(OrEmpty(r.prohibitedTerms)), AdaptPatterns(OrEmpty(r.patterns));
    var body := if terms != [] || patterns != [] then Some(AnyOf(terms, patterns, [])) else None;
    Ast(exceptions, context, body)
  }

  // Every list of the rule is empty or null.
  predicate Blank(r: Rule) {
    && OrEmpty(r.prohibitedTerms) == [] && OrEmpty(r.patterns) == [] && OrEmpty(r.contextTerms) == []
    && OrEmpty(r.exceptionTerms) == [] && OrEmpty(r.exceptionPatterns) == []
  }

  // None of the lists that the direct matcher loops over is null.
  predicate NoNull(r: Rule) {
    r.prohibitedTerms.Some? && r.patterns.Some? && r.exceptionTerms.Some? && r.exceptionPatterns.Some?
  }

  // rule_to_match_ast
  function RuleToAst(r: Rule): Outcome<Option<Ast>> {
    if Truthy(r.matchBlock) then ParseMatchBlock(r.matchBlock)
    else if Blank(r) then Ok(None)
    else Ok(Some(LegacyAst(r)))
  }

  /******* The direct matcher *******/

  // Anything but a string among the exception patterns makes re.search raise.
  function ExceptionPatternFires(re: Search, text: string, ps: seq<RawPattern>): Outcome<bool> {
    if ps == [] then Ok(false)
    else if !ps[0].Plain? then Raised
    else if re(ps[0].s, text).Some? then Ok(true)
    else ExceptionPatternFires(re, text, ps[1..])
  }

  // Anything but a dictionary among the patterns has no .get; one without a pattern searches "".
  function DirectPatternHit(re: Search, text: string, ps: seq<RawPattern>): Outcome<Option<Hit>> {
    if ps == [] then Ok(None)
    else if !ps[0].Info? then Raised
    else
      match re(ps[0].pattern.GetOr(""), text)
      case Some(l) => Ok(Some(PatternHit(text, l, ps[0].confidence.GetOr(DEFAULT_CONFIDENCE))))
      case None => DirectPatternHit(re, text, ps[1..])
  }

  // A prohibited term in the text, where it first occurs.
  function TermIn(text: string, term: string): Option<Hit> {
    var lowered, textLower := Lower(term), Lower(text);
    var i := Find(textLower, lowered);
    if i >= 0 then
      Some(Hit(term, WordConfidence(textLower, lowered),
               MatchSpan(i, i + |lowered|, text[i..i + |term|]), TermMatch))
    else None
  }

  // Only a string has .lower.
  function DirectTermHit(text: string, ts: seq<RawTerm>): Outcome<Option<Hit>> {
    if ts == [] then Ok(None)
    else if ts[0].NoString? then Raised
    else
      var h := TermIn(text, ts[0].s);
      if h.Some? then Ok(h) else DirectTermHit(text, ts[1..])
  }

  function SomeTermIn(text: string, ts: seq<RawTerm>): Outcome<bool> {
    if ts == [] then Ok(false)
    else if ts[0].NoString? then Raised
    else if Contains(Lower(text), Lower(ts[0].s)) then Ok(true)
    else SomeTermIn(text, ts[1..])
  }

  // Whether the rule is out of the question: an exception term occurs, or context terms
  // are demanded and none occurs.
  function Shut(text: string, r: Rule): Outcome<bool> {
    var exceptionTerms :- Listed(r.exceptionTerms);
    var excepted :- SomeTermIn(text, exceptionTerms);
    if excepted then Ok(true)
    else if OrEmpty(r.contextTerms) == [] then Ok(false)
    else
      var inContext :- SomeTermIn(text, r.contextTerms.value);
      Ok(!inContext)
  }

  function BodyHit(re: Search, text: string, r: Rule): Outcome<Option<Hit>> {
    var patterns :- Listed(r.patterns);
    var p :- DirectPatternHit(re, text, patterns);
    if p.Some? then Ok(p)
    else
      var terms :- Listed(r.prohibitedTerms);
      DirectTermHit(text, terms)
  }

  function DirectHit(re: Search, text: string, r: Rule): Outcome<Option<Hit>> {
    var exceptionPatterns :- Listed(r.exceptionPatterns);
    var excepted :- ExceptionPatternFires(re, text, exceptionPatterns);
    if excepted then Ok(None)
    else
      var shut :- Shut(text, r);
      if shut then Ok(None) else BodyHit(re, text, r)
  }

  method ScanExceptionPatterns(re: Search, text: string, ps: seq<RawPattern>) returns (fires: Outcome<bool>)
    ensures fires == ExceptionPatternFires(re, text, ps)
  {
    for i := 0 to |ps|
      invariant ExceptionPatternFires(re, text, ps) == ExceptionPatternFires(re, text, ps[i..])
    {
      if !ps[i].Plain? { return Raised; }
      if re(ps[i].s, text).Some? { return Ok(true); }
    }
    fires := Ok(false);
  }

  method ScanTerms(text: string, ts: seq<RawTerm>) returns (found: Outcome<bool>)
    ensures found == SomeTermIn(text, ts)
  {
    for i := 0 to |ts|
      invariant SomeTermIn(text, ts) == SomeTermIn(text, ts[i..])
    {
      if ts[i].NoString? { return Raised; }
      if Contains(Lower(text), Lower(ts[i].s)) { return Ok(true); }
    }
    found := Ok(false);
  }

  method ScanPatterns(re: Search, text: string, ps: seq<RawPattern>) returns (hit: Outcome<Option<Hit>>)
    ensures hit == DirectPatternHit(re, text, ps)
  {
    for i := 0 to |ps|
      invariant DirectPatternHit(re, text, ps) == DirectPatternHit(re, text, ps[i..])
    {
      if !ps[i].Info? { return Raised; }
      var l := re(ps[i].pattern.GetOr(""), text);
      if l.Some? { return Ok(Some(PatternHit(text, l.value, ps[i].confidence.GetOr(DEFAULT_CONFIDENCE)))); }
    }
    hit := Ok(None);
  }

  method ScanProhibited(text: string, ts: seq<RawTerm>) returns (hit: Outcome<Option<Hit>>)
    ensures hit == DirectTermHit(text, ts)
  {
    for i := 0 to |ts|
      invariant DirectTermHit(text, ts) == DirectTermHit(text, ts[i..])
    {
      if ts[i].NoString? { return Raised; }
      var h := TermIn(text, ts[i].s);
      if h.Some? { return Ok(h); }
    }
    hit := Ok(None);
  }

  // _match_rule_legacy
  method MatchRuleLegacy(re: Search, text: string, r: Rule) returns (hit: Outcome<Option<Hit>>)
    ensures hit == DirectHit(re, text, r)
  {
    if r.exceptionPatterns.None? { return Raised; }
    var fires := ScanExceptionPatterns(re, text, r.exceptionPatterns.value);
    if fires.Raised? { return Raised; }
    if fires.value { return Ok(None); }
    if r.exceptionTerms.None? { return Raised; }
    var excepted := ScanTerms(text, r.exceptionTerms.value);
    if excepted.Raised? { return Raised; }
    if excepted.value { return Ok(None); }
    if OrEmpty(r.contextTerms) != [] {
      var inContext := ScanTerms(text, r.contextTerms.value);
      if inContext.Raised? { return Raised; }
      if !inContext.value { return Ok(None); }
    }
    if r.patterns.None? { return Raised; }
    hit := ScanPatterns(re, text, r.patterns.value);
    if hit.Raised? || hit.value.Some? { return; }
    if r.prohibitedTerms.None? { return Raised; }
    hit := ScanProhibited(text, r.prohibitedTerms.value);
  }

  /******* What the engine uses *******/

  // _match_rule: the compiled tree where there is one, the direct matcher otherwise.
  function MatchWith(re: Search, text: string, r: Rule, ast: Option<Ast>): Outcome<Option<Hit>> {
    match ast
    case Some(a) => Ok(Evaluate(re, text, a, Some(text)))
    case None => DirectHit(re, text, r)
  }

  function MatchRule(re: Search, text: string, r: Rule): Outcome<Option<Hit>> {
    var ast :- RuleToAst(r);
    MatchWith(re, text, r, ast)
  }
}
