/**
  The policy match language: its tree (src/zataone/policy_engine/dsl/ast.py) and
  its evaluator (src/zataone/policy_engine/dsl/evaluator.py).
 */
module Dsl {
  import opened Options
  import opened Text

  /******* Trees *******/

  datatype Op = Any | All

  datatype PatternSpec = PatternSpec(pattern: string, confidence: real, description: string)

  datatype Group = Group(
    op: Op, terms: seq<string>, termConfidence: real, patterns: seq<PatternSpec>, children: seq<Group>)

  datatype Ast = Ast(exceptions: Option<Group>, requiresContext: Option<Group>, body: Option<Group>)

  const DEFAULT_CONFIDENCE := 0.9

  function AnyOf(terms: seq<string>, patterns: seq<PatternSpec>, children: seq<Group>): Group {
    Group(Any, terms, DEFAULT_CONFIDENCE, patterns, children)
  }

  /******* Regular-expression search *******/

  datatype Location = Location(start: nat, end: nat)

  // re.search(pattern, text, re.IGNORECASE): the place of the first match, if any.
  // All that is assumed of it: the place lies in the text, and case is ignored.
  ghost predicate GoodSearch(re: (string, string) -> Option<Location>) {
    && (forall p, s :: re(p, s).Some? ==> re(p, s).value.start <= re(p, s).value.end <= |s|)
    && (forall p, s, t :: Lower(s) == Lower(t) ==> re(p, s) == re(p, t))
  }

  type Search = re: (string, string) -> Option<Location> | GoodSearch(re)
    witness (p: string, s: string) => None

  /******* Hits *******/

  datatype MatchKind = TermMatch | PatternMatch

  datatype MatchSpan = MatchSpan(start: nat, end: nat, text: string)

  datatype Hit = Hit(term: string, confidence: real, span: MatchSpan, kind: MatchKind)

  function PatternHit(text: string, l: Location, confidence: real): Hit
    requires l.start <= l.end <= |text|
  {
    Hit(text[l.start..l.end], confidence, MatchSpan(l.start, l.end, text[l.start..l.end]), PatternMatch)
  }

  // _match_pattern: the displayed text first, the normalised text as a fallback.
  function MatchPattern(re: Search, display: string, norm: string, p: PatternSpec): Option<Hit> {
    match re(p.pattern, display)
    case Some(l) => Some(PatternHit(display, l, p.confidence))
    case None =>
      match re(p.pattern, norm)
      case Some(l) => Some(PatternHit(norm, l, p.confidence))
      case None => None
  }

  function Padded(s: string): string {
    " " + s + " "
  }

  // 0.95 for a term between blanks, 0.85 for one inside a word.
  function WordConfidence(norm: string, lowered: string): real {
    if Contains(Padded(norm), Padded(lowered)) then 0.95 else 0.85
  }

  function MaxReal(a: real, b: real): real {
    if a < b then b else a
  }

  // _match_term
  function MatchTerm(display: string, norm: string, term: string, defaultConfidence: real): Option<Hit> {
    var lowered := Lower(term);
    var i := Find(norm, lowered);
    if i < 0 then None
    else
      var end := i + |term|;
      var text :=
        if i < |display| then display[i..if end <= |display| then end else |display|]
        else if end <= |display| then display[i..end]
        else term;
      Some(Hit(term, MaxReal(WordConfidence(norm, lowered), defaultConfidence),
               MatchSpan(i, i + |lowered|, text), TermMatch))
  }

  /******* Evaluation *******/

  function FirstPatternHit(re: Search, norm: string, display: string, ps: seq<PatternSpec>): Option<Hit> {
    if ps == [] then None
    else
      var h := MatchPattern(re, display, norm, ps[0]);
      if h.Some? then h else FirstPatternHit(re, norm, display, ps[1..])
  }

  function FirstTermHit(norm: string, display: string, ts: seq<string>, confidence: real): Option<Hit> {
    if ts == [] then None
    else
      var h := MatchTerm(display, norm, ts[0], confidence);
      if h.Some? then h else FirstTermHit(norm, display, ts[1..], confidence)
  }

  function FirstChildHit(re: Search, norm: string, display: string, cs: seq<Group>): Option<Hit>
    decreases cs, 0
  {
    if cs == [] then None
    else
      var h := GroupHit(re, norm, display, cs[0]);
      if h.Some? then h else FirstChildHit(re, norm, display, cs[1..])
  }

  predicate AllChildrenHit(re: Search, norm: string, display: string, cs: seq<Group>)
    decreases cs, 0
  {
    cs == [] || (GroupHit(re, norm, display, cs[0]).Some? && AllChildrenHit(re, norm, display, cs[1..]))
  }

  // The hit reported for a group.
  function GroupHit(re: Search, norm: string, display: string, g: Group): Option<Hit>
    decreases g, 1
  {
    match g.op
    case Any =>
      var p := FirstPatternHit(re, norm, display, g.patterns);
      if p.Some? then p
      else
        var t := FirstTermHit(norm, display, g.terms, g.termConfidence);
        if t.Some? then t else FirstChildHit(re, norm, display, g.children)
    case All =>
      if (forall t :: t in g.terms ==> Contains(norm, Lower(t)))
         && (forall p :: p in g.patterns ==> MatchPattern(re, display, norm, p).Some?)
         && AllChildrenHit(re, norm, display, g.children)
      then
        if g.patterns != [] then MatchPattern(re, display, norm, g.patterns[0])
        else if g.children != [] then GroupHit(re, norm, display, g.children[0])
        else if g.terms != [] then MatchTerm(display, norm, g.terms[0], g.termConfidence)
        else None
      else None
  }

  // _context_satisfied: one context term is enough, and no terms at all is satisfied.
  predicate ContextSatisfied(norm: string, g: Group)
    decreases g, 1
  {
    if g.terms != [] then exists t :: t in g.terms && Contains(norm, Lower(t))
    else g.children == [] || SomeContext(norm, g.children)
  }

  predicate SomeContext(norm: string, cs: seq<Group>)
    decreases cs, 0
  {
    cs != [] && (ContextSatisfied(norm, cs[0]) || SomeContext(norm, cs[1..]))
  }

  // RuleEvaluator.evaluate: exceptions, then context, then the body.
  function Evaluate(re: Search, text: string, ast: Ast, original: Option<string>): Option<Hit> {
    var norm := NormalizeForMatching(text);
    var display := original.GetOr(text);
    if ast.exceptions.Some? && GroupHit(re, norm, norm, ast.exceptions.value).Some? then None
    else if ast.requiresContext.Some? && !ContextSatisfied(norm, ast.requiresContext.value) then None
    else if ast.body.None? then None
    else GroupHit(re, norm, display, ast.body.value)
  }

  /******* The evaluator's loops *******/

  // _eval_group
  method EvalGroup(re: Search, norm: string, display: string, g: Group) returns (hit: Option<Hit>)
    ensures hit == GroupHit(re, norm, display, g)
    decreases g, 1
  {
    if g.op == All {
      hit := EvalAll(re, norm, display, g);
    } else {
      hit := EvalAny(re, norm, display, g);
    }
  }

  // _eval_any
  method EvalAny(re: Search, norm: string, display: string, g: Group) returns (hit: Option<Hit>)
    requires g.op == Any
    ensures hit == GroupHit(re, norm, display, g)
    decreases g, 0
  {
    for i := 0 to |g.patterns|
      invariant FirstPatternHit(re, norm, display, g.patterns) == FirstPatternHit(re, norm, display, g.patterns[i..])
    {
      hit := MatchPattern(re, display, norm, g.patterns[i]);
      if hit.Some? { return; }
    }
    for i := 0 to |g.terms|
      invariant FirstTermHit(norm, display, g.terms, g.termConfidence)
             == FirstTermHit(norm, display, g.terms[i..], g.termConfidence)
    {
      hit := MatchTerm(display, norm, g.terms[i], g.termConfidence);
      if hit.Some? { return; }
    }
    for i := 0 to |g.children|
      invariant FirstChildHit(re, norm, display, g.children) == FirstChildHit(re, norm, display, g.children[i..])
    {
      hit := EvalGroup(re, norm, display, g.children[i]);
      if hit.Some? { return; }
    }
    hit := None;
  }

  // _eval_all
  method EvalAll(re: Search, norm: string, display: string, g: Group) returns (hit: Option<Hit>)
    requires g.op == All
    ensures hit == GroupHit(re, norm, display, g)
    decreases g, 0
  {
    for i := 0 to |g.terms|
      invariant forall t :: t in g.terms[..i] ==> Contains(norm, Lower(t))
    {
      if !Contains(norm, Lower(g.terms[i])) {
        assert g.terms[i] in g.terms;
        return None;
      }
    }
    var hits: seq<Hit> := [];
    for i := 0 to |g.patterns|
      invariant forall p :: p in g.patterns[..i] ==> MatchPattern(re, display, norm, p).Some?
      invariant |hits| == i
      invariant i > 0 ==> Some(hits[0]) == MatchPattern(re, display, norm, g.patterns[0])
    {
      var h := MatchPattern(re, display, norm, g.patterns[i]);
      if h.None? {
        assert g.patterns[i] in g.patterns;
        return None;
      }
      hits := hits + [h.value];
    }
    for i := 0 to |g.children|
      invariant AllChildrenHit(re, norm, display, g.children) == AllChildrenHit(re, norm, display, g.children[i..])
      invariant |hits| == |g.patterns| + i
      invariant g.patterns != [] ==> Some(hits[0]) == MatchPattern(re, display, norm, g.patterns[0])
      invariant g.patterns == [] && i > 0 ==> Some(hits[0]) == GroupHit(re, norm, display, g.children[0])
    {
      var h := EvalGroup(re, norm, display, g.children[i]);
      if h.None? { return None; }
      hits := hits + [h.value];
    }
    if hits != [] { return Some(hits[0]); }
    if g.terms != [] { return MatchTerm(display, norm, g.terms[0], g.termConfidence); }
    hit := None;
  }
}
