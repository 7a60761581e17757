/**
  What the evaluator computes (src/zataone/policy_engine/dsl/evaluator.py, lines
  26-154): a group is hit exactly when its boolean reading holds, and the hit it
  reports is the hit of a leaf, the first matching one when no group is an `all`.
 */
module DslMeaning {
  import opened Options
  import opened Text
  import opened Dsl
  import Normalizer

  /******* The boolean reading *******/

  ghost predicate TermOccurs(norm: string, term: string) {
    exists i: nat :: OccursAt(norm, Lower(term), i)
  }

  ghost predicate PatternOccurs(re: Search, norm: string, display: string, p: PatternSpec) {
    re(p.pattern, display).Some? || re(p.pattern, norm).Some?
  }

  ghost predicate Satisfied(re: Search, norm: string, display: string, g: Group) {
    match g.op
    case Any =>
      || (exists p :: p in g.patterns && PatternOccurs(re, norm, display, p))
      || (exists t :: t in g.terms && TermOccurs(norm, t))
      || (exists c :: c in g.children && Satisfied(re, norm, display, c))
    case All =>
      && (g.patterns != [] || g.terms != [] || g.children != [])
      && (forall p :: p in g.patterns ==> PatternOccurs(re, norm, display, p))
      && (forall t :: t in g.terms ==> TermOccurs(norm, t))
      && (forall c :: c in g.children ==> Satisfied(re, norm, display, c))
  }

  // Context: some term occurs, or the group demands nothing.
  ghost predicate ContextReading(norm: string, g: Group) {
    if g.terms != [] then exists t :: t in g.terms && TermOccurs(norm, t)
    else g.children == [] || exists c :: c in g.children && ContextReading(norm, c)
  }

  lemma ContainsIffOccurs(norm: string, term: string)
    ensures Contains(norm, Lower(term)) <==> TermOccurs(norm, term)
  {
  }

  lemma {:induction false} FirstPatternHitIff(re: Search, norm: string, display: string, ps: seq<PatternSpec>)
    ensures FirstPatternHit(re, norm, display, ps).Some?
       <==> exists p :: p in ps && PatternOccurs(re, norm, display, p)
  {
    if ps != [] {
      FirstPatternHitIff(re, norm, display, ps[1..]);
      assert ps == [ps[0]] + ps[1..];
      assert MatchPattern(re, display, norm, ps[0]).Some? <==> PatternOccurs(re, norm, display, ps[0]);
    }
  }

  lemma {:induction false} FirstTermHitIff(norm: string, display: string, ts: seq<string>, confidence: real)
    ensures FirstTermHit(norm, display, ts, confidence).Some? <==> exists t :: t in ts && TermOccurs(norm, t)
  {
    if ts != [] {
      FirstTermHitIff(norm, display, ts[1..], confidence);
      ContainsIffOccurs(norm, ts[0]);
      assert ts == [ts[0]] + ts[1..];
    }
  }

  lemma {:induction false} ChildrenHitIff(re: Search, norm: string, display: string, cs: seq<Group>)
    ensures FirstChildHit(re, norm, display, cs).Some? <==> exists c :: c in cs && Satisfied(re, norm, display, c)
    ensures AllChildrenHit(re, norm, display, cs) <==> forall c :: c in cs ==> Satisfied(re, norm, display, c)
    decreases cs, 0
  {
    if cs != [] {
      HitIffSatisfied(re, norm, display, cs[0]);
      ChildrenHitIff(re, norm, display, cs[1..]);
      assert cs == [cs[0]] + cs[1..];
    }
  }

  // A group returns a hit iff it is satisfied.
  lemma {:induction false} HitIffSatisfied(re: Search, norm: string, display: string, g: Group)
    ensures GroupHit(re, norm, display, g).Some? <==> Satisfied(re, norm, display, g)
    decreases g, 1
  {
    ChildrenHitIff(re, norm, display, g.children);
    forall t ensures Contains(norm, Lower(t)) <==> TermOccurs(norm, t) {
      ContainsIffOccurs(norm, t);
    }
    match g.op {
      case Any =>
        FirstPatternHitIff(re, norm, display, g.patterns);
        FirstTermHitIff(norm, display, g.terms, g.termConfidence);
      case All =>
        if g.children != [] {
          HitIffSatisfied(re, norm, display, g.children[0]);
          assert g.children[0] in g.children;
        }
    }
  }

  lemma {:induction false} SomeContextIff(norm: string, cs: seq<Group>)
    ensures SomeContext(norm, cs) <==> exists c :: c in cs && ContextReading(norm, c)
    decreases cs, 0
  {
    if cs != [] {
      ContextIff(norm, cs[0]);
      SomeContextIff(norm, cs[1..]);
      assert cs == [cs[0]] + cs[1..];
    }
  }

  lemma {:induction false} ContextIff(norm: string, g: Group)
    ensures ContextSatisfied(norm, g) <==> ContextReading(norm, g)
    decreases g, 1
  {
    SomeContextIff(norm, g.children);
    forall t ensures Contains(norm, Lower(t)) <==> TermOccurs(norm, t) {
      ContainsIffOccurs(norm, t);
    }
  }

  // A rule fires iff its body reads true, its exceptions read false and its context reads true.
  ghost predicate RuleReading(re: Search, text: string, ast: Ast, original: Option<string>) {
    var norm := NormalizeForMatching(text);
    && ast.body.Some? && Satisfied(re, norm, original.GetOr(text), ast.body.value)
    && (ast.exceptions.Some? ==> !Satisfied(re, norm, norm, ast.exceptions.value))
    && (ast.requiresContext.Some? ==> ContextReading(norm, ast.requiresContext.value))
  }

  lemma EvaluateIffReading(re: Search, text: string, ast: Ast, original: Option<string>)
    ensures Evaluate(re, text, ast, original).Some? <==> RuleReading(re, text, ast, original)
  {
    var norm := NormalizeForMatching(text);
    if ast.exceptions.Some? { HitIffSatisfied(re, norm, norm, ast.exceptions.value); }
    if ast.requiresContext.Some? { ContextIff(norm, ast.requiresContext.value); }
    if ast.body.Some? { HitIffSatisfied(re, norm, original.GetOr(text), ast.body.value); }
  }

  /******* Leaves *******/

  datatype Leaf = PatternLeaf(spec: PatternSpec) | TermLeaf(term: string, confidence: real)

  function LeafHit(re: Search, norm: string, display: string, l: Leaf): Option<Hit> {
    match l
    case PatternLeaf(spec) => MatchPattern(re, display, norm, spec)
    case TermLeaf(term, confidence) => MatchTerm(display, norm, term, confidence)
  }

  function PatternLeaves(ps: seq<PatternSpec>): seq<Leaf> {
    if ps == [] then [] else [PatternLeaf(ps[0])] + PatternLeaves(ps[1..])
  }

  function TermLeaves(ts: seq<string>, confidence: real): seq<Leaf> {
    if ts == [] then [] else [TermLeaf(ts[0], confidence)] + TermLeaves(ts[1..], confidence)
  }

  // Pre-order: a group's patterns, then its terms, then its children's leaves.
  function Leaves(g: Group): seq<Leaf>
    decreases g, 1
  {
    PatternLeaves(g.patterns) + TermLeaves(g.terms, g.termConfidence) + LeavesOfAll(g.children)
  }

  function LeavesOfAll(cs: seq<Group>): seq<Leaf>
    decreases cs, 0
  {
    if cs == [] then [] else Leaves(cs[0]) + LeavesOfAll(cs[1..])
  }

  function FirstLeafHit(re: Search, norm: string, display: string, ls: seq<Leaf>): Option<Hit> {
    if ls == [] then None
    else
      var h := LeafHit(re, norm, display, ls[0]);
      if h.Some? then h else FirstLeafHit(re, norm, display, ls[1..])
  }

  predicate AnyOnly(g: Group) {
    g.op == Any && forall c :: c in g.children ==> AnyOnly(c)
  }

  lemma {:induction false} FirstLeafHitConcat(re: Search, norm: string, display: string, a: seq<Leaf>, b: seq<Leaf>)
    ensures FirstLeafHit(re, norm, display, a + b)
         == var h := FirstLeafHit(re, norm, display, a); if h.Some? then h else FirstLeafHit(re, norm, display, b)
  {
    if a == [] {
      assert a + b == b;
    } else {
      assert (a + b)[1..] == a[1..] + b;
      FirstLeafHitConcat(re, norm, display, a[1..], b);
    }
  }

  lemma {:induction false} FirstPatternLeaf(re: Search, norm: string, display: string, ps: seq<PatternSpec>)
    ensures FirstPatternHit(re, norm, display, ps) == FirstLeafHit(re, norm, display, PatternLeaves(ps))
  {
    if ps != [] { FirstPatternLeaf(re, norm, display, ps[1..]); }
  }

  lemma {:induction false} FirstTermLeaf(re: Search, norm: string, display: string, ts: seq<string>, c: real)
    ensures FirstTermHit(norm, display, ts, c) == FirstLeafHit(re, norm, display, TermLeaves(ts, c))
  {
    if ts != [] { FirstTermLeaf(re, norm, display, ts[1..], c); }
  }

  lemma {:induction false} FirstChildLeaf(re: Search, norm: string, display: string, cs: seq<Group>)
    requires forall c :: c in cs ==> AnyOnly(c)
    ensures FirstChildHit(re, norm, display, cs) == FirstLeafHit(re, norm, display, LeavesOfAll(cs))
    decreases cs, 0
  {
    if cs != [] {
      AnyOnlyFirstLeaf(re, norm, display, cs[0]);
      FirstChildLeaf(re, norm, display, cs[1..]);
      FirstLeafHitConcat(re, norm, display, Leaves(cs[0]), LeavesOfAll(cs[1..]));
    }
  }

  // Without `all` groups the reported hit is the first matching leaf of the flattening.
  lemma {:induction false} AnyOnlyFirstLeaf(re: Search, norm: string, display: string, g: Group)
    requires AnyOnly(g)
    ensures GroupHit(re, norm, display, g) == FirstLeafHit(re, norm, display, Leaves(g))
    decreases g, 1
  {
    var ps, ts := PatternLeaves(g.patterns), TermLeaves(g.terms, g.termConfidence);
    FirstPatternLeaf(re, norm, display, g.patterns);
    FirstTermLeaf(re, norm, display, g.terms, g.termConfidence);
    FirstChildLeaf(re, norm, display, g.children);
    FirstLeafHitConcat(re, norm, display, ps, ts);
    FirstLeafHitConcat(re, norm, display, ps + ts, LeavesOfAll(g.children));
  }

  lemma {:induction false} FirstLeafHitIsLeaf(re: Search, norm: string, display: string, ls: seq<Leaf>)
    ensures var h := FirstLeafHit(re, norm, display, ls);
            h.Some? ==> exists l :: l in ls && LeafHit(re, norm, display, l) == h
  {
    if ls != [] {
      FirstLeafHitIsLeaf(re, norm, display, ls[1..]);
      assert ls == [ls[0]] + ls[1..];
    }
  }

  lemma {:induction false} ChildHitIsLeaf(re: Search, norm: string, display: string, cs: seq<Group>)
    ensures var h := FirstChildHit(re, norm, display, cs);
            h.Some? ==> exists l :: l in LeavesOfAll(cs) && LeafHit(re, norm, display, l) == h
    decreases cs, 0
  {
    if cs != [] {
      HitIsLeaf(re, norm, display, cs[0]);
      ChildHitIsLeaf(re, norm, display, cs[1..]);
    }
  }

  // In every tree the reported hit is the hit of one of its leaves.
  lemma {:induction false} HitIsLeaf(re: Search, norm: string, display: string, g: Group)
    ensures var h := GroupHit(re, norm, display, g);
            h.Some? ==> exists l :: l in Leaves(g) && LeafHit(re, norm, display, l) == h
    decreases g, 1
  {
    var h := GroupHit(re, norm, display, g);
    if h.Some? {
      var ps, ts := PatternLeaves(g.patterns), TermLeaves(g.terms, g.termConfidence);
      match g.op {
        case Any =>
          FirstPatternLeaf(re, norm, display, g.patterns);
          FirstTermLeaf(re, norm, display, g.terms, g.termConfidence);
          FirstLeafHitIsLeaf(re, norm, display, ps);
          FirstLeafHitIsLeaf(re, norm, display, ts);
          ChildHitIsLeaf(re, norm, display, g.children);
        case All =>
          if g.patterns != [] {
            assert Leaves(g)[0] == PatternLeaf(g.patterns[0]) && Leaves(g)[0] in Leaves(g);
          } else if g.children != [] {
            HitIsLeaf(re, norm, display, g.children[0]);
          } else {
            assert Leaves(g)[0] == TermLeaf(g.terms[0], g.termConfidence) && Leaves(g)[0] in Leaves(g);
          }
      }
    }
  }

  /******* Hits on normalised texts *******/

  // The text reads as the term, up to case, from position i on.
  predicate ReadsAt(text: string, term: string, i: nat) {
    i + |term| <= |text| && Lower(text[i..i + |term|]) == Lower(term)
  }

  lemma ReadsAtIffOccurs(text: string, term: string, i: nat)
    ensures ReadsAt(text, term, i) <==> OccursAt(Lower(text), Lower(term), i)
  {
    if i + |term| <= |text| { LowerSlice(text, i, i + |term|); }
  }

  // The term stands at i between blanks or the ends of the text.
  predicate WordAt(norm: string, lowered: string, i: nat) {
    && OccursAt(norm, lowered, i)
    && (i == 0 || norm[i - 1] == ' ')
    && (i + |lowered| == |norm| || norm[i + |lowered|] == ' ')
  }

  lemma WordIffPadded(norm: string, lowered: string, i: nat)
    ensures OccursAt(Padded(norm), Padded(lowered), i) <==> WordAt(norm, lowered, i)
  {
    var a, b, n := Padded(norm), Padded(lowered), |lowered|;
    if i + |b| <= |a| {
      var part := a[i..i + |b|];
      assert part[0] == a[i] && part[n + 1] == a[i + n + 1];
      var inner, there := part[1..n + 1], norm[i..i + n];
      forall k | 0 <= k < n ensures inner[k] == there[k] {
        assert a[i + k + 1] == norm[i + k];
      }
      assert inner == there;
      assert b[1..n + 1] == lowered;
      if part[0] == ' ' && part[n + 1] == ' ' && norm[i..i + n] == lowered {
        assert part == [part[0]] + part[1..n + 1] + [part[n + 1]];
      }
    }
  }

  // A term hit is rated a whole word exactly when the term stands between blanks
  // somewhere, which need not be the place that is reported.
  lemma WordConfidenceIff(norm: string, lowered: string)
    ensures WordConfidence(norm, lowered) == 0.95 <==> exists i: nat :: WordAt(norm, lowered, i)
    ensures WordConfidence(norm, lowered) != 0.95 ==> WordConfidence(norm, lowered) == 0.85
  {
    forall i: nat ensures OccursAt(Padded(norm), Padded(lowered), i) <==> WordAt(norm, lowered, i) {
      WordIffPadded(norm, lowered, i);
    }
  }

  // A term hit on a normalised text marks the leftmost place where the text reads as the
  // term, and quotes the text there. It is rated 0.95 as a whole word and 0.85 inside one,
  // or as high as its group asks for.
  lemma TermHitQuotes(text: string, term: string, confidence: real)
    requires Normalized(text)
    ensures var h := MatchTerm(text, NormalizeForMatching(text), term, confidence);
            if h.None? then forall i: nat :: !ReadsAt(text, term, i)
            else
              var sp := h.value.span;
              && ReadsAt(text, term, sp.start)
              && sp.end == sp.start + |term|
              && sp.text == text[sp.start..sp.end]
              && (forall i: nat :: i < sp.start ==> !ReadsAt(text, term, i))
              && h.value.term == term && h.value.kind == TermMatch
              && (if exists i: nat :: WordAt(Lower(text), Lower(term), i)
                  then h.value.confidence == (if confidence > 0.95 then confidence else 0.95)
                  else h.value.confidence == (if confidence > 0.85 then confidence else 0.85))
  {
    WordConfidenceIff(Lower(text), Lower(term));
    Normalizer.MatchingIsLowerIffNormalized(text);
    forall i: nat ensures ReadsAt(text, term, i) <==> OccursAt(Lower(text), Lower(term), i) {
      ReadsAtIffOccurs(text, term, i);
    }
    var h := MatchTerm(text, Lower(text), term, confidence);
    if h.Some? {
      assert OccursAt(Lower(text), Lower(term), h.value.span.start);
    }
  }

  // On a normalised text the two searches for a pattern see the same text up to case, and
  // the hit is the place that the search finds, rated as the pattern is.
  lemma PatternHitQuotes(re: Search, text: string, p: PatternSpec)
    requires Normalized(text)
    ensures var h := MatchPattern(re, text, NormalizeForMatching(text), p);
            && (h.Some? <==> re(p.pattern, text).Some?)
            && (h.Some? ==>
                  var sp, l := h.value.span, re(p.pattern, text).value;
                  && sp.start == l.start && sp.end == l.end && sp.start <= sp.end <= |text|
                  && sp.text == text[sp.start..sp.end] == h.value.term
                  && h.value.confidence == p.confidence && h.value.kind == PatternMatch)
  {
    Normalizer.MatchingIsLowerIffNormalized(text);
    LowerTwice(text);
  }
}
