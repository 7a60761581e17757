/**
  Compiling a legacy rule preserves its meaning on exactly the normalised texts
  (src/zataone/policy_engine/dsl/legacy_adapter.py, lines 11-75, against
  engine.py, lines 465-504).
 */
module LegacyMeaning {
  import opened Options
  import opened Text
  import opened Yaml
  import opened Dsl
  import opened Parser
  import opened LegacyRules
  import Normalizer
  import Scoring
  import Sequences

  predicate AllStrings(ts: Option<seq<RawTerm>>) {
    ts.Some? && forall t :: t in ts.value ==> t.Term?
  }

  // The rules the direct matcher was written for: no list is null, terms and exception
  // patterns are strings, patterns are dictionaries with a pattern in them, and there is no
  // `match:` block.
  predicate Legacy(r: Rule) {
    && !Truthy(r.matchBlock)
    && AllStrings(r.prohibitedTerms) && AllStrings(r.contextTerms) && AllStrings(r.exceptionTerms)
    && PlainExceptions(r)
    && r.patterns.Some? && forall p :: p in r.patterns.value ==> p.Info? && p.pattern.GetOr("") != ""
  }

  predicate PlainExceptions(r: Rule) {
    r.exceptionPatterns.Some? && forall p :: p in r.exceptionPatterns.value ==> p.Plain?
  }

  // Every pattern entry is a dictionary; one without a pattern is harmless only beside an
  // empty exception pattern, which fires wherever it would.
  predicate UsablePatterns(r: Rule) {
    && r.patterns.Some?
    && forall p :: p in r.patterns.value ==>
         p.Info? && (p.pattern.GetOr("") != "" || Plain("") in OrEmpty(r.exceptionPatterns))
  }

  // The prohibited terms can be scanned without coming to one that is no string.
  predicate UsableTerms(text: string, r: Rule) {
    r.prohibitedTerms.Some? && DirectTermHit(text, r.prohibitedTerms.value).Ok?
  }

  // What can be checked of a rule and a text before matching: there is nothing to compile,
  // or nothing that the direct matcher comes to is of a type it cannot take.
  predicate Compilable(text: string, r: Rule) {
    || Blank(r)
    || (&& PlainExceptions(r)
        && Shut(text, r).Ok?
        && (Shut(text, r).value || (UsablePatterns(r) && UsableTerms(text, r))))
  }

  // The compiled form reports term hits with confidence at least 0.9.
  function Lifted(h: Option<Hit>): Option<Hit> {
    match h
    case None => None
    case Some(x) =>
      Some(if x.kind == TermMatch then x.(confidence := MaxReal(x.confidence, DEFAULT_CONFIDENCE)) else x)
  }

  function LiftedOutcome(o: Outcome<Option<Hit>>): Outcome<Option<Hit>> {
    match o
    case Ok(h) => Ok(Lifted(h))
    case Raised => Raised
  }

  // Same rule, same text: both miss, or both hit the same term, kind and span.
  ghost predicate Agree(re: Search, text: string, r: Rule) {
    MatchRule(re, text, r) == LiftedOutcome(DirectHit(re, text, r))
  }

  lemma LowerSearch(re: Search, p: string, text: string)
    ensures re(p, Lower(text)) == re(p, text)
  {
    LowerTwice(text);
  }

  lemma FirstPattern(re: Search, norm: string, display: string, p: PatternSpec, rest: seq<PatternSpec>)
    ensures FirstPatternHit(re, norm, display, [p] + rest)
         == var h := MatchPattern(re, display, norm, p); if h.Some? then h else FirstPatternHit(re, norm, display, rest)
  {
    assert ([p] + rest)[1..] == rest;
  }

  lemma {:induction false} ExceptionPatternsAgree(re: Search, text: string, ps: seq<RawPattern>)
    requires forall p :: p in ps ==> p.Plain?
    ensures ExceptionPatternFires(re, text, ps)
         == Ok(FirstPatternHit(re, Lower(text), Lower(text), AdaptPatterns(ps)).Some?)
  {
    if ps != [] {
      var norm, rest := Lower(text), AdaptPatterns(ps[1..]);
      Sequences.FlatMapHead(ps, AdaptPattern);
      FirstPattern(re, norm, norm, AdaptPattern(ps[0])[0], rest);
      LowerSearch(re, ps[0].s, text);
      ExceptionPatternsAgree(re, text, ps[1..]);
    }
  }

  lemma {:induction false} PatternsAgree(re: Search, text: string, ps: seq<RawPattern>)
    requires forall p :: p in ps ==> p.Info? && (p.pattern.GetOr("") != "" || re("", text).None?)
    ensures DirectPatternHit(re, text, ps) == Ok(FirstPatternHit(re, Lower(text), text, AdaptPatterns(ps)))
    ensures var h := DirectPatternHit(re, text, ps).value; h.Some? ==> h.value.kind == PatternMatch
  {
    if ps != [] {
      assert ps[0] in ps;
      var rest := AdaptPatterns(ps[1..]);
      Sequences.FlatMapHead(ps, AdaptPattern);
      PatternsAgree(re, text, ps[1..]);
      if ps[0].pattern.GetOr("") == "" {
        assert AdaptPatterns(ps) == rest;
      } else {
        FirstPattern(re, Lower(text), text, AdaptPattern(ps[0])[0], rest);
        LowerSearch(re, ps[0].pattern.value, text);
      }
    }
  }

  lemma TermAgrees(text: string, term: string)
    ensures MatchTerm(text, Lower(text), term, DEFAULT_CONFIDENCE) == Lifted(TermIn(text, term))
  {
  }

  lemma FirstTerm(norm: string, display: string, t: string, rest: seq<string>)
    ensures FirstTermHit(norm, display, [t] + rest, DEFAULT_CONFIDENCE)
         == var h := MatchTerm(display, norm, t, DEFAULT_CONFIDENCE);
            if h.Some? then h else FirstTermHit(norm, display, rest, DEFAULT_CONFIDENCE)
  {
    assert ([t] + rest)[1..] == rest;
  }

  lemma {:induction false} TermsAgree(text: string, ts: seq<RawTerm>)
    requires DirectTermHit(text, ts).Ok?
    ensures FirstTermHit(Lower(text), text, AdaptTerms(ts), DEFAULT_CONFIDENCE)
         == Lifted(DirectTermHit(text, ts).value)
  {
    if ts != [] {
      Sequences.FlatMapHead(ts, TermText);
      FirstTerm(Lower(text), text, ts[0].s, AdaptTerms(ts[1..]));
      TermAgrees(text, ts[0].s);
      if TermIn(text, ts[0].s).None? { TermsAgree(text, ts[1..]); }
    }
  }

  lemma {:induction false} TermsHitIffSome(text: string, ts: seq<RawTerm>, display: string)
    requires SomeTermIn(text, ts).Ok?
    ensures FirstTermHit(Lower(text), display, AdaptTerms(ts), DEFAULT_CONFIDENCE).Some?
       <==> SomeTermIn(text, ts).value
  {
    if ts != [] {
      Sequences.FlatMapHead(ts, TermText);
      FirstTerm(Lower(text), display, ts[0].s, AdaptTerms(ts[1..]));
      if !Contains(Lower(text), Lower(ts[0].s)) { TermsHitIffSome(text, ts[1..], display); }
    }
  }

  lemma {:induction false} ContextAgrees(text: string, ts: seq<RawTerm>)
    requires SomeTermIn(text, ts).Ok?
    ensures (exists t :: t in AdaptTerms(ts) && Contains(Lower(text), Lower(t))) <==> SomeTermIn(text, ts).value
  {
    if ts != [] {
      Sequences.FlatMapHead(ts, TermText);
      assert AdaptTerms(ts) == [ts[0].s] + AdaptTerms(ts[1..]);
      if !Contains(Lower(text), Lower(ts[0].s)) { ContextAgrees(text, ts[1..]); }
    }
  }

  ghost predicate ScannedUpTo(text: string, ts: seq<RawTerm>, k: int) {
    0 <= k < |ts| && forall j :: 0 <= j < k ==> ts[j].Term? && !Contains(Lower(text), Lower(ts[j].s))
  }

  // A scan finds the first term that occurs, raises at the first that is no string,
  // whichever comes first, and fails when there is neither.
  lemma {:induction false} ScanIff(text: string, ts: seq<RawTerm>)
    ensures SomeTermIn(text, ts) == Ok(true)
       <==> exists k :: ScannedUpTo(text, ts, k) && ts[k].Term? && Contains(Lower(text), Lower(ts[k].s))
    ensures SomeTermIn(text, ts) == Raised <==> exists k :: ScannedUpTo(text, ts, k) && ts[k].NoString?
    ensures SomeTermIn(text, ts) == Ok(false)
       <==> forall t :: t in ts ==> t.Term? && !Contains(Lower(text), Lower(t.s))
  {
    if ts != [] {
      assert ScannedUpTo(text, ts, 0);
      if ts[0].Term? && !Contains(Lower(text), Lower(ts[0].s)) {
        ScanTail(text, ts);
        ScanIff(text, ts[1..]);
        assert ts == [ts[0]] + ts[1..];
      } else {
        assert forall k :: ScannedUpTo(text, ts, k) ==> k == 0;
        assert ts[0] in ts;
      }
    }
  }

  lemma ScanTail(text: string, ts: seq<RawTerm>)
    requires ts != [] && ts[0].Term? && !Contains(Lower(text), Lower(ts[0].s))
    ensures forall k :: ScannedUpTo(text, ts[1..], k) ==> ScannedUpTo(text, ts, k + 1) && ts[k + 1] == ts[1..][k]
    ensures forall k :: ScannedUpTo(text, ts, k) && k > 0 ==>
              ScannedUpTo(text, ts[1..], k - 1) && ts[1..][k - 1] == ts[k]
  {
    forall k | ScannedUpTo(text, ts[1..], k)
      ensures ScannedUpTo(text, ts, k + 1) && ts[k + 1] == ts[1..][k]
    {
      assert forall j :: 0 < j <= k ==> ts[j] == ts[1..][j - 1];
    }
    forall k | ScannedUpTo(text, ts, k) && k > 0
      ensures ScannedUpTo(text, ts[1..], k - 1) && ts[1..][k - 1] == ts[k]
    {
      assert forall j :: 0 <= j < k - 1 ==> ts[1..][j] == ts[j + 1];
    }
  }

  lemma ExceptionsAgree(re: Search, text: string, r: Rule)
    requires PlainExceptions(r) && Shut(text, r).Ok?
    ensures var norm := Lower(text);
            var terms, patterns := r.exceptionTerms.value, r.exceptionPatterns.value;
            var fires := ExceptionPatternFires(re, text, patterns);
            && fires.Ok? && SomeTermIn(text, terms).Ok?
            && (GroupHit(re, norm, norm, AnyOf(AdaptTerms(terms), AdaptPatterns(patterns), [])).Some?
                <==> fires.value || SomeTermIn(text, terms).value)
  {
    var terms, patterns := r.exceptionTerms.value, r.exceptionPatterns.value;
    ExceptionPatternsAgree(re, text, patterns);
    TermsHitIffSome(text, terms, Lower(text));
    var g := AnyOf(AdaptTerms(terms), AdaptPatterns(patterns), []);
    assert FirstChildHit(re, Lower(text), Lower(text), g.children) == None;
  }

  lemma BodyAgrees(re: Search, text: string, r: Rule)
    requires r.patterns.Some? && UsableTerms(text, r)
    requires forall p :: p in r.patterns.value ==> p.Info? && (p.pattern.GetOr("") != "" || re("", text).None?)
    ensures var g := AnyOf(AdaptTerms(r.prohibitedTerms.value), AdaptPatterns(r.patterns.value), []);
            BodyHit(re, text, r).Ok? && GroupHit(re, Lower(text), text, g) == Lifted(BodyHit(re, text, r).value)
  {
    PatternsAgree(re, text, r.patterns.value);
    TermsAgree(text, r.prohibitedTerms.value);
    var g := AnyOf(AdaptTerms(r.prohibitedTerms.value), AdaptPatterns(r.patterns.value), []);
    assert FirstChildHit(re, Lower(text), text, g.children) == None;
  }

  lemma {:induction false} QuietPattern(re: Search, text: string, ps: seq<RawPattern>, s: string)
    requires ExceptionPatternFires(re, text, ps) == Ok(false) && Plain(s) in ps
    ensures re(s, text).None?
  {
    if ps[0] != Plain(s) {
      assert ps == [ps[0]] + ps[1..];
      QuietPattern(re, text, ps[1..], s);
    }
  }

  lemma NoTermsNoneAdapted(ts: seq<RawTerm>)
    ensures ts == [] <==> AdaptTerms(ts) == []
  {
    if ts != [] { Sequences.FlatMapHead(ts, TermText); }
  }

  // The conditions before the body, compiled, shut the rule out exactly when they do directly.
  lemma GateAgrees(re: Search, text: string, r: Rule)
    requires PlainExceptions(r) && Shut(text, r).Ok? && Normalized(text)
    ensures var fires := ExceptionPatternFires(re, text, r.exceptionPatterns.value);
            && fires.Ok?
            && Evaluate(re, text, LegacyAst(r), Some(text))
               == if fires.value || Shut(text, r).value || LegacyAst(r).body.None? then None
                  else GroupHit(re, Lower(text), text, LegacyAst(r).body.value)
  {
    Normalizer.MatchingIsLowerIffNormalized(text);
    ExceptionsAgree(re, text, r);
    var fires := ExceptionPatternFires(re, text, r.exceptionPatterns.value).value;
    if !fires && !SomeTermIn(text, r.exceptionTerms.value).value && OrEmpty(r.contextTerms) != [] {
      ContextAgrees(text, r.contextTerms.value);
      NoTermsNoneAdapted(r.contextTerms.value);
    }
  }

  // Evaluating the compiled tree, with lower-casing for normalisation.
  lemma CompiledHit(re: Search, text: string, r: Rule)
    requires Compilable(text, r) && !Blank(r) && Normalized(text)
    ensures Ok(Evaluate(re, text, LegacyAst(r), Some(text))) == LiftedOutcome(DirectHit(re, text, r))
  {
    GateAgrees(re, text, r);
    var fires := ExceptionPatternFires(re, text, r.exceptionPatterns.value);
    if !fires.value && !Shut(text, r).value {
      forall p | p in r.patterns.value ensures p.Info? && (p.pattern.GetOr("") != "" || re("", text).None?) {
        if p.pattern.GetOr("") == "" { QuietPattern(re, text, r.exceptionPatterns.value, ""); }
      }
      BodyAgrees(re, text, r);
      if LegacyAst(r).body.None? { NoBodyNoHit(re, text, r); }
    }
  }

  lemma NoBodyNoHit(re: Search, text: string, r: Rule)
    requires r.patterns.Some? && r.prohibitedTerms.Some? && LegacyAst(r).body.None?
    ensures GroupHit(re, Lower(text), text,
                     AnyOf(AdaptTerms(r.prohibitedTerms.value), AdaptPatterns(r.patterns.value), [])) == None
  {
    var g := AnyOf([], [], []);
    assert FirstChildHit(re, Lower(text), text, g.children) == None;
  }

  // On a normalised text the compiled rule and the direct matcher agree.
  lemma CompilingPreservesMeaning(re: Search, text: string, r: Rule)
    requires Compilable(text, r) && Normalized(text) && !Truthy(r.matchBlock)
    ensures Agree(re, text, r)
  {
    if Blank(r) {
      BlankNeverHits(re, text, r);
    } else {
      CompiledHit(re, text, r);
    }
  }

  // A rule without any entry is left to the direct matcher, which finds nothing, or raises
  // on every text when a list it loops over is null.
  lemma BlankNeverHits(re: Search, text: string, r: Rule)
    requires Blank(r)
    ensures DirectHit(re, text, r) == if NoNull(r) then Ok(None) else Raised
  {
  }

  /******* Where they disagree *******/

  // A search that never matches.
  const Never: Search := (p: string, s: string) => None

  // A search that matches the empty pattern, at the start, and no other.
  const OnlyEmpty: Search := (p: string, s: string) => if p == "" then Some(Location(0, 0)) else None

  lemma {:induction false} NeverReachesDictionary(text: string, ps: seq<RawPattern>)
    ensures ExceptionPatternFires(Never, text, ps)
         == if forall p :: p in ps ==> p.Plain? then Ok(false) else Raised
  {
    if ps != [] {
      assert ps == [ps[0]] + ps[1..];
      NeverReachesDictionary(text, ps[1..]);
    }
  }

  lemma {:induction false} NeverReachesString(text: string, ps: seq<RawPattern>)
    ensures DirectPatternHit(Never, text, ps) == if forall p :: p in ps ==> p.Info? then Ok(None) else Raised
  {
    if ps != [] {
      assert ps == [ps[0]] + ps[1..];
      NeverReachesString(text, ps[1..]);
      if ps[0].Info? {
        assert Never(ps[0].pattern.GetOr(""), text) == None;
      } else {
        assert ps[0] in ps;
      }
    }
  }

  lemma {:induction false} OnlyEmptyQuiet(text: string, ps: seq<RawPattern>)
    requires Plain("") !in ps && forall p :: p in ps ==> p.Plain?
    ensures ExceptionPatternFires(OnlyEmpty, text, ps) == Ok(false)
  {
    if ps != [] {
      assert ps == [ps[0]] + ps[1..];
      OnlyEmptyQuiet(text, ps[1..]);
    }
  }

  lemma {:induction false} OnlyEmptyHits(text: string, ps: seq<RawPattern>)
    requires forall p :: p in ps ==> p.Info?
    requires exists p :: p in ps && p.pattern.GetOr("") == ""
    ensures var h := DirectPatternHit(OnlyEmpty, text, ps);
            h.Ok? && h.value.Some? && h.value.value.kind == PatternMatch
  {
    assert ps[0] in ps;
    if ps[0].pattern.GetOr("") != "" {
      assert ps == [ps[0]] + ps[1..];
      OnlyEmptyHits(text, ps[1..]);
    }
  }

  // The adapter keeps no empty pattern, so the compiled tree finds none.
  lemma {:induction false} AdaptedNeverEmpty(text: string, ps: seq<RawPattern>)
    requires forall p :: p in ps ==> p.Info?
    ensures FirstPatternHit(OnlyEmpty, NormalizeForMatching(text), text, AdaptPatterns(ps)).None?
  {
    if ps != [] {
      assert ps[0] in ps;
      Sequences.FlatMapHead(ps, AdaptPattern);
      AdaptedNeverEmpty(text, ps[1..]);
      if ps[0].pattern.GetOr("") == "" {
        assert AdaptPatterns(ps) == AdaptPatterns(ps[1..]);
      } else {
        FirstPattern(OnlyEmpty, NormalizeForMatching(text), text, AdaptPattern(ps[0])[0], AdaptPatterns(ps[1..]));
      }
    }
  }

  lemma {:induction false} TermHitKind(norm: string, display: string, ts: seq<string>, confidence: real)
    ensures var h := FirstTermHit(norm, display, ts, confidence); h.Some? ==> h.value.kind == TermMatch
  {
    if ts != [] { TermHitKind(norm, display, ts[1..], confidence); }
  }

  lemma CompiledFindsNoEmpty(text: string, r: Rule)
    requires r.patterns.Some? && forall p :: p in r.patterns.value ==> p.Info?
    ensures var h := Evaluate(OnlyEmpty, text, LegacyAst(r), Some(text)); h.Some? ==> h.value.kind == TermMatch
  {
    var norm, terms := NormalizeForMatching(text), AdaptTerms(OrEmpty(r.prohibitedTerms));
    var g := AnyOf(terms, AdaptPatterns(r.patterns.value), []);
    AdaptedNeverEmpty(text, r.patterns.value);
    TermHitKind(norm, text, terms, DEFAULT_CONFIDENCE);
    assert FirstChildHit(OnlyEmpty, norm, text, g.children) == None;
  }

  lemma CompiledNeverRaises(re: Search, text: string, r: Rule)
    requires !Truthy(r.matchBlock) && !Blank(r)
    ensures MatchRule(re, text, r) == Ok(Evaluate(re, text, LegacyAst(r), Some(text)))
  {
  }

  // Where no pattern matches anything, the direct matcher comes to every entry that its
  // conditions let it come to.
  lemma NeverRaises(text: string, r: Rule)
    ensures DirectHit(Never, text, r) == Raised
       <==> || !PlainExceptions(r)
            || Shut(text, r) == Raised
            || (Shut(text, r) == Ok(false)
                && !(r.patterns.Some? && (forall p :: p in r.patterns.value ==> p.Info?) && UsableTerms(text, r)))
  {
    NeverReachesDictionary(text, OrEmpty(r.exceptionPatterns));
    NeverReachesString(text, OrEmpty(r.patterns));
  }

  // A search on which a rule that is not compilable is read in two ways.
  lemma Disagreement(text: string, r: Rule) returns (re: Search)
    requires !Truthy(r.matchBlock) && !Compilable(text, r)
    ensures !Agree(re, text, r)
  {
    NeverRaises(text, r);
    if DirectHit(Never, text, r) == Raised {
      re := Never;
      CompiledNeverRaises(re, text, r);
    } else {
      re := OnlyEmpty;
      OnlyEmptyQuiet(text, r.exceptionPatterns.value);
      OnlyEmptyHits(text, r.patterns.value);
      CompiledFindsNoEmpty(text, r);
      CompiledNeverRaises(re, text, r);
    }
  }

  // Main theorem: on a normalised text, a rule without a `match:` block means the same to
  // both matchers, whatever its patterns match, exactly when it is compilable.
  lemma AgreeIffCompilable(text: string, r: Rule)
    requires Normalized(text) && !Truthy(r.matchBlock)
    ensures (forall re: Search :: Agree(re, text, r)) <==> Compilable(text, r)
  {
    if Compilable(text, r) {
      forall re: Search ensures Agree(re, text, r) {
        CompilingPreservesMeaning(re, text, r);
      }
    } else {
      var re := Disagreement(text, r);
    }
  }

  /******* Texts *******/

  lemma ShorterNeverContains(norm: string, sub: string)
    requires |norm| <= |sub| && norm != sub
    ensures Find(norm, sub) < 0
  {
    assert norm[0..|norm|] == norm;
  }

  // A rule that tells the two apart on a text with blanks to collapse: the text itself.
  lemma TextAsTermDisagrees(re: Search, text: string, r: Rule)
    requires !Normalized(text)
    requires r.prohibitedTerms == Some([Term(text)]) && r.patterns == Some([]) && r.contextTerms == Some([])
    requires r.exceptionTerms == Some([]) && r.exceptionPatterns == Some([]) && !Truthy(r.matchBlock)
    ensures !Agree(re, text, r)
  {
    var norm := NormalizeForMatching(text);
    Normalizer.MatchingIsLowerIffNormalized(text);
    Normalizer.NormalizeForMatchingShortens(text);
    assert OccursAt(Lower(text), Lower(text), 0);
    assert DirectTermHit(text, [Term(text)]).value.Some?;
    assert DirectHit(re, text, r).Ok? && DirectHit(re, text, r).value.Some?;
    ShorterNeverContains(norm, Lower(text));
    var g := AnyOf([text], [], []);
    assert FirstTermHit(norm, text, [text][1..], DEFAULT_CONFIDENCE) == None;
    assert FirstTermHit(norm, text, g.terms, g.termConfidence) == None;
    assert FirstPatternHit(re, norm, text, g.patterns) == None && FirstChildHit(re, norm, text, g.children) == None;
    assert GroupHit(re, norm, text, g) == None;
    assert AdaptTerms([Term(text)]) == [text] by { Sequences.FlatMapOne([Term(text)], TermText); }
    assert LegacyAst(r) == Ast(None, None, Some(g));
  }

  lemma {:induction false} StringsNeverRaise(text: string, ts: seq<RawTerm>)
    requires forall t :: t in ts ==> t.Term?
    ensures SomeTermIn(text, ts).Ok? && DirectTermHit(text, ts).Ok?
  {
    if ts != [] {
      assert ts[0] in ts;
      StringsNeverRaise(text, ts[1..]);
    }
  }

  lemma LegacyIsCompilable(text: string, r: Rule)
    requires Legacy(r)
    ensures Compilable(text, r)
  {
    StringsNeverRaise(text, r.exceptionTerms.value);
    StringsNeverRaise(text, r.contextTerms.value);
    StringsNeverRaise(text, r.prohibitedTerms.value);
  }

  // Main theorem: the old and the new matcher agree on every legacy rule exactly
  // when the text is normalised.
  lemma AgreeOnAllRulesIffNormalized(re: Search, text: string)
    ensures (forall r: Rule :: Legacy(r) ==> Agree(re, text, r)) <==> Normalized(text)
  {
    if Normalized(text) {
      forall r: Rule | Legacy(r) ensures Agree(re, text, r) {
        LegacyIsCompilable(text, r);
        CompilingPreservesMeaning(re, text, r);
      }
    } else {
      var r := Rule("", None, Null, Some([Term(text)]), Some([]), Some([]), Some([]), Some([]), []);
      TextAsTermDisagrees(re, text, r);
      assert Legacy(r);
    }
  }

  lemma {:induction false} DirectTermConfidence(text: string, ts: seq<RawTerm>)
    ensures var h := DirectTermHit(text, ts);
            h.Ok? && h.value.Some? ==>
              h.value.value.kind == TermMatch && (h.value.value.confidence == 0.95 || h.value.value.confidence == 0.85)
  {
    if ts != [] { DirectTermConfidence(text, ts[1..]); }
  }

  lemma {:induction false} DirectPatternKind(re: Search, text: string, ps: seq<RawPattern>)
    ensures var h := DirectPatternHit(re, text, ps);
            h.Ok? && h.value.Some? ==> h.value.value.kind == PatternMatch
  {
    if ps != [] { DirectPatternKind(re, text, ps[1..]); }
  }

  // Raising a term's confidence to 0.9 never changes the multiplier the scorer uses.
  lemma LiftingKeepsMultiplier(re: Search, text: string, r: Rule)
    ensures var h := DirectHit(re, text, r);
            h.Ok? && h.value.Some? ==>
              && Lifted(h.value).Some?
              && Scoring.ConfidenceTenths(Lifted(h.value).value.confidence)
                 == Scoring.ConfidenceTenths(h.value.value.confidence)
  {
    DirectTermConfidence(text, OrEmpty(r.prohibitedTerms));
    DirectPatternKind(re, text, OrEmpty(r.patterns));
  }
}
