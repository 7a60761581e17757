/**
  Document mode: the engine sees the built document instead of the fragments
  (src/zataone/core/pipeline.py, lines 372-443; src/zataone/policy_engine/engine.py,
  lines 112-144). Exactly when two orders of completion clear the same runs, and which
  runs can be told beforehand to be free of the schedule.
 */
module DocumentMode {
  import opened Options
  import opened Text
  import opened Sequences
  import opened StableSort
  import opened Dsl
  import opened LegacyRules
  import opened Engine
  import opened Extraction
  import opened Pipeline
  import opened Verdict
  import opened Yaml
  import DocumentBuilder
  import DslMeaning
  import EngineMeaning
  import LegacyMeaning
  import Normalizer
  import Parser
  import Schedule

  /******* Rules see a text up to case *******/

  lemma SearchUpToCase(re: Search, p: string, s: string, t: string)
    requires Lower(s) == Lower(t)
    ensures re(p, s) == re(p, t)
  {
  }

  lemma {:induction false} SatisfiedUpToCase(re: Search, norm: string, s: string, t: string, g: Group)
    requires Lower(s) == Lower(t)
    ensures DslMeaning.Satisfied(re, norm, s, g) <==> DslMeaning.Satisfied(re, norm, t, g)
  {
    forall p ensures DslMeaning.PatternOccurs(re, norm, s, p) <==> DslMeaning.PatternOccurs(re, norm, t, p) {
      SearchUpToCase(re, p.pattern, s, t);
    }
    forall c | c in g.children
      ensures DslMeaning.Satisfied(re, norm, s, c) <==> DslMeaning.Satisfied(re, norm, t, c)
    {
      SatisfiedUpToCase(re, norm, s, t, c);
    }
  }

  lemma EvaluateUpToCase(re: Search, s: string, t: string, ast: Ast)
    requires Lower(s) == Lower(t)
    ensures Evaluate(re, s, ast, Some(s)).Some? <==> Evaluate(re, t, ast, Some(t)).Some?
  {
    Normalizer.MatchingIsLowerOfNormalize(s);
    Normalizer.MatchingIsLowerOfNormalize(t);
    DslMeaning.EvaluateIffReading(re, s, ast, Some(s));
    DslMeaning.EvaluateIffReading(re, t, ast, Some(t));
    if ast.body.Some? { SatisfiedUpToCase(re, NormalizeForMatching(s), s, t, ast.body.value); }
  }

  // The same outcome, apart from where the hit is.
  predicate Alike(a: Parser.Outcome<Option<Hit>>, b: Parser.Outcome<Option<Hit>>) {
    (a.Ok? <==> b.Ok?) && (a.Ok? ==> (a.value.Some? <==> b.value.Some?))
  }

  lemma {:induction false} ExceptionsUpToCase(re: Search, s: string, t: string, ps: seq<RawPattern>)
    requires Lower(s) == Lower(t)
    ensures ExceptionPatternFires(re, s, ps) == ExceptionPatternFires(re, t, ps)
  {
    if ps != [] {
      ExceptionsUpToCase(re, s, t, ps[1..]);
      if ps[0].Plain? { SearchUpToCase(re, ps[0].s, s, t); }
    }
  }

  lemma {:induction false} PatternsUpToCase(re: Search, s: string, t: string, ps: seq<RawPattern>)
    requires Lower(s) == Lower(t)
    ensures Alike(DirectPatternHit(re, s, ps), DirectPatternHit(re, t, ps))
  {
    if ps != [] {
      PatternsUpToCase(re, s, t, ps[1..]);
      if ps[0].Info? { SearchUpToCase(re, ps[0].pattern.GetOr(""), s, t); }
    }
  }

  lemma {:induction false} TermsUpToCase(s: string, t: string, ts: seq<RawTerm>)
    requires Lower(s) == Lower(t)
    ensures Alike(DirectTermHit(s, ts), DirectTermHit(t, ts)) && SomeTermIn(s, ts) == SomeTermIn(t, ts)
  {
    if ts != [] { TermsUpToCase(s, t, ts[1..]); }
  }

  lemma DirectUpToCase(re: Search, s: string, t: string, r: Rule)
    requires Lower(s) == Lower(t)
    ensures Alike(DirectHit(re, s, r), DirectHit(re, t, r))
  {
    ExceptionsUpToCase(re, s, t, OrEmpty(r.exceptionPatterns));
    TermsUpToCase(s, t, OrEmpty(r.exceptionTerms));
    TermsUpToCase(s, t, OrEmpty(r.contextTerms));
    PatternsUpToCase(re, s, t, OrEmpty(r.patterns));
    TermsUpToCase(s, t, OrEmpty(r.prohibitedTerms));
  }

  // Compiled or not, a rule fires, or raises, on both of two texts that differ in case only.
  lemma RuleUpToCase(re: Search, s: string, t: string, e: Entry)
    requires Lower(s) == Lower(t)
    ensures HitIn(re, s, e).Some? <==> HitIn(re, t, e).Some?
    ensures MatchRaises(re, s, e) <==> MatchRaises(re, t, e)
  {
    DirectUpToCase(re, s, t, e.rule);
    if e.ast.Some? { EvaluateUpToCase(re, s, t, e.ast.value); }
  }

  lemma {:induction false} RaisesUpToCase(re: Search, pack: seq<Entry>, s: string, t: string,
                                          active: Option<set<string>>)
    requires Lower(s) == Lower(t)
    ensures SomeRaises(re, pack, s, active) <==> SomeRaises(re, pack, t, active)
  {
    if pack != [] {
      RuleUpToCase(re, s, t, pack[|pack| - 1]);
      RaisesUpToCase(re, pack[..|pack| - 1], s, t, active);
    }
  }

  /******* What a document-mode run makes of an order *******/

  // What the engine is given for an order of completion.
  function Given(asset: DocumentBuilder.Asset, order: seq<Run>): Input {
    EngineInput(asset, MergeAll(order).signals, true)
  }

  lemma OrderedSignals(order1: seq<Run>, order2: seq<Run>)
    requires multiset(order1) == multiset(order2)
    ensures multiset(MergeAll(order1).signals) == multiset(MergeAll(order2).signals)
  {
    MergedSignals(order1);
    MergedSignals(order2);
    FlatMapPermutes(order1, order2, SignalsOf());
  }

  lemma EvidenceUpToCase(re: Search, e: Entry, i: Input, j: Input)
    requires multiset(i.signals) == multiset(j.signals) && i.document.Some? && j.document.Some?
    requires Lower(i.document.value.text) == Lower(j.document.value.text)
    ensures EngineMeaning.Evidence(re, e, i) <==> EngineMeaning.Evidence(re, e, j)
  {
    SameElements(i.signals, j.signals);
    RuleUpToCase(re, i.document.value.text, j.document.value.text, e);
  }

  lemma SomeEvidenceUpToCase(re: Search, pack: seq<Entry>, i: Input, j: Input, active: Option<set<string>>)
    requires multiset(i.signals) == multiset(j.signals) && i.document.Some? && j.document.Some?
    requires Lower(i.document.value.text) == Lower(j.document.value.text)
    ensures SomeEvidence(re, pack, i, active) <==> SomeEvidence(re, pack, j, active)
  {
    forall e ensures EngineMeaning.Evidence(re, e, i) <==> EngineMeaning.Evidence(re, e, j) {
      EvidenceUpToCase(re, e, i, j);
    }
  }

  /******* Rules that forbid one word *******/

  function Forbids(name: string, terms: seq<RawTerm>): Rule {
    Rule(name, None, Null, Some(terms), Some([]), Some([]), Some([]), Some([]), [])
  }

  function Compiled(id: string, r: Rule): Entry {
    var ast := RuleToAst(r);
    Entry(id, r, if ast.Ok? then ast.value else None)
  }

  // On a normalised text the compiled rule fires exactly when the word occurs.
  lemma ForbiddenWord(re: Search, text: string, id: string, name: string, x: string)
    requires Normalized(text)
    ensures HitIn(re, text, Compiled(id, Forbids(name, [Term(x)]))).Some? <==> Contains(Lower(text), Lower(x))
  {
    var r := Forbids(name, [Term(x)]);
    LegacyMeaning.LegacyIsCompilable(text, r);
    LegacyMeaning.CompilingPreservesMeaning(re, text, r);
    TermForbidden(re, text, r, x);
    assert MatchRule(re, text, r) == MatchWith(re, text, r, Compiled(id, r).ast);
  }

  lemma TermForbidden(re: Search, text: string, r: Rule, x: string)
    requires r.prohibitedTerms == Some([Term(x)]) && r.patterns == Some([]) && r.exceptionPatterns == Some([])
    requires r.exceptionTerms == Some([]) && r.contextTerms == Some([])
    ensures DirectHit(re, text, r) == Parser.Ok(TermIn(text, x))
  {
    assert [Term(x)][1..] == [];
    assert DirectTermHit(text, [Term(x)]) == Parser.Ok(TermIn(text, x));
  }

  // A `match:` that is no dictionary leaves the rule to the direct matcher, which never
  // normalises: this one fires exactly when the word occurs, on every text.
  function ForbidsAsIs(x: string): Rule {
    Forbids("", [Term(x)]).(matchBlock := Bool(true))
  }

  lemma ForbiddenAsIs(re: Search, text: string, x: string)
    ensures HitIn(re, text, Compiled("rule", ForbidsAsIs(x))).Some? <==> Contains(Lower(text), Lower(x))
    ensures CompilesTo(ForbidsAsIs(x), None) && !MatchRaises(re, text, Compiled("rule", ForbidsAsIs(x)))
  {
    TermForbidden(re, text, ForbidsAsIs(x), x);
  }

  lemma MutualContainment(s: string, t: string)
    requires Contains(s, t) && Contains(t, s)
    ensures s == t
  {
    assert |s| == |t|;
    assert s[0..|s|] == s && t[0..|t|] == t;
  }

  lemma ContainsItself(s: string)
    ensures Contains(s, s)
  {
    assert OccursAt(s, s, 0);
  }

  lemma OneRuleEvidence(re: Search, e: Entry, i: Input)
    requires i.document.Some? && !VisionPrimary(e)
    ensures SomeEvidence(re, [e], i, None) <==> HitIn(re, i.document.value.text, e).Some?
  {
    assert EngineMeaning.Evidence(re, e, i) <==> HitIn(re, i.document.value.text, e).Some?;
    assert e in [e];
  }

  /******* Exactly when two orders clear the same runs *******/

  // What a run needs to be cleared beside a pack that finds nothing.
  ghost predicate MayClear(runs: seq<Run>, engineOn: bool, review: Option<Review>) {
    engineOn && AllSucceed(runs) && MergeAll(runs).signals != [] && !Diverges(review)
  }

  // With retrieval off, the run is cleared without a human.
  ghost predicate ClearedAt(re: Search, t: Tables, pack: seq<Entry>, asset: DocumentBuilder.Asset, order: seq<Run>,
                            engineOn: bool, review: Option<Review>)
  {
    var vs := Expected(re, t, pack, Given(asset, order), None);
    ReviewStateForVerdict(Schedule.Stored(order, vs, engineOn, review)) == None
  }

  lemma ClearedAtIff(re: Search, t: Tables, pack: seq<Entry>, asset: DocumentBuilder.Asset, runs: seq<Run>,
                     order: seq<Run>, engineOn: bool, review: Option<Review>)
    requires multiset(order) == multiset(runs)
    ensures ClearedAt(re, t, pack, asset, order, engineOn, review)
       <==> MayClear(runs, engineOn, review) && !SomeEvidence(re, pack, Given(asset, order), None)
  {
    var i := Given(asset, order);
    var vs := Expected(re, t, pack, i, None);
    ClearedIff(re, t, pack, i, None, runs, order, engineOn, review, vs);
    OrderedSignals(order, runs);
    EngineMeaning.EmptyPermutes(MergeAll(order).signals, MergeAll(runs).signals);
  }

  ghost predicate LoadedPack(pack: seq<Entry>) {
    DistinctIds(pack) && forall e :: e in pack ==> CompilesTo(e.rule, e.ast)
  }

  // Two orders of completion, where neither makes the engine raise, decide alike.
  ghost predicate DecideAlike(re: Search, t: Tables, pack: seq<Entry>, asset: DocumentBuilder.Asset,
                              order1: seq<Run>, order2: seq<Run>, engineOn: bool, review: Option<Review>)
  {
    !Raises(re, pack, Given(asset, order1), None) && !Raises(re, pack, Given(asset, order2), None) ==>
      (ClearedAt(re, t, pack, asset, order1, engineOn, review)
       <==> ClearedAt(re, t, pack, asset, order2, engineOn, review))
  }

  ghost predicate AllDecideAlike(re: Search, t: Tables, asset: DocumentBuilder.Asset, order1: seq<Run>,
                                 order2: seq<Run>, engineOn: bool, review: Option<Review>)
  {
    forall pack :: LoadedPack(pack) ==> DecideAlike(re, t, pack, asset, order1, order2, engineOn, review)
  }

  // The documents of two orders read the same up to case.
  predicate ReadAlike(asset: DocumentBuilder.Asset, order1: seq<Run>, order2: seq<Run>) {
    Lower(Schedule.TextOfOrder(asset, order1)) == Lower(Schedule.TextOfOrder(asset, order2))
  }

  lemma SameTextDecidesAlike(re: Search, t: Tables, pack: seq<Entry>, asset: DocumentBuilder.Asset, runs: seq<Run>,
                             order1: seq<Run>, order2: seq<Run>, engineOn: bool, review: Option<Review>)
    requires multiset(order1) == multiset(runs) && multiset(order2) == multiset(runs)
    requires ReadAlike(asset, order1, order2) || !MayClear(runs, engineOn, review)
    ensures DecideAlike(re, t, pack, asset, order1, order2, engineOn, review)
    ensures ReadAlike(asset, order1, order2) ==>
              (Raises(re, pack, Given(asset, order1), None) <==> Raises(re, pack, Given(asset, order2), None))
  {
    if ReadAlike(asset, order1, order2) {
      RaisesUpToCase(re, pack, Schedule.TextOfOrder(asset, order1), Schedule.TextOfOrder(asset, order2), None);
    }
    ClearedAtIff(re, t, pack, asset, runs, order1, engineOn, review);
    ClearedAtIff(re, t, pack, asset, runs, order2, engineOn, review);
    if MayClear(runs, engineOn, review) {
      OrderedSignals(order1, order2);
      SomeEvidenceUpToCase(re, pack, Given(asset, order1), Given(asset, order2), None);
    }
  }

  // A pack of one rule that fires exactly where x occurs, and does not raise.
  ghost predicate Spots(re: Search, e: Entry, x: string, text: string) {
    && !VisionPrimary(e) && !MatchRaises(re, text, e)
    && (HitIn(re, text, e).Some? <==> Contains(Lower(text), Lower(x)))
  }

  lemma OneRuleRaises(re: Search, e: Entry, i: Input)
    requires i.document.Some? && !MatchRaises(re, i.document.value.text, e)
    ensures !Raises(re, [e], i, None)
  {
    SomeRaisesIff(re, [e], i.document.value.text, None);
  }

  // Such packs see the text of each order in the other's.
  lemma SpottedInBoth(re: Search, t: Tables, e: Entry, asset: DocumentBuilder.Asset, runs: seq<Run>,
                      order1: seq<Run>, order2: seq<Run>, engineOn: bool, review: Option<Review>, x: string)
    requires multiset(order1) == multiset(runs) && multiset(order2) == multiset(runs)
    requires MayClear(runs, engineOn, review)
    requires Spots(re, e, x, Schedule.TextOfOrder(asset, order1))
    requires Spots(re, e, x, Schedule.TextOfOrder(asset, order2))
    requires DecideAlike(re, t, [e], asset, order1, order2, engineOn, review)
    ensures Contains(Lower(Schedule.TextOfOrder(asset, order1)), Lower(x))
       <==> Contains(Lower(Schedule.TextOfOrder(asset, order2)), Lower(x))
  {
    OneRuleRaises(re, e, Given(asset, order1));
    OneRuleRaises(re, e, Given(asset, order2));
    ClearedAtIff(re, t, [e], asset, runs, order1, engineOn, review);
    ClearedAtIff(re, t, [e], asset, runs, order2, engineOn, review);
    OneRuleEvidence(re, e, Given(asset, order1));
    OneRuleEvidence(re, e, Given(asset, order2));
  }

  lemma SameIfSpotted(s: string, t: string)
    requires Contains(s, s) <==> Contains(t, s)
    requires Contains(s, t) <==> Contains(t, t)
    ensures s == t
  {
    ContainsItself(s);
    ContainsItself(t);
    MutualContainment(s, t);
  }

  lemma SpotsAsIs(re: Search, text: string, x: string)
    ensures var e := Compiled("rule", ForbidsAsIs(x));
            LoadedPack([e]) && Spots(re, e, x, text)
  {
    ForbiddenAsIs(re, text, x);
  }

  lemma SeenAsIs(re: Search, t: Tables, asset: DocumentBuilder.Asset, runs: seq<Run>, order1: seq<Run>,
                 order2: seq<Run>, engineOn: bool, review: Option<Review>, x: string)
    requires multiset(order1) == multiset(runs) && multiset(order2) == multiset(runs)
    requires MayClear(runs, engineOn, review)
    requires AllDecideAlike(re, t, asset, order1, order2, engineOn, review)
    ensures Contains(Lower(Schedule.TextOfOrder(asset, order1)), Lower(x))
       <==> Contains(Lower(Schedule.TextOfOrder(asset, order2)), Lower(x))
  {
    SpotsAsIs(re, Schedule.TextOfOrder(asset, order1), x);
    SpotsAsIs(re, Schedule.TextOfOrder(asset, order2), x);
    SpottedInBoth(re, t, Compiled("rule", ForbidsAsIs(x)), asset, runs, order1, order2, engineOn, review, x);
  }

  lemma LoadedPacksTell(re: Search, t: Tables, asset: DocumentBuilder.Asset, runs: seq<Run>, order1: seq<Run>,
                        order2: seq<Run>, engineOn: bool, review: Option<Review>)
    requires multiset(order1) == multiset(runs) && multiset(order2) == multiset(runs)
    requires MayClear(runs, engineOn, review)
    requires AllDecideAlike(re, t, asset, order1, order2, engineOn, review)
    ensures ReadAlike(asset, order1, order2)
  {
    var s1, s2 := Schedule.TextOfOrder(asset, order1), Schedule.TextOfOrder(asset, order2);
    forall x ensures Contains(Lower(s1), Lower(x)) <==> Contains(Lower(s2), Lower(x)) {
      SeenAsIs(re, t, asset, runs, order1, order2, engineOn, review, x);
    }
    SameIfSpotted(Lower(s1), Lower(s2));
  }

  // Main theorem: in document mode with retrieval off, two orders of completion decide
  // alike under every loaded pack exactly when their documents read the same up to case,
  // or nothing could clear the run anyway.
  lemma DocumentModeFreeIff(re: Search, t: Tables, asset: DocumentBuilder.Asset, runs: seq<Run>, order1: seq<Run>,
                            order2: seq<Run>, engineOn: bool, review: Option<Review>)
    requires multiset(order1) == multiset(runs) && multiset(order2) == multiset(runs)
    ensures AllDecideAlike(re, t, asset, order1, order2, engineOn, review)
       <==> ReadAlike(asset, order1, order2) || !MayClear(runs, engineOn, review)
  {
    if ReadAlike(asset, order1, order2) || !MayClear(runs, engineOn, review) {
      forall pack | LoadedPack(pack) ensures DecideAlike(re, t, pack, asset, order1, order2, engineOn, review) {
        SameTextDecidesAlike(re, t, pack, asset, runs, order1, order2, engineOn, review);
      }
    } else if AllDecideAlike(re, t, asset, order1, order2, engineOn, review) {
      LoadedPacksTell(re, t, asset, runs, order1, order2, engineOn, review);
    }
  }

  ghost predicate AllReadAlike(asset: DocumentBuilder.Asset, runs: seq<Run>) {
    forall order: seq<Run> :: multiset(order) == multiset(runs) ==> ReadAlike(asset, order, runs)
  }

  // Under no loaded pack does the order of completion decide.
  ghost predicate NoOrderDecides(re: Search, t: Tables, asset: DocumentBuilder.Asset, runs: seq<Run>, engineOn: bool,
                                 review: Option<Review>)
  {
    forall order: seq<Run> :: multiset(order) == multiset(runs) ==>
      AllDecideAlike(re, t, asset, order, runs, engineOn, review)
  }

  // So no order decides anything exactly when all orders build the same text up to case,
  // or nothing could clear the run.
  lemma NoOrderDecidesIff(re: Search, t: Tables, asset: DocumentBuilder.Asset, runs: seq<Run>, engineOn: bool,
                          review: Option<Review>)
    ensures NoOrderDecides(re, t, asset, runs, engineOn, review)
       <==> AllReadAlike(asset, runs) || !MayClear(runs, engineOn, review)
  {
    forall order: seq<Run> | multiset(order) == multiset(runs)
      ensures AllDecideAlike(re, t, asset, order, runs, engineOn, review)
         <==> ReadAlike(asset, order, runs) || !MayClear(runs, engineOn, review)
    {
      DocumentModeFreeIff(re, t, asset, runs, order, runs, engineOn, review);
    }
  }

  /******* The same for packs that never raise *******/

  // The pack's rules have match trees, or nothing to match.
  ghost predicate SoundPack(pack: seq<Entry>) {
    DistinctIds(pack) && forall e :: e in pack ==> EngineMeaning.Sound(e)
  }

  ghost predicate ClearAlike(re: Search, t: Tables, pack: seq<Entry>, asset: DocumentBuilder.Asset,
                             order1: seq<Run>, order2: seq<Run>, engineOn: bool, review: Option<Review>)
  {
    ClearedAt(re, t, pack, asset, order1, engineOn, review) <==> ClearedAt(re, t, pack, asset, order2, engineOn, review)
  }

  lemma SoundPackDecides(re: Search, t: Tables, pack: seq<Entry>, asset: DocumentBuilder.Asset,
                         order1: seq<Run>, order2: seq<Run>, engineOn: bool, review: Option<Review>)
    requires SoundPack(pack)
    ensures DecideAlike(re, t, pack, asset, order1, order2, engineOn, review)
       <==> ClearAlike(re, t, pack, asset, order1, order2, engineOn, review)
  {
    EngineMeaning.CompiledPackNeverRaises(re, pack, Given(asset, order1), None);
    EngineMeaning.CompiledPackNeverRaises(re, pack, Given(asset, order2), None);
  }

  lemma SoundSpots(re: Search, text: string, x: string)
    requires Normalized(text)
    ensures var e := Compiled("rule", Forbids("", [Term(x)]));
            SoundPack([e]) && Spots(re, e, x, text)
  {
    ForbiddenWord(re, text, "rule", "", x);
    EngineMeaning.CompiledRuleNeverRaises(re, text, Compiled("rule", Forbids("", [Term(x)])));
  }

  lemma SeenCompiled(re: Search, t: Tables, asset: DocumentBuilder.Asset, runs: seq<Run>, order1: seq<Run>,
                     order2: seq<Run>, engineOn: bool, review: Option<Review>, x: string)
    requires multiset(order1) == multiset(runs) && multiset(order2) == multiset(runs)
    requires Normalized(Schedule.TextOfOrder(asset, order1)) && Normalized(Schedule.TextOfOrder(asset, order2))
    requires MayClear(runs, engineOn, review)
    requires forall pack :: SoundPack(pack) ==> ClearAlike(re, t, pack, asset, order1, order2, engineOn, review)
    ensures Contains(Lower(Schedule.TextOfOrder(asset, order1)), Lower(x))
       <==> Contains(Lower(Schedule.TextOfOrder(asset, order2)), Lower(x))
  {
    var e := Compiled("rule", Forbids("", [Term(x)]));
    SoundSpots(re, Schedule.TextOfOrder(asset, order1), x);
    SoundSpots(re, Schedule.TextOfOrder(asset, order2), x);
    SoundPackDecides(re, t, [e], asset, order1, order2, engineOn, review);
    SpottedInBoth(re, t, e, asset, runs, order1, order2, engineOn, review, x);
  }

  lemma SoundPacksTell(re: Search, t: Tables, asset: DocumentBuilder.Asset, runs: seq<Run>, order1: seq<Run>,
                       order2: seq<Run>, engineOn: bool, review: Option<Review>)
    requires multiset(order1) == multiset(runs) && multiset(order2) == multiset(runs)
    requires Normalized(Schedule.TextOfOrder(asset, order1)) && Normalized(Schedule.TextOfOrder(asset, order2))
    requires MayClear(runs, engineOn, review)
    requires forall pack :: SoundPack(pack) ==> ClearAlike(re, t, pack, asset, order1, order2, engineOn, review)
    ensures ReadAlike(asset, order1, order2)
  {
    var s1, s2 := Schedule.TextOfOrder(asset, order1), Schedule.TextOfOrder(asset, order2);
    forall x ensures Contains(Lower(s1), Lower(x)) <==> Contains(Lower(s2), Lower(x)) {
      SeenCompiled(re, t, asset, runs, order1, order2, engineOn, review, x);
    }
    SameIfSpotted(Lower(s1), Lower(s2));
  }

  // Main theorem: where both documents are normalised, the packs of compiled rules, which
  // never raise, are enough to tell.
  lemma CompiledPacksFreeIff(re: Search, t: Tables, asset: DocumentBuilder.Asset, runs: seq<Run>, order1: seq<Run>,
                             order2: seq<Run>, engineOn: bool, review: Option<Review>)
    requires multiset(order1) == multiset(runs) && multiset(order2) == multiset(runs)
    requires Normalized(Schedule.TextOfOrder(asset, order1)) && Normalized(Schedule.TextOfOrder(asset, order2))
    ensures (forall pack :: SoundPack(pack) ==> ClearAlike(re, t, pack, asset, order1, order2, engineOn, review))
       <==> ReadAlike(asset, order1, order2) || !MayClear(runs, engineOn, review)
  {
    if ReadAlike(asset, order1, order2) || !MayClear(runs, engineOn, review) {
      forall pack | SoundPack(pack) ensures ClearAlike(re, t, pack, asset, order1, order2, engineOn, review) {
        SameTextDecidesAlike(re, t, pack, asset, runs, order1, order2, engineOn, review);
        SoundPackDecides(re, t, pack, asset, order1, order2, engineOn, review);
      }
    } else if forall pack :: SoundPack(pack) ==> ClearAlike(re, t, pack, asset, order1, order2, engineOn, review) {
      SoundPacksTell(re, t, asset, runs, order1, order2, engineOn, review);
    }
  }
}
