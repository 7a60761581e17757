/**
  When rules fire, and why shortlists and the order of the signals do not disturb
  them (src/zataone/policy_engine/engine.py, lines 76-428).
 */
module EngineMeaning {
  import opened Options
  import opened Signals
  import opened Sequences
  import opened StableSort
  import opened Dsl
  import opened LegacyRules
  import opened Yaml
  import opened Violations
  import opened Engine

  /******* The rescan branch *******/

  // The second look for text repeats the first one, so it never finds anything.
  lemma RescanNeverAdds(re: Search, e: Entry, i: Input)
    requires TextMatches(re, e, i) == []
    ensures Rescan(re, e, i) == []
  {
    if i.document.None? {
      var ss := Keep(i.signals, IsTextSignal);
      FlatMapNothing(ss, FragmentMatcher(re, e));
      forall s | s in ss ensures RescanViolation(re, e)(s) == [] {
        assert FragmentMatcher(re, e)(s) == [];
      }
      FlatMapEmpty(ss, RescanViolation(re, e));
    }
  }

  /******* When a rule fires *******/

  // In plain words: a detected object carries a primary label, or some text matches.
  ghost predicate Evidence(re: Search, e: Entry, i: Input) {
    if VisionPrimary(e) then
      exists s :: s in i.signals && IsVisionObject(s) && LabelOf(s) in AllowedLabels(e.rule)
    else
      match i.document
      case Some(doc) => HitIn(re, doc.text, e).Some?
      case None => exists s :: s in i.signals && IsTextSignal(s) && HitIn(re, TextOf(s), e).Some?
  }

  lemma TriggeredIffEvidence(re: Search, e: Entry, i: Input)
    ensures Triggered(re, e, i) <==> Evidence(re, e, i)
  {
    if VisionPrimary(e) {
      var objects := Keep(i.signals, IsVisionObject);
      KeepMembers(i.signals, IsVisionObject);
      KeepMembers(objects, CarriesLabel(AllowedLabels(e.rule)));
      NonEmpty(VisionMatches(e, i));
    } else if i.document.None? {
      var ss := Keep(i.signals, IsTextSignal);
      KeepMembers(i.signals, IsTextSignal);
      FragmentMatchesNonEmpty(re, e, ss);
    }
  }

  lemma NonEmpty<T>(s: seq<T>)
    ensures s != [] <==> exists x :: x in s
  {
    if s != [] { assert s[0] in s; }
  }

  lemma FragmentMatchesNonEmpty(re: Search, e: Entry, ss: seq<Signal>)
    ensures FragmentMatches(re, e, ss) != [] <==> exists s :: s in ss && HitIn(re, TextOf(s), e).Some?
  {
    FlatMapMembers(ss, FragmentMatcher(re, e));
    NonEmpty(FragmentMatches(re, e, ss));
    if s :| s in ss && HitIn(re, TextOf(s), e).Some? {
      var m := FragmentMatcher(re, e)(s)[0];
      assert m in FragmentMatcher(re, e)(s);
      assert m in FragmentMatches(re, e, ss);
    }
  }

  ghost predicate AllOf(vs: seq<Violation>, id: string) {
    forall v :: v in vs ==> v.ruleId == id
  }

  lemma ReportsCarryId<T>(s: seq<T>, f: T -> seq<Violation>, id: string)
    requires forall x :: x in s ==> AllOf(f(x), id)
    ensures AllOf(FlatMap(s, f), id)
  {
    FlatMapMembers(s, f);
  }

  lemma RescanCarriesId(re: Search, e: Entry, i: Input)
    ensures AllOf(Rescan(re, e, i), e.id)
  {
    if i.document.None? { ReportsCarryId(Keep(i.signals, IsTextSignal), RescanViolation(re, e), e.id); }
  }

  lemma EvidenceCarriesId(t: Tables, e: Entry, i: Input)
    ensures AllOf(EmbeddingPart(t, e, i), e.id) && AllOf(SupportPart(t, e, i), e.id)
  {
    if e.id in t.embeddingRules {
      ReportsCarryId(Keep(i.signals, IsEmbedding(t.embeddingRules[e.id])), EmbeddingViolation(e, i), e.id);
    }
    if e.id in t.visionSupport {
      var xs := Keep(Keep(i.signals, IsVisionObject), CarriesLabel(t.visionSupport[e.id]));
      ReportsCarryId(xs, ObjectViolation(e, i), e.id);
    }
  }

  // Every violation a rule assembles carries its id.
  lemma AssembledIds(re: Search, t: Tables, e: Entry, i: Input)
    ensures AllOf(Assembled(re, t, e, i), e.id)
  {
    ReportsCarryId(TextMatches(re, e, i), MatchViolation(e, i), e.id);
    ReportsCarryId(VisionMatches(e, i), ObjectViolation(e, i), e.id);
    RescanCarriesId(re, e, i);
    EvidenceCarriesId(t, e, i);
  }

  lemma TextMatchesReported(re: Search, e: Entry, i: Input, m: Match)
    requires m in TextMatches(re, e, i)
    ensures |MatchViolation(e, i)(m)| == 1
  {
    if i.document.None? {
      FlatMapMembers(Keep(i.signals, IsTextSignal), FragmentMatcher(re, e));
    }
  }

  lemma TriggeredAssembles(re: Search, t: Tables, e: Entry, i: Input)
    requires Triggered(re, e, i)
    ensures Assembled(re, t, e, i) != []
  {
    var matches, objects := TextMatches(re, e, i), VisionMatches(e, i);
    FlatMapMembers(matches, MatchViolation(e, i));
    FlatMapMembers(objects, ObjectViolation(e, i));
    if VisionPrimary(e) {
      assert objects[0] in objects;
      assert ObjectViolation(e, i)(objects[0])[0] in FlatMap(objects, ObjectViolation(e, i));
    } else {
      assert matches[0] in matches;
      TextMatchesReported(re, e, i, matches[0]);
      assert MatchViolation(e, i)(matches[0])[0] in FlatMap(matches, MatchViolation(e, i));
    }
  }

  lemma ReportedIffOutput(pack: seq<Entry>, f: Entry -> seq<Violation>, e: Entry)
    requires DistinctIds(pack) && e in pack
    requires forall x :: x in pack ==> AllOf(f(x), x.id)
    ensures (exists v :: v in FlatMap(pack, f) && v.ruleId == e.id) <==> f(e) != []
  {
    FlatMapMembers(pack, f);
    if f(e) != [] {
      assert f(e)[0] in f(e);
    }
    if v :| v in FlatMap(pack, f) && v.ruleId == e.id {
      var x :| x in pack && v in f(x);
      assert x.id == e.id;
      assert x == e;
    }
  }

  lemma OutputIds(re: Search, t: Tables, i: Input, active: Option<set<string>>, e: Entry)
    ensures AllOf(Output(re, t, i, active)(e), e.id)
    ensures Output(re, t, i, active)(e) != [] <==> Active(active, e.id) && Evidence(re, e, i)
  {
    AssembledIds(re, t, e, i);
    TriggeredIffEvidence(re, e, i);
    if Triggered(re, e, i) { TriggeredAssembles(re, t, e, i); }
  }

  // Main theorem: a rule of the pack has violations iff it is active and has evidence.
  // Embeddings and vision support appear in neither condition.
  lemma RuleFiresIff(re: Search, t: Tables, pack: seq<Entry>, i: Input, active: Option<set<string>>, e: Entry)
    requires DistinctIds(pack) && e in pack
    ensures (exists v :: v in Expected(re, t, pack, i, active) && v.ruleId == e.id)
       <==> Active(active, e.id) && Evidence(re, e, i)
  {
    var f := Output(re, t, i, active);
    forall x | x in pack ensures AllOf(f(x), x.id) { OutputIds(re, t, i, active, x); }
    ReportedIffOutput(pack, f, e);
    OutputIds(re, t, i, active, e);
  }

  // No violation comes from outside the pack or the shortlist.
  lemma ViolationsFromActiveRules(re: Search, t: Tables, pack: seq<Entry>, i: Input, active: Option<set<string>>)
    ensures forall v :: v in Expected(re, t, pack, i, active) ==> v.ruleId in Ids(pack) && Active(active, v.ruleId)
  {
    var f := Output(re, t, i, active);
    FlatMapMembers(pack, f);
    forall x | x in pack ensures AllOf(f(x), x.id) && (f(x) != [] ==> Active(active, x.id)) {
      OutputIds(re, t, i, active, x);
    }
  }

  /******* Shortlists *******/

  function OfRules(ids: set<string>): Violation -> bool {
    (v: Violation) => v.ruleId in ids
  }

  lemma {:induction false} ShortlistIsFilter(re: Search, t: Tables, pack: seq<Entry>, i: Input, ids: set<string>)
    ensures Expected(re, t, pack, i, Some(ids)) == Keep(Expected(re, t, pack, i, None), OfRules(ids))
  {
    if pack != [] {
      var n := |pack| - 1;
      var e := pack[n];
      ShortlistIsFilter(re, t, pack[..n], i, ids);
      var all, few := Output(re, t, i, None), Output(re, t, i, Some(ids));
      AssembledIds(re, t, e, i);
      if e.id in ids { KeepAll(all(e), OfRules(ids)); } else { KeepNone(all(e), OfRules(ids)); }
      KeepConcat(FlatMap(pack[..n], all), all(e), OfRules(ids));
    }
  }

  // Whatever order the engine took in the two runs, evaluating a shortlist gives the
  // full evaluation's violations with an id on the list, also when ids are unknown.
  lemma ShortlistIsLocal(re: Search, t: Tables, pack: seq<Entry>, i: Input, ids: set<string>,
                         full: seq<Violation>, short: seq<Violation>)
    requires multiset(full) == multiset(Expected(re, t, pack, i, None))
    requires multiset(short) == multiset(Expected(re, t, pack, i, Some(ids)))
    ensures multiset(short) == multiset(Keep(full, OfRules(ids)))
  {
    ShortlistIsFilter(re, t, pack, i, ids);
    KeepPermutes(full, Expected(re, t, pack, i, None), OfRules(ids));
  }

  /******* The order of the signals *******/

  lemma TextMatchesPermute(re: Search, e: Entry, a: seq<Signal>, b: seq<Signal>)
    requires multiset(a) == multiset(b)
    ensures multiset(TextMatches(re, e, Input(a, None))) == multiset(TextMatches(re, e, Input(b, None)))
  {
    KeepPermutes(a, b, IsTextSignal);
    FlatMapPermutes(Keep(a, IsTextSignal), Keep(b, IsTextSignal), FragmentMatcher(re, e));
  }

  // The same signals in some order, in the same mode.
  ghost predicate SameSignals(i: Input, j: Input) {
    multiset(i.signals) == multiset(j.signals) && (i.document.Some? <==> j.document.Some?)
  }

  lemma VisionMatchesPermute(e: Entry, i: Input, j: Input)
    requires SameSignals(i, j)
    ensures multiset(VisionMatches(e, i)) == multiset(VisionMatches(e, j))
  {
    KeepPermutes(i.signals, j.signals, IsVisionObject);
    KeepPermutes(Keep(i.signals, IsVisionObject), Keep(j.signals, IsVisionObject),
                 CarriesLabel(AllowedLabels(e.rule)));
  }

  lemma EmptyPermutes<T>(a: seq<T>, b: seq<T>)
    requires multiset(a) == multiset(b)
    ensures a == [] <==> b == []
  {
    assert |multiset(a)| == |a| && |multiset(b)| == |b|;
  }

  lemma EvidencePartsPermute(t: Tables, e: Entry, i: Input, j: Input)
    requires SameSignals(i, j)
    ensures multiset(EmbeddingPart(t, e, i)) == multiset(EmbeddingPart(t, e, j))
    ensures multiset(SupportPart(t, e, i)) == multiset(SupportPart(t, e, j))
  {
    var a, b := i.signals, j.signals;
    if e.id in t.embeddingRules {
      var p := IsEmbedding(t.embeddingRules[e.id]);
      KeepPermutes(a, b, p);
      FlatMapPermutes(Keep(a, p), Keep(b, p), EmbeddingViolation(e, i));
      FlatMapSame(Keep(b, p), EmbeddingViolation(e, i), EmbeddingViolation(e, j));
    }
    if e.id in t.visionSupport {
      var p := CarriesLabel(t.visionSupport[e.id]);
      KeepPermutes(a, b, IsVisionObject);
      KeepPermutes(Keep(a, IsVisionObject), Keep(b, IsVisionObject), p);
      ObjectsPermute(e, i, j, Keep(Keep(a, IsVisionObject), p), Keep(Keep(b, IsVisionObject), p));
    }
  }

  lemma ObjectsPermute(e: Entry, i: Input, j: Input, xs: seq<Signal>, ys: seq<Signal>)
    requires multiset(xs) == multiset(ys) && (i.document.Some? <==> j.document.Some?)
    ensures multiset(FlatMap(xs, ObjectViolation(e, i))) == multiset(FlatMap(ys, ObjectViolation(e, j)))
  {
    FlatMapPermutes(xs, ys, ObjectViolation(e, i));
    FlatMapSame(ys, ObjectViolation(e, i), ObjectViolation(e, j));
  }

  lemma MatchesPermute(re: Search, e: Entry, a: seq<Signal>, b: seq<Signal>)
    requires multiset(a) == multiset(b)
    ensures var i, j := Input(a, None), Input(b, None);
            multiset(FlatMap(TextMatches(re, e, i), MatchViolation(e, i)))
            == multiset(FlatMap(TextMatches(re, e, j), MatchViolation(e, j)))
  {
    var i, j := Input(a, None), Input(b, None);
    TextMatchesPermute(re, e, a, b);
    FlatMapPermutes(TextMatches(re, e, i), TextMatches(re, e, j), MatchViolation(e, i));
    FlatMapSame(TextMatches(re, e, j), MatchViolation(e, i), MatchViolation(e, j));
  }

  // The rescan adds nothing, so four parts are left.
  lemma FourParts(re: Search, t: Tables, e: Entry, i: Input)
    ensures Assembled(re, t, e, i)
         == FlatMap(TextMatches(re, e, i), MatchViolation(e, i)) + FlatMap(VisionMatches(e, i), ObjectViolation(e, i))
            + EmbeddingPart(t, e, i) + SupportPart(t, e, i)
  {
    if TextMatches(re, e, i) == [] { RescanNeverAdds(re, e, i); }
  }

  lemma AssembledPermutes(re: Search, t: Tables, e: Entry, a: seq<Signal>, b: seq<Signal>)
    requires multiset(a) == multiset(b)
    ensures multiset(Assembled(re, t, e, Input(a, None))) == multiset(Assembled(re, t, e, Input(b, None)))
  {
    var i, j := Input(a, None), Input(b, None);
    FourParts(re, t, e, i);
    FourParts(re, t, e, j);
    MatchesPermute(re, e, a, b);
    VisionMatchesPermute(e, i, j);
    ObjectsPermute(e, i, j, VisionMatches(e, i), VisionMatches(e, j));
    EvidencePartsPermute(t, e, i, j);
  }

  lemma TriggeredPermutes(re: Search, e: Entry, a: seq<Signal>, b: seq<Signal>)
    requires multiset(a) == multiset(b)
    ensures Triggered(re, e, Input(a, None)) <==> Triggered(re, e, Input(b, None))
  {
    TextMatchesPermute(re, e, a, b);
    VisionMatchesPermute(e, Input(a, None), Input(b, None));
    EmptyPermutes(TextMatches(re, e, Input(a, None)), TextMatches(re, e, Input(b, None)));
    EmptyPermutes(VisionMatches(e, Input(a, None)), VisionMatches(e, Input(b, None)));
  }

  lemma OutputPermutes(re: Search, t: Tables, active: Option<set<string>>, e: Entry, a: seq<Signal>, b: seq<Signal>)
    requires multiset(a) == multiset(b)
    ensures multiset(Output(re, t, Input(a, None), active)(e)) == multiset(Output(re, t, Input(b, None), active)(e))
  {
    TriggeredPermutes(re, e, a, b);
    AssembledPermutes(re, t, e, a, b);
  }

  // Main theorem: in fragment mode the violations, as a multiset, do not depend on the
  // order in which the signals arrived.
  lemma SignalOrderFree(re: Search, t: Tables, pack: seq<Entry>, active: Option<set<string>>,
                        a: seq<Signal>, b: seq<Signal>)
    requires multiset(a) == multiset(b)
    ensures multiset(Expected(re, t, pack, Input(a, None), active))
         == multiset(Expected(re, t, pack, Input(b, None), active))
  {
    var f, g := Output(re, t, Input(a, None), active), Output(re, t, Input(b, None), active);
    forall e | e in pack ensures multiset(f(e)) == multiset(g(e)) {
      OutputPermutes(re, t, active, e, a, b);
    }
    FlatMapPointwise(pack, f, g);
  }

  /******* When the engine raises *******/

  // A rule that was compiled: its match block is a dictionary, or missing and then some list
  // has an entry or none is null. Any other rule is left to the direct matcher.
  predicate Sound(e: Entry) {
    && CompilesTo(e.rule, e.ast)
    && if Truthy(e.rule.matchBlock) then e.rule.matchBlock.Dict? else !Blank(e.rule) || NoNull(e.rule)
  }

  // Such a rule never raises.
  lemma CompiledRuleNeverRaises(re: Search, text: string, e: Entry)
    requires Sound(e)
    ensures !MatchRaises(re, text, e)
  {
    if e.ast.None? {
      assert Blank(e.rule) && NoNull(e.rule);
    }
  }

  lemma {:induction false} CompiledTextNeverRaises(re: Search, pack: seq<Entry>, text: string,
                                                   active: Option<set<string>>)
    requires forall e :: e in pack ==> Sound(e)
    ensures !SomeRaises(re, pack, text, active)
  {
    if pack != [] {
      var n := |pack| - 1;
      assert pack[n] in pack && forall e :: e in pack[..n] ==> e in pack;
      CompiledRuleNeverRaises(re, text, pack[n]);
      CompiledTextNeverRaises(re, pack[..n], text, active);
    }
  }

  lemma {:induction false} CompiledFragmentsNeverRaise(re: Search, pack: seq<Entry>, textSignals: seq<Signal>,
                                                       active: Option<set<string>>)
    requires forall e :: e in pack ==> Sound(e)
    ensures !FragmentRaises(re, pack, textSignals, active)
  {
    if textSignals != [] {
      var n := |textSignals| - 1;
      CompiledTextNeverRaises(re, pack, TextOf(textSignals[n]), active);
      CompiledFragmentsNeverRaise(re, pack, textSignals[..n], active);
    }
  }

  // So the evaluation of a pack of such rules never raises, whatever the input.
  lemma CompiledPackNeverRaises(re: Search, pack: seq<Entry>, i: Input, active: Option<set<string>>)
    requires forall e :: e in pack ==> Sound(e)
    ensures !Raises(re, pack, i, active)
  {
    match i.document
    case Some(doc) => CompiledTextNeverRaises(re, pack, doc.text, active);
    case None => CompiledFragmentsNeverRaise(re, pack, Keep(i.signals, IsTextSignal), active);
  }
}
