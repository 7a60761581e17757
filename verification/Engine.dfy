/**
  The policy engine (src/zataone/policy_engine/engine.py): match every rule against
  the signals or the document, then assemble violations.

  Output says what one rule contributes, Expected what a whole pack does. The class
  mirrors the engine's loops; the order in which it visits the set of triggered rules
  is left open, so its results are stated as multisets.
 */
module Engine {
  import opened Options
  import opened Text
  import opened Signals
  import opened Sequences
  import opened StableSort
  import opened Dsl
  import opened Parser
  import opened LegacyRules
  import opened MatchSpans
  import opened Violations
  import DocumentBuilder

  /******* Compiled packs *******/

  // A rule of the pack with its compiled tree.
  datatype Entry = Entry(id: string, rule: Rule, ast: Option<Ast>)

  ghost predicate DistinctIds(pack: seq<Entry>) {
    forall i, j :: 0 <= i < j < |pack| ==> pack[i].id != pack[j].id
  }

  predicate Active(active: Option<set<string>>, id: string) {
    active.None? || id in active.value
  }

  // Tables loaded with the pack.
  datatype Tables = Tables(visionSupport: map<string, set<string>>, embeddingRules: map<string, string>)

  // What is evaluated; a document is present in document-centric mode only.
  datatype Input = Input(signals: seq<Signal>, document: Option<Document>)

  /******* Reading signals *******/

  predicate IsTextSignal(s: Signal) {
    || (s.signalType.Some? && (s.signalType.value.value == "text" || EndsWithText(s.signalType.value.shown)))
    || s.rawData.kind == "ocr_text" || s.rawData.kind == "asr_text"
    || s.rawData.text.Some?
  }

  // str(signal_type).endswith("TEXT")
  predicate EndsWithText(s: string) {
    |s| >= 4 && s[|s| - 4..] == "TEXT"
  }

  function TextOf(s: Signal): string {
    s.rawData.text.GetOr("")
  }

  // str(signal.signal_id)
  function ShownId(s: Signal): string {
    s.id.GetOr("None")
  }

  function LabelOf(s: Signal): string {
    Lower(Strip(s.rawData.objectLabel))
  }

  function AllowedLabels(r: Rule): set<string> {
    set l | l in r.visionPrimaryLabels :: Lower(Strip(l))
  }

  predicate VisionPrimary(e: Entry) {
    e.rule.visionPrimaryLabels != []
  }

  /******* Matching *******/

  // A hit with the signal it was found in; none in document mode.
  datatype Match = Match(signal: Option<Signal>, hit: Hit)

  function HitIn(re: Search, text: string, e: Entry): Option<Hit> {
    match MatchWith(re, text, e.rule, e.ast)
    case Ok(h) => h
    case Raised => None
  }

  function FragmentMatcher(re: Search, e: Entry): Signal -> seq<Match> {
    (s: Signal) => match HitIn(re, TextOf(s), e)
         case Some(h) => [Match(Some(s), h)]
         case None => []
  }

  function FragmentMatches(re: Search, e: Entry, textSignals: seq<Signal>): seq<Match> {
    FlatMap(textSignals, FragmentMatcher(re, e))
  }

  function DocumentMatches(re: Search, e: Entry, doc: Document): seq<Match> {
    match HitIn(re, doc.text, e)
    case Some(h) => [Match(None, h)]
    case None => []
  }

  function ActiveFragmentMatches(re: Search, e: Entry, textSignals: seq<Signal>, active: Option<set<string>>)
    : seq<Match>
  {
    if Active(active, e.id) then FragmentMatches(re, e, textSignals) else []
  }

  function ActiveDocumentMatches(re: Search, e: Entry, doc: Document, active: Option<set<string>>): seq<Match> {
    if Active(active, e.id) then DocumentMatches(re, e, doc) else []
  }

  function TextMatches(re: Search, e: Entry, i: Input): seq<Match> {
    match i.document
    case None => FragmentMatches(re, e, Keep(i.signals, IsTextSignal))
    case Some(doc) => DocumentMatches(re, e, doc)
  }

  function CarriesLabel(labels: set<string>): Signal -> bool {
    (s: Signal) => LabelOf(s) in labels
  }

  function VisionMatches(e: Entry, i: Input): seq<Signal> {
    if VisionPrimary(e) then Keep(Keep(i.signals, IsVisionObject), CarriesLabel(AllowedLabels(e.rule))) else []
  }

  // A vision-primary rule is triggered by its objects, any other rule by text.
  predicate Triggered(re: Search, e: Entry, i: Input) {
    if VisionPrimary(e) then VisionMatches(e, i) != [] else TextMatches(re, e, i) != []
  }

  /******* Assembling *******/

  function SeverityFloat(r: Rule): real {
    var s := r.severity.GetOr("HIGH");
    if s == "LOW" then 0.2
    else if s == "MEDIUM" then 0.4
    else if s == "HIGH" then 0.7
    else if s == "CRITICAL" then 1.0
    else 0.5
  }

  // The box of the first document span that starts where the match does.
  function BoxAt(spans: seq<Span>, start: nat): Option<Box> {
    if spans == [] then None
    else if spans[0].start == start then (if DocumentBuilder.Truthy(spans[0].bbox) then spans[0].bbox else None)
    else BoxAt(spans[1..], start)
  }

  function Excerpt(text: string): string {
    if |text| <= 500 then text else text[..500]
  }

  function MatchViolation(e: Entry, i: Input): Match -> seq<Violation> {
    (m: Match) =>
      match i.document
      case Some(doc) =>
        [Violation(PickSignalId(m.hit.span, doc.spans, Keep(i.signals, IsTextSignal), doc.sourceSignalIds), e.id,
                   SeverityFloat(e.rule), m.hit.confidence,
                   if m.signal.Some? then m.signal.value.confidence else 0.8, true,
                   TextMatch(m.hit.term, m.hit.term, Excerpt(doc.text), Some(m.hit.span),
                             BoxAt(doc.spans, m.hit.span.start)))]
      case None =>
        match m.signal
        case Some(s) =>
          [Violation(ShownId(s), e.id, SeverityFloat(e.rule), m.hit.confidence, s.confidence, false,
                     TextMatch(m.hit.term, m.hit.term, TextOf(s), None, s.boundingBox))]
        case None => []
  }

  function ObjectViolation(e: Entry, i: Input): Signal -> seq<Violation> {
    (s: Signal) => [Violation(ShownId(s), e.id, SeverityFloat(e.rule), 1.0, s.confidence, i.document.Some?,
                    VisionObject(s.rawData.objectLabel, s.rawData.bbox))]
  }

  function RescanViolation(re: Search, e: Entry): Signal -> seq<Violation> {
    (s: Signal) => match HitIn(re, TextOf(s), e)
         case Some(h) =>
           [Violation(ShownId(s), e.id, SeverityFloat(e.rule), h.confidence, s.confidence, false,
                      TextMatch(h.term, TextOf(s), TextOf(s), None, s.boundingBox))]
         case None => []
  }

  // The second look for text, taken when a rule was triggered by objects only.
  function Rescan(re: Search, e: Entry, i: Input): seq<Violation> {
    match i.document
    case None => FlatMap(Keep(i.signals, IsTextSignal), RescanViolation(re, e))
    case Some(doc) =>
      match HitIn(re, doc.text, e)
      case Some(h) =>
        [Violation(PickSignalId(h.span, doc.spans, Keep(i.signals, IsTextSignal), doc.sourceSignalIds), e.id,
                   SeverityFloat(e.rule), h.confidence, 0.8, true,
                   TextMatch(h.term, h.term, Excerpt(doc.text), Some(h.span), None))]
      case None => []
  }

  function IsEmbedding(regulation: string): Signal -> bool {
    (s: Signal) =>
      s.rawData.kind == "image_embedding_similarity" && regulation != "" && s.rawData.regulation == regulation
  }

  function EmbeddingViolation(e: Entry, i: Input): Signal -> seq<Violation> {
    (s: Signal) => [Violation(ShownId(s), e.id, SeverityFloat(e.rule), 0.2, s.confidence, i.document.Some?,
                    EmbeddingSimilarity(s.rawData.regulation))]
  }

  function EmbeddingPart(t: Tables, e: Entry, i: Input): seq<Violation> {
    if e.id in t.embeddingRules
    then FlatMap(Keep(i.signals, IsEmbedding(t.embeddingRules[e.id])), EmbeddingViolation(e, i))
    else []
  }

  function SupportPart(t: Tables, e: Entry, i: Input): seq<Violation> {
    if e.id in t.visionSupport
    then FlatMap(Keep(Keep(i.signals, IsVisionObject), CarriesLabel(t.visionSupport[e.id])), ObjectViolation(e, i))
    else []
  }

  // Everything one triggered rule adds, in the order of the code.
  function Assembled(re: Search, t: Tables, e: Entry, i: Input): seq<Violation> {
    var matches := TextMatches(re, e, i);
    var objects := VisionMatches(e, i);
    FlatMap(matches, MatchViolation(e, i))
    + FlatMap(objects, ObjectViolation(e, i))
    + (if objects != [] && matches == [] then Rescan(re, e, i) else [])
    + EmbeddingPart(t, e, i)
    + SupportPart(t, e, i)
  }

  function Output(re: Search, t: Tables, i: Input, active: Option<set<string>>): Entry -> seq<Violation> {
    (e: Entry) => if Active(active, e.id) && Triggered(re, e, i) then Assembled(re, t, e, i) else []
  }

  // The violations of a pack, rule by rule.
  function Expected(re: Search, t: Tables, pack: seq<Entry>, i: Input, active: Option<set<string>>): seq<Violation> {
    FlatMap(pack, Output(re, t, i, active))
  }

  /******* The engine *******/

  // A rule without a tree is matched directly, which raises on ill-typed patterns.
  predicate MatchRaises(re: Search, text: string, e: Entry) {
    e.ast.None? && DirectHit(re, text, e.rule).Raised?
  }

  predicate SomeRaises(re: Search, pack: seq<Entry>, text: string, active: Option<set<string>>) {
    if pack == [] then false
    else
      var e := pack[|pack| - 1];
      SomeRaises(re, pack[..|pack| - 1], text, active) || (Active(active, e.id) && MatchRaises(re, text, e))
  }

  predicate FragmentRaises(re: Search, pack: seq<Entry>, textSignals: seq<Signal>, active: Option<set<string>>) {
    if textSignals == [] then false
    else
      var n := |textSignals| - 1;
      FragmentRaises(re, pack, textSignals[..n], active) || SomeRaises(re, pack, TextOf(textSignals[n]), active)
  }

  // Matching some active rule against some text of the input raises.
  predicate Raises(re: Search, pack: seq<Entry>, i: Input, active: Option<set<string>>) {
    match i.document
    case Some(doc) => SomeRaises(re, pack, doc.text, active)
    case None => FragmentRaises(re, pack, Keep(i.signals, IsTextSignal), active)
  }

  lemma {:induction false} SomeRaisesIff(re: Search, pack: seq<Entry>, text: string, active: Option<set<string>>)
    ensures SomeRaises(re, pack, text, active)
       <==> exists e :: e in pack && Active(active, e.id) && MatchRaises(re, text, e)
  {
    if pack != [] {
      var n := |pack| - 1;
      SomeRaisesIff(re, pack[..n], text, active);
      assert pack == pack[..n] + [pack[n]];
    }
  }

  lemma {:induction false} FragmentRaisesIff(re: Search, pack: seq<Entry>, textSignals: seq<Signal>,
                                             active: Option<set<string>>)
    ensures FragmentRaises(re, pack, textSignals, active)
       <==> exists s :: s in textSignals && SomeRaises(re, pack, TextOf(s), active)
  {
    if textSignals != [] {
      var n := |textSignals| - 1;
      FragmentRaisesIff(re, pack, textSignals[..n], active);
      assert textSignals == textSignals[..n] + [textSignals[n]];
    }
  }

  lemma {:induction false} RaisedBefore(re: Search, pack: seq<Entry>, n: nat, text: string, active: Option<set<string>>)
    requires n <= |pack| && SomeRaises(re, pack[..n], text, active)
    ensures SomeRaises(re, pack, text, active)
    decreases |pack|
  {
    if n == |pack| {
      assert pack[..n] == pack;
    } else {
      assert pack[..|pack| - 1][..n] == pack[..n];
      RaisedBefore(re, pack[..|pack| - 1], n, text, active);
    }
  }

  lemma {:induction false} FragmentRaisedBefore(re: Search, pack: seq<Entry>, textSignals: seq<Signal>, n: nat,
                                                active: Option<set<string>>)
    requires n <= |textSignals| && FragmentRaises(re, pack, textSignals[..n], active)
    ensures FragmentRaises(re, pack, textSignals, active)
    decreases |textSignals|
  {
    if n == |textSignals| {
      assert textSignals[..n] == textSignals;
    } else {
      assert textSignals[..|textSignals| - 1][..n] == textSignals[..n];
      FragmentRaisedBefore(re, pack, textSignals[..|textSignals| - 1], n, active);
    }
  }

  ghost predicate EntryRaises(re: Search, e: Entry, i: Input) {
    match i.document
    case Some(doc) => MatchRaises(re, doc.text, e)
    case None => exists s :: s in Keep(i.signals, IsTextSignal) && MatchRaises(re, TextOf(s), e)
  }

  lemma NoEntryRaises(re: Search, pack: seq<Entry>, i: Input, active: Option<set<string>>, e: Entry)
    requires !Raises(re, pack, i, active) && e in pack && Active(active, e.id)
    ensures !EntryRaises(re, e, i)
  {
    match i.document
    case Some(doc) => SomeRaisesIff(re, pack, doc.text, active);
    case None =>
      FragmentRaisesIff(re, pack, Keep(i.signals, IsTextSignal), active);
      forall s | s in Keep(i.signals, IsTextSignal) ensures !MatchRaises(re, TextOf(s), e) {
        SomeRaisesIff(re, pack, TextOf(s), active);
      }
  }

  // _match_rule
  method FindHit(re: Search, text: string, e: Entry) returns (hit: Outcome<Option<Hit>>)
    ensures hit == MatchWith(re, text, e.rule, e.ast)
    ensures hit.Raised? <==> MatchRaises(re, text, e)
    ensures hit.Ok? ==> hit.value == HitIn(re, text, e)
  {
    if e.ast.Some? {
      hit := Ok(Evaluate(re, text, e.ast.value, Some(text)));
    } else {
      hit := MatchRuleLegacy(re, text, e.rule);
    }
  }

  function Ids(pack: seq<Entry>): set<string> {
    set e | e in pack :: e.id
  }

  // found.setdefault(id, []).extend(ms)
  function Record(found: map<string, seq<Match>>, id: string, ms: seq<Match>): map<string, seq<Match>> {
    if ms == [] then found else found[id := MatchesIn(found, id) + ms]
  }

  lemma RecordTouchesOne(found: map<string, seq<Match>>, id: string, ms: seq<Match>)
    ensures MatchesIn(Record(found, id, ms), id) == MatchesIn(found, id) + ms
    ensures forall other :: other != id ==> MatchesIn(Record(found, id, ms), other) == MatchesIn(found, other)
    ensures Record(found, id, ms).Keys <= found.Keys + {id}
  {
  }

  // What one signal adds to a rule's matches.
  function NewMatches(re: Search, s: Signal, active: Option<set<string>>): Entry -> seq<Match> {
    (e: Entry) => if Active(active, e.id) then FragmentMatcher(re, e)(s) else []
  }

  // The first k rules have what f adds to them, the others have what they had before.
  ghost predicate Grown(pack: seq<Entry>, before: map<string, seq<Match>>, found: map<string, seq<Match>>, k: nat,
                        f: Entry -> seq<Match>)
  {
    forall j :: 0 <= j < |pack| ==>
      MatchesIn(found, pack[j].id) == MatchesIn(before, pack[j].id) + if j < k then f(pack[j]) else []
  }

  lemma GrownStep(pack: seq<Entry>, before: map<string, seq<Match>>, found: map<string, seq<Match>>, k: nat,
                  f: Entry -> seq<Match>)
    requires DistinctIds(pack) && k < |pack| && Grown(pack, before, found, k, f)
    ensures Grown(pack, before, Record(found, pack[k].id, f(pack[k])), k + 1, f)
  {
    var next := Record(found, pack[k].id, f(pack[k]));
    RecordTouchesOne(found, pack[k].id, f(pack[k]));
    forall j | 0 <= j < |pack|
      ensures MatchesIn(next, pack[j].id) == MatchesIn(before, pack[j].id) + if j < k + 1 then f(pack[j]) else []
    {
      assert MatchesIn(found, pack[j].id) == MatchesIn(before, pack[j].id) + if j < k then f(pack[j]) else [];
      if j != k { assert pack[j].id != pack[k].id; }
    }
  }

  lemma GrownEverywhere(pack: seq<Entry>, before: map<string, seq<Match>>, found: map<string, seq<Match>>,
                        f: Entry -> seq<Match>, e: Entry)
    requires Grown(pack, before, found, |pack|, f) && e in pack
    ensures MatchesIn(found, e.id) == MatchesIn(before, e.id) + f(e)
  {
  }

  lemma OneMoreFragment(re: Search, e: Entry, textSignals: seq<Signal>, n: nat, active: Option<set<string>>)
    requires n < |textSignals|
    ensures ActiveFragmentMatches(re, e, textSignals[..n + 1], active)
         == ActiveFragmentMatches(re, e, textSignals[..n], active) + NewMatches(re, textSignals[n], active)(e)
  {
    FlatMapSnoc(textSignals, n, FragmentMatcher(re, e));
  }

  ghost predicate FragmentsFound(re: Search, pack: seq<Entry>, found: map<string, seq<Match>>, textSignals: seq<Signal>,
                                 n: nat, active: Option<set<string>>)
    requires n <= |textSignals|
  {
    forall e {:trigger MatchesIn(found, e.id)} :: e in pack ==>
      MatchesIn(found, e.id) == ActiveFragmentMatches(re, e, textSignals[..n], active)
  }

  lemma FragmentsStep(re: Search, pack: seq<Entry>, before: map<string, seq<Match>>, found: map<string, seq<Match>>,
                      textSignals: seq<Signal>, n: nat, active: Option<set<string>>)
    requires n < |textSignals| && FragmentsFound(re, pack, before, textSignals, n, active)
    requires Grown(pack, before, found, |pack|, NewMatches(re, textSignals[n], active))
    ensures FragmentsFound(re, pack, found, textSignals, n + 1, active)
  {
    forall e | e in pack
      ensures MatchesIn(found, e.id) == ActiveFragmentMatches(re, e, textSignals[..n + 1], active)
    {
      GrownEverywhere(pack, before, found, NewMatches(re, textSignals[n], active), e);
      OneMoreFragment(re, e, textSignals, n, active);
    }
  }

  function MatchesIn(found: map<string, seq<Match>>, id: string): seq<Match> {
    if id in found then found[id] else []
  }

  function ObjectsIn(triggered: map<string, seq<Signal>>, id: string): seq<Signal> {
    if id in triggered then triggered[id] else []
  }

  // What has been collected for a rule to be visited.
  ghost predicate Collected(re: Search, pack: seq<Entry>, i: Input, found: map<string, seq<Match>>,
                            triggered: map<string, seq<Signal>>, id: string)
  {
    id in Ids(pack) &&
    var e := RuleOf(pack, id);
    && !EntryRaises(re, e, i)
    && MatchesIn(found, id) == TextMatches(re, e, i)
    && ObjectsIn(triggered, id) == VisionMatches(e, i)
  }

  // The violations of the rule with a given id.
  function RuleOutput(re: Search, t: Tables, pack: seq<Entry>, i: Input): string -> seq<Violation> {
    (id: string) => if id in Ids(pack) then Assembled(re, t, RuleOf(pack, id), i) else []
  }

  // A set in whatever order Python iterates over it.
  method AnyOrder(ids: set<string>) returns (order: seq<string>)
    ensures multiset(order) == multiset(ids)
    ensures forall id :: id in order ==> id in ids
  {
    order := [];
    var todo := ids;
    while todo != {}
      invariant todo <= ids && multiset(order) == multiset(ids - todo)
      invariant forall id :: id in order ==> id in ids
      decreases |todo|
    {
      var id :| id in todo;
      order := order + [id];
      assert ids - (todo - {id}) == (ids - todo) + {id};
      todo := todo - {id};
    }
    assert ids - todo == ids;
  }

  // Every key of a match table is the id of a rule, and no entry is empty.
  ghost predicate MatchTable(pack: seq<Entry>, found: map<string, seq<Match>>) {
    found.Keys <= Ids(pack) && forall id :: id in found ==> found[id] != []
  }

  // One signal against one rule.
  method AddMatch(re: Search, pack: seq<Entry>, s: Signal, active: Option<set<string>>, e: Entry,
                  before: map<string, seq<Match>>)
    returns (found: map<string, seq<Match>>, raised: bool)
    requires e.id in Ids(pack) && MatchTable(pack, before)
    ensures raised <==> Active(active, e.id) && MatchRaises(re, TextOf(s), e)
    ensures !raised ==> MatchTable(pack, found) && found == Record(before, e.id, NewMatches(re, s, active)(e))
  {
    found, raised := before, false;
    ghost var added := NewMatches(re, s, active)(e);
    assert added == if Active(active, e.id) then FragmentMatcher(re, e)(s) else [];
    if Active(active, e.id) {
      var hit := FindHit(re, TextOf(s), e);
      if hit.Raised? { return found, true; }
      if hit.value.Some? { found := Record(found, e.id, [Match(Some(s), hit.value.value)]); }
    }
  }

  // One signal against every rule.
  method AddFragmentMatches(re: Search, pack: seq<Entry>, s: Signal, active: Option<set<string>>,
                            before: map<string, seq<Match>>)
    returns (found: map<string, seq<Match>>, raised: bool)
    requires DistinctIds(pack) && MatchTable(pack, before)
    ensures raised <==> SomeRaises(re, pack, TextOf(s), active)
    ensures !raised ==> MatchTable(pack, found) && Grown(pack, before, found, |pack|, NewMatches(re, s, active))
  {
    ghost var f := NewMatches(re, s, active);
    found, raised := before, false;
    for k := 0 to |pack|
      invariant !raised && MatchTable(pack, found) && Grown(pack, before, found, k, f)
      invariant !SomeRaises(re, pack[..k], TextOf(s), active)
    {
      var e := pack[k];
      assert e in pack && e.id in Ids(pack);
      assert pack[..k + 1][..k] == pack[..k];
      GrownStep(pack, before, found, k, f);
      found, raised := AddMatch(re, pack, s, active, e, found);
      if raised {
        RaisedBefore(re, pack, k + 1, TextOf(s), active);
        return;
      }
    }
    assert pack[..|pack|] == pack;
  }

  // The rule_matches loops of _evaluate_fragment_centric.
  method CollectFragmentMatches(re: Search, pack: seq<Entry>, textSignals: seq<Signal>, active: Option<set<string>>)
    returns (found: map<string, seq<Match>>, raised: bool)
    requires DistinctIds(pack)
    ensures raised <==> FragmentRaises(re, pack, textSignals, active)
    ensures !raised ==> MatchTable(pack, found) && FragmentsFound(re, pack, found, textSignals, |textSignals|, active)
  {
    found, raised := map[], false;
    for n := 0 to |textSignals|
      invariant !raised && MatchTable(pack, found)
      invariant !FragmentRaises(re, pack, textSignals[..n], active)
      invariant FragmentsFound(re, pack, found, textSignals, n, active)
    {
      var before := found;
      assert textSignals[..n + 1][..n] == textSignals[..n];
      found, raised := AddFragmentMatches(re, pack, textSignals[n], active, found);
      if raised {
        FragmentRaisedBefore(re, pack, textSignals, n + 1, active);
        return;
      }
      FragmentsStep(re, pack, before, found, textSignals, n, active);
    }
    assert textSignals[..|textSignals|] == textSignals;
  }

  function DocumentMatcher(re: Search, doc: Document, active: Option<set<string>>): Entry -> seq<Match> {
    (e: Entry) => ActiveDocumentMatches(re, e, doc, active)
  }

  // The rule_matches loop of _evaluate_with_document.
  method CollectDocumentMatches(re: Search, pack: seq<Entry>, doc: Document, active: Option<set<string>>)
    returns (found: map<string, seq<Match>>, raised: bool)
    requires DistinctIds(pack)
    ensures raised <==> SomeRaises(re, pack, doc.text, active)
    ensures !raised ==> MatchTable(pack, found) && Grown(pack, map[], found, |pack|, DocumentMatcher(re, doc, active))
  {
    ghost var f := DocumentMatcher(re, doc, active);
    found, raised := map[], false;
    for k := 0 to |pack|
      invariant !raised && MatchTable(pack, found) && Grown(pack, map[], found, k, f)
      invariant !SomeRaises(re, pack[..k], doc.text, active)
    {
      assert pack[..k + 1][..k] == pack[..k];
      GrownStep(pack, map[], found, k, f);
      assert MatchesIn(found, pack[k].id) == [];
      found, raised := AddDocumentMatch(re, pack, doc, active, pack[k], found);
      if raised {
        RaisedBefore(re, pack, k + 1, doc.text, active);
        return;
      }
    }
    assert pack[..|pack|] == pack;
  }

  lemma DocumentFound(re: Search, pack: seq<Entry>, found: map<string, seq<Match>>, doc: Document,
                      active: Option<set<string>>)
    requires Grown(pack, map[], found, |pack|, DocumentMatcher(re, doc, active))
    ensures forall e :: e in pack ==> MatchesIn(found, e.id) == ActiveDocumentMatches(re, e, doc, active)
  {
    forall e | e in pack ensures MatchesIn(found, e.id) == ActiveDocumentMatches(re, e, doc, active) {
      GrownEverywhere(pack, map[], found, DocumentMatcher(re, doc, active), e);
    }
  }

  // The document against one rule that has no match yet.
  method AddDocumentMatch(re: Search, pack: seq<Entry>, doc: Document, active: Option<set<string>>, e: Entry,
                          before: map<string, seq<Match>>)
    returns (found: map<string, seq<Match>>, raised: bool)
    requires e in pack && MatchTable(pack, before) && MatchesIn(before, e.id) == []
    ensures raised <==> Active(active, e.id) && MatchRaises(re, doc.text, e)
    ensures !raised ==>
              MatchTable(pack, found) && found == Record(before, e.id, DocumentMatcher(re, doc, active)(e))
  {
    found, raised := before, false;
    ghost var added := DocumentMatcher(re, doc, active)(e);
    assert added == ActiveDocumentMatches(re, e, doc, active);
    if Active(active, e.id) {
      var hit := FindHit(re, doc.text, e);
      if hit.Raised? { return found, true; }
      if hit.value.Some? {
        found := found[e.id := [Match(None, hit.value.value)]];
        assert MatchesIn(before, e.id) + added == added;
      }
    }
  }

  // The rules of a pack without their trees.
  function Pairs(pack: seq<Entry>): seq<(string, Rule)> {
    seq(|pack|, k requires 0 <= k < |pack| => (pack[k].id, pack[k].rule))
  }

  // The config_path argument. The name of a file is not read; a dictionary holds the rules
  // under the key `rules`, or is itself the rules.
  datatype ConfigPath =
    | NoPath
    | PathName(name: string)
    | WithRules(rules: seq<(string, Rule)>)
    | BareRules(rules: seq<(string, Rule)>)

  // A dictionary for config_path wins over the rules given beside it.
  function RulesGiven(config: ConfigPath, given: Option<seq<(string, Rule)>>): Option<seq<(string, Rule)>> {
    if config.WithRules? || config.BareRules? then Some(config.rules) else given
  }

  // In every form of the argument.
  lemma ConfigWins(name: string, rules: seq<(string, Rule)>, given: Option<seq<(string, Rule)>>)
    ensures RulesGiven(WithRules(rules), given) == RulesGiven(BareRules(rules), given) == Some(rules)
    ensures RulesGiven(NoPath, given) == RulesGiven(PathName(name), given) == given
  {
  }

  ghost predicate DistinctKeys(rules: seq<(string, Rule)>) {
    forall i, j :: 0 <= i < j < |rules| ==> rules[i].0 != rules[j].0
  }

  predicate CompilesTo(r: Rule, ast: Option<Ast>) {
    RuleToAst(r) == Ok(ast)
  }

  // _compile_rule_asts, up to the first rule that raises.
  method CompileRuleAsts(config: seq<(string, Rule)>) returns (asts: seq<Option<Ast>>, ok: bool)
    ensures |asts| <= |config| && (ok <==> |asts| == |config|)
    ensures forall k :: 0 <= k < |asts| ==> CompilesTo(config[k].1, asts[k])
    ensures !ok ==> RuleToAst(config[|asts|].1) == Raised
  {
    asts := [];
    for n := 0 to |config|
      invariant |asts| == n
      invariant forall k :: 0 <= k < n ==> CompilesTo(config[k].1, asts[k])
    {
      var ast := RuleToAst(config[n].1);
      if ast.Raised? { return asts, false; }
      asts := asts + [ast.value];
    }
    ok := true;
  }

  class PolicyEngine {
    var rules: seq<Entry>
    var tables: Tables
    var activeRuleIds: Option<set<string>>

    ghost predicate Valid()
      reads this
    {
      DistinctIds(rules)
    }

    constructor ()
      ensures rules == [] && activeRuleIds == None && Valid()
    {
      rules := [];
      tables := Tables(map[], map[]);
      activeRuleIds := None;
    }

    // load_policy_pack; a missing argument leaves what was loaded before. The rules are
    // replaced before they are compiled, so a malformed block, which raises, leaves itself
    // and every later rule without a tree. Otherwise the rules are returned under their ids.
    method LoadPolicyPack(config: ConfigPath, given: Option<seq<(string, Rule)>>,
                          visionSupport: Option<map<string, set<string>>>, embeddingRules: Option<map<string, string>>)
      returns (loaded: Outcome<seq<(string, Rule)>>, ghost compiled: nat)
      requires Valid()
      requires RulesGiven(config, given).Some? ==> DistinctKeys(RulesGiven(config, given).value)
      modifies this`rules, this`tables
      ensures Valid() && Pairs(rules) == RulesGiven(config, given).GetOr(Pairs(old(rules)))
      ensures compiled <= |rules| && (loaded.Ok? <==> compiled == |rules|)
      ensures loaded.Ok? ==> loaded.value == Pairs(rules)
      ensures forall k :: 0 <= k < compiled ==> CompilesTo(rules[k].rule, rules[k].ast)
      ensures forall k :: compiled <= k < |rules| ==> rules[k].ast == None
      ensures loaded.Raised? ==> RuleToAst(rules[compiled].rule) == Raised
      ensures tables == Tables(visionSupport.GetOr(old(tables).visionSupport),
                               embeddingRules.GetOr(old(tables).embeddingRules))
    {
      tables := Tables(visionSupport.GetOr(tables.visionSupport), embeddingRules.GetOr(tables.embeddingRules));
      var pairs := RulesGiven(config, given).GetOr(Pairs(rules));
      var asts, ok := CompileRuleAsts(pairs);
      compiled := |asts|;
      rules := seq(|pairs|, k requires 0 <= k < |pairs| =>
        Entry(pairs[k].0, pairs[k].1, if k < |asts| then asts[k] else None));
      loaded := if ok then Ok(pairs) else Raised;
    }

    // set_active_rule_ids
    method SetActiveRuleIds(ids: Option<set<string>>)
      modifies this`activeRuleIds
      ensures activeRuleIds == ids
    {
      activeRuleIds := ids;
    }

    // The loop that fills vision_triggered_rules.
    method CollectVisionMatches(i: Input, active: Option<set<string>>) returns (triggered: map<string, seq<Signal>>)
      requires Valid()
      ensures forall e :: e in rules ==>
                (e.id in triggered <==> Active(active, e.id) && VisionMatches(e, i) != [])
                && (e.id in triggered ==> triggered[e.id] == VisionMatches(e, i))
      ensures triggered.Keys <= Ids(rules)
    {
      triggered := map[];
      var objects := Keep(i.signals, IsVisionObject);
      for k := 0 to |rules|
        invariant forall j :: 0 <= j < k ==>
          (rules[j].id in triggered <==> Active(active, rules[j].id) && VisionMatches(rules[j], i) != [])
          && (rules[j].id in triggered ==> triggered[rules[j].id] == VisionMatches(rules[j], i))
        invariant forall j :: k <= j < |rules| ==> rules[j].id !in triggered
        invariant triggered.Keys <= Ids(rules)
      {
        var e := rules[k];
        assert e in rules;
        if Active(active, e.id) && e.rule.visionPrimaryLabels != [] {
          var matched := Keep(objects, CarriesLabel(AllowedLabels(e.rule)));
          if matched != [] { triggered := triggered[e.id := matched]; }
        }
      }
    }

    method AssembleEmbeddings(e: Entry, i: Input) returns (vs: seq<Violation>)
      ensures vs == EmbeddingPart(tables, e, i)
    {
      vs := [];
      if e.id in tables.embeddingRules {
        vs := EmitEmbeddings(e, i, Keep(i.signals, IsEmbedding(tables.embeddingRules[e.id])));
      }
    }

    method AssembleSupport(e: Entry, i: Input) returns (vs: seq<Violation>)
      ensures vs == SupportPart(tables, e, i)
    {
      vs := [];
      if e.id in tables.visionSupport {
        vs := EmitObjects(e, i, Keep(Keep(i.signals, IsVisionObject), CarriesLabel(tables.visionSupport[e.id])));
      }
    }

    // The violations of one triggered rule.
    method AssembleRule(re: Search, e: Entry, i: Input, matches: seq<Match>, objects: seq<Signal>)
      returns (violations: seq<Violation>)
      requires !EntryRaises(re, e, i)
      requires matches == TextMatches(re, e, i) && objects == VisionMatches(e, i)
      ensures violations == Assembled(re, tables, e, i)
    {
      var found := EmitMatches(e, i, matches);
      var seen := EmitObjects(e, i, objects);
      var again: seq<Violation> := [];
      if objects != [] && matches == [] {
        again := LookAgain(re, e, i);
      }
      var near := AssembleEmbeddings(e, i);
      var support := AssembleSupport(e, i);
      violations := found + seen + again + near + support;
    }

    // The loop over the triggered rules, in the order given.
    method AssembleRules(re: Search, i: Input, found: map<string, seq<Match>>, triggered: map<string, seq<Signal>>,
                         order: seq<string>)
      returns (violations: seq<Violation>)
      requires forall id :: id in order ==> Collected(re, rules, i, found, triggered, id)
      ensures violations == FlatMap(order, RuleOutput(re, tables, rules, i))
    {
      violations := [];
      for k := 0 to |order|
        invariant violations == FlatMap(order[..k], RuleOutput(re, tables, rules, i))
      {
        var id := order[k];
        assert Collected(re, rules, i, found, triggered, id);
        FlatMapSnoc(order, k, RuleOutput(re, tables, rules, i));
        var added := AssembleRule(re, RuleOf(rules, id), i, MatchesIn(found, id), ObjectsIn(triggered, id));
        violations := violations + added;
      }
      assert order[..|order|] == order;
    }

    // _assemble_violations
    method AssembleViolations(re: Search, i: Input, found: map<string, seq<Match>>, triggered: map<string, seq<Signal>>,
                              active: Option<set<string>>)
      returns (violations: seq<Violation>)
      requires Valid() && MatchTable(rules, found) && !Raises(re, rules, i, active)
      requires forall e :: e in rules ==>
                 MatchesIn(found, e.id) == if Active(active, e.id) then TextMatches(re, e, i) else []
      requires forall e :: e in rules ==>
                 && (e.id in triggered <==> Active(active, e.id) && VisionMatches(e, i) != [])
                 && (e.id in triggered ==> triggered[e.id] == VisionMatches(e, i))
      requires triggered.Keys <= Ids(rules)
      ensures multiset(violations) == multiset(Expected(re, tables, rules, i, active))
    {
      var visionPrimaryIds := set e | e in rules && Active(active, e.id) && VisionPrimary(e) :: e.id;
      var ids := (found.Keys - visionPrimaryIds) + triggered.Keys;
      TriggeredIds(re, rules, i, active, found, triggered, visionPrimaryIds);
      TriggeredCollected(re, rules, i, active, found, triggered, ids);
      var order := AnyOrder(ids);
      violations := AssembleRules(re, i, found, triggered, order);
      AnyOrderExpected(re, tables, rules, i, active, order, ids);
    }

    // evaluate: an explicit shortlist overrides the engine's own. It raises exactly when
    // matching some active rule does.
    method EvaluateAll(re: Search, signals: seq<Signal>, document: Option<Document>, documentCentric: bool,
                       activeIds: Option<set<string>>)
      returns (result: Outcome<seq<Violation>>)
      requires Valid()
      ensures var i := Input(signals, if documentCentric then document else None);
              var active := if activeIds.Some? then activeIds else activeRuleIds;
              && (result.Raised? <==> Raises(re, rules, i, active))
              && (result.Ok? ==> multiset(result.value) == multiset(Expected(re, tables, rules, i, active)))
    {
      if rules == [] {
        FragmentRaisesIff(re, rules, Keep(signals, IsTextSignal), activeRuleIds);
        FragmentRaisesIff(re, rules, Keep(signals, IsTextSignal), activeIds);
        return Ok([]);
      }
      var active := if activeIds.Some? then activeIds else activeRuleIds;
      var i := Input(signals, if documentCentric then document else None);
      var found: map<string, seq<Match>>;
      var raised: bool;
      match i.document {
        case Some(doc) =>
          found, raised := CollectDocumentMatches(re, rules, doc, active);
          if !raised { DocumentFound(re, rules, found, doc, active); }
        case None =>
          var textSignals := Keep(signals, IsTextSignal);
          found, raised := CollectFragmentMatches(re, rules, textSignals, active);
          assert textSignals[..|textSignals|] == textSignals;
      }
      if raised { return Raised; }
      var triggered := CollectVisionMatches(i, active);
      var violations := AssembleViolations(re, i, found, triggered, active);
      result := Ok(violations);
    }
  }

  function RuleOf(pack: seq<Entry>, id: string): (e: Entry)
    requires id in Ids(pack)
    ensures e in pack && e.id == id
  {
    if pack[0].id == id then pack[0] else
      assert pack == [pack[0]] + pack[1..];
      RuleOf(pack[1..], id)
  }

  // f on the rules with the given ids, nothing on the others.
  function Selected(f: Entry -> seq<Violation>, ids: set<string>): Entry -> seq<Violation> {
    (e: Entry) => if e.id in ids then f(e) else []
  }

  lemma OthersDiffer(pack: seq<Entry>, k: nat)
    requires DistinctIds(pack) && k < |pack|
    ensures forall e :: e in pack[..k] || e in pack[k + 1..] ==> e.id != pack[k].id
  {
  }

  lemma SelectElsewhere(part: seq<Entry>, f: Entry -> seq<Violation>, ids: set<string>, id: string)
    requires forall e :: e in part ==> e.id != id
    ensures FlatMap(part, Selected(f, ids + {id})) == FlatMap(part, Selected(f, ids))
  {
    FlatMapSame(part, Selected(f, ids + {id}), Selected(f, ids));
  }

  // Selecting one more rule adds its violations, wherever it stands in the pack.
  lemma SelectOneMore(pack: seq<Entry>, f: Entry -> seq<Violation>, ids: set<string>, e: Entry)
    requires DistinctIds(pack) && e in pack && e.id !in ids
    ensures multiset(FlatMap(pack, Selected(f, ids + {e.id})))
         == multiset(FlatMap(pack, Selected(f, ids))) + multiset(f(e))
  {
    var k :| 0 <= k < |pack| && pack[k] == e;
    FlatMapSplit(pack, k, Selected(f, ids));
    FlatMapSplit(pack, k, Selected(f, ids + {e.id}));
    OthersDiffer(pack, k);
    SelectElsewhere(pack[..k], f, ids, e.id);
    SelectElsewhere(pack[k + 1..], f, ids, e.id);
  }

  // The id of one rule, given what has been collected for it.
  lemma TriggeredId(re: Search, e: Entry, i: Input, active: Option<set<string>>, found: map<string, seq<Match>>,
                    triggered: map<string, seq<Signal>>, visionPrimaryIds: set<string>)
    requires e.id in found ==> found[e.id] != []
    requires MatchesIn(found, e.id) == if Active(active, e.id) then TextMatches(re, e, i) else []
    requires e.id in triggered <==> Active(active, e.id) && VisionMatches(e, i) != []
    requires e.id in visionPrimaryIds <==> Active(active, e.id) && VisionPrimary(e)
    ensures e.id in (found.Keys - visionPrimaryIds) + triggered.Keys <==> Active(active, e.id) && Triggered(re, e, i)
  {
    assert e.id in found <==> MatchesIn(found, e.id) != [];
  }

  // The ids the engine visits are those of the active, triggered rules.
  lemma TriggeredIds(re: Search, pack: seq<Entry>, i: Input, active: Option<set<string>>,
                     found: map<string, seq<Match>>, triggered: map<string, seq<Signal>>, visionPrimaryIds: set<string>)
    requires DistinctIds(pack) && found.Keys <= Ids(pack) && triggered.Keys <= Ids(pack)
    requires forall id :: id in found ==> found[id] != []
    requires forall e :: e in pack ==>
               MatchesIn(found, e.id) == if Active(active, e.id) then TextMatches(re, e, i) else []
    requires forall e :: e in pack ==> (e.id in triggered <==> Active(active, e.id) && VisionMatches(e, i) != [])
    requires visionPrimaryIds == set e | e in pack && Active(active, e.id) && VisionPrimary(e) :: e.id
    ensures (found.Keys - visionPrimaryIds) + triggered.Keys <= Ids(pack)
    ensures forall e :: e in pack ==>
              (e.id in (found.Keys - visionPrimaryIds) + triggered.Keys
               <==> Active(active, e.id) && Triggered(re, e, i))
  {
    forall e | e in pack
      ensures e.id in (found.Keys - visionPrimaryIds) + triggered.Keys
              <==> Active(active, e.id) && Triggered(re, e, i)
    {
      TriggeredId(re, e, i, active, found, triggered, visionPrimaryIds);
    }
  }

  lemma TriggeredCollected(re: Search, pack: seq<Entry>, i: Input, active: Option<set<string>>,
                           found: map<string, seq<Match>>, triggered: map<string, seq<Signal>>, ids: set<string>)
    requires DistinctIds(pack) && ids <= Ids(pack) && !Raises(re, pack, i, active)
    requires forall e :: e in pack ==>
               MatchesIn(found, e.id) == if Active(active, e.id) then TextMatches(re, e, i) else []
    requires forall e :: e in pack ==>
               && (e.id in triggered <==> Active(active, e.id) && VisionMatches(e, i) != [])
               && (e.id in triggered ==> triggered[e.id] == VisionMatches(e, i))
    requires forall e :: e in pack ==> (e.id in ids <==> Active(active, e.id) && Triggered(re, e, i))
    ensures forall id :: id in ids ==> Collected(re, pack, i, found, triggered, id)
  {
    forall id | id in ids ensures Collected(re, pack, i, found, triggered, id) {
      var e := RuleOf(pack, id);
      assert e in pack && e.id == id;
      NoEntryRaises(re, pack, i, active, e);
    }
  }

  // The violations of a set of rules visited in some order are those of the pack
  // restricted to the set.
  lemma {:induction false} AnyOrderSelects(pack: seq<Entry>, f: Entry -> seq<Violation>, g: string -> seq<Violation>,
                                           order: seq<string>, ids: set<string>)
    requires DistinctIds(pack) && ids <= Ids(pack) && multiset(order) == multiset(ids)
    requires forall id :: id in ids ==> g(id) == f(RuleOf(pack, id))
    ensures multiset(FlatMap(order, g)) == multiset(FlatMap(pack, Selected(f, ids)))
    decreases |order|
  {
    if order == [] {
      NoIds(ids);
      FlatMapEmpty(pack, Selected(f, ids));
    } else {
      var n := |order| - 1;
      var id := order[n];
      OrderInit(order, ids);
      var rest := ids - {id};
      AnyOrderSelects(pack, f, g, order[..n], rest);
      SelectOneMore(pack, f, rest, RuleOf(pack, id));
      assert rest + {id} == ids;
      FlatMapLast(order, g);
    }
  }

  lemma NoIds(ids: set<string>)
    requires multiset([]) == multiset(ids)
    ensures ids == {}
  {
    assert |multiset(ids)| == |ids|;
  }

  lemma OrderInit(order: seq<string>, ids: set<string>)
    requires order != [] && multiset(order) == multiset(ids)
    ensures order[|order| - 1] in ids
    ensures multiset(order[..|order| - 1]) == multiset(ids - {order[|order| - 1]})
  {
    var n := |order| - 1;
    assert order == order[..n] + [order[n]];
    assert order[n] in multiset(order);
    assert multiset(order[..n]) == multiset(order) - multiset{order[n]};
  }

  lemma AnyOrderExpected(re: Search, t: Tables, pack: seq<Entry>, i: Input, active: Option<set<string>>,
                         order: seq<string>, ids: set<string>)
    requires DistinctIds(pack) && ids <= Ids(pack) && multiset(order) == multiset(ids)
    requires forall e :: e in pack ==> (e.id in ids <==> Active(active, e.id) && Triggered(re, e, i))
    ensures multiset(FlatMap(order, RuleOutput(re, t, pack, i))) == multiset(Expected(re, t, pack, i, active))
  {
    var f, g := Output(re, t, i, active), RuleOutput(re, t, pack, i);
    forall id | id in ids ensures g(id) == f(RuleOf(pack, id)) {
      assert RuleOf(pack, id) in pack;
    }
    AnyOrderSelects(pack, f, g, order, ids);
    FlatMapSame(pack, Selected(f, ids), f);
  }

  method EmitMatches(e: Entry, i: Input, matches: seq<Match>) returns (vs: seq<Violation>)
    ensures vs == FlatMap(matches, MatchViolation(e, i))
  {
    vs := [];
    for n := 0 to |matches|
      invariant vs == FlatMap(matches[..n], MatchViolation(e, i))
    {
      FlatMapSnoc(matches, n, MatchViolation(e, i));
      vs := vs + MatchViolation(e, i)(matches[n]);
    }
    assert matches[..|matches|] == matches;
  }

  method EmitObjects(e: Entry, i: Input, objects: seq<Signal>) returns (vs: seq<Violation>)
    ensures vs == FlatMap(objects, ObjectViolation(e, i))
  {
    vs := [];
    for n := 0 to |objects|
      invariant vs == FlatMap(objects[..n], ObjectViolation(e, i))
    {
      FlatMapSnoc(objects, n, ObjectViolation(e, i));
      vs := vs + ObjectViolation(e, i)(objects[n]);
    }
    assert objects[..|objects|] == objects;
  }

  method EmitEmbeddings(e: Entry, i: Input, signals: seq<Signal>) returns (vs: seq<Violation>)
    ensures vs == FlatMap(signals, EmbeddingViolation(e, i))
  {
    vs := [];
    for n := 0 to |signals|
      invariant vs == FlatMap(signals[..n], EmbeddingViolation(e, i))
    {
      FlatMapSnoc(signals, n, EmbeddingViolation(e, i));
      vs := vs + EmbeddingViolation(e, i)(signals[n]);
    }
    assert signals[..|signals|] == signals;
  }

  // The rescan branch of _assemble_violations.
  method LookAgain(re: Search, e: Entry, i: Input) returns (vs: seq<Violation>)
    requires !EntryRaises(re, e, i)
    ensures vs == Rescan(re, e, i)
  {
    var textSignals := Keep(i.signals, IsTextSignal);
    match i.document {
      case Some(doc) =>
        var hit := FindHit(re, doc.text, e);
        if hit.value.None? { return []; }
        var h := hit.value.value;
        return [Violation(PickSignalId(h.span, doc.spans, textSignals, doc.sourceSignalIds), e.id,
                          SeverityFloat(e.rule), h.confidence, 0.8, true,
                          TextMatch(h.term, h.term, Excerpt(doc.text), Some(h.span), None))];
      case None =>
        vs := [];
        for n := 0 to |textSignals|
          invariant vs == FlatMap(textSignals[..n], RescanViolation(re, e))
        {
          FlatMapSnoc(textSignals, n, RescanViolation(re, e));
          var s := textSignals[n];
          var hit := FindHit(re, TextOf(s), e);
          if hit.value.Some? {
            var h := hit.value.value;
            vs := vs + [Violation(ShownId(s), e.id, SeverityFloat(e.rule), h.confidence, s.confidence, false,
                                  TextMatch(h.term, TextOf(s), TextOf(s), None, s.boundingBox))];
          }
        }
        assert textSignals[..|textSignals|] == textSignals;
    }
  }
}
