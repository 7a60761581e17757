/**
  Every piece of evidence is reported exactly once, under its own signal
  (src/zataone/policy_engine/engine.py, lines 223-428): the violations of a rule, kind by
  kind, read off the signals of the input.
 */
module ViolationCounts {
  import opened Options
  import opened Text
  import opened Sequences
  import opened StableSort
  import opened Signals
  import opened Dsl
  import opened LegacyRules
  import opened Violations
  import opened Engine
  import EngineMeaning
  import MatchSpans

  /******* What counts as evidence, in the words of the signals *******/

  // A detected object that carries one of the rule's primary labels, up to case and blanks.
  predicate PrimaryObject(r: Rule, s: Signal) {
    s.rawData.kind == "vision_object"
    && exists l :: l in r.visionPrimaryLabels && Lower(Strip(l)) == Lower(Strip(s.rawData.objectLabel))
  }

  // A detected object that carries a label of the rule's support set.
  predicate SupportingObject(t: Tables, id: string, s: Signal) {
    && s.rawData.kind == "vision_object"
    && id in t.visionSupport && Lower(Strip(s.rawData.objectLabel)) in t.visionSupport[id]
  }

  // An image that is similar to the regulation the rule is mapped to.
  predicate SimilarImage(t: Tables, id: string, s: Signal) {
    && s.rawData.kind == "image_embedding_similarity" && s.rawData.regulation != ""
    && id in t.embeddingRules && s.rawData.regulation == t.embeddingRules[id]
  }

  // A signal with text in which the rule has a hit.
  predicate MatchingText(re: Search, e: Entry, s: Signal) {
    && (|| (s.signalType.Some? && s.signalType.value.value == "text")
        || (s.signalType.Some? && exists i :: 0 <= i <= |s.signalType.value.shown|
                                              && s.signalType.value.shown[i..] == "TEXT")
        || s.rawData.kind in {"ocr_text", "asr_text"}
        || s.rawData.text.Some?)
    && HitIn(re, s.rawData.text.GetOr(""), e).Some?
  }

  datatype Kind = OfObject | OfImage | OfText

  // What a violation shows: all of it but its rule and the severity, which is the rule's.
  datatype Report =
    | ObjectReport(signalId: string, confidence: real, signalConfidence: real, documentCentric: bool,
                   seen: string, box: Option<Box>)
    | ImageReport(signalId: string, confidence: real, signalConfidence: real, documentCentric: bool,
                  regulation: string)
    | TextReport(signalId: string, confidence: real, signalConfidence: real, documentCentric: bool,
                 term: string, matched: string, excerpt: string, span: Option<MatchSpan>, box: Option<Box>)
  {
    predicate Is(kind: Kind) {
      match kind
      case OfObject => ObjectReport?
      case OfImage => ImageReport?
      case OfText => TextReport?
    }
  }

  function Shows(v: Violation): Report {
    match v.evidence
    case VisionObject(l, b) => ObjectReport(v.signalId, v.confidence, v.signalConfidence, v.documentCentric, l, b)
    case EmbeddingSimilarity(regulation) =>
      ImageReport(v.signalId, v.confidence, v.signalConfidence, v.documentCentric, regulation)
    case TextMatch(term, matched, excerpt, span, b) =>
      TextReport(v.signalId, v.confidence, v.signalConfidence, v.documentCentric, term, matched, excerpt, span, b)
  }

  // The reports of one rule of one kind.
  function Reports(id: string, kind: Kind): Violation -> seq<Report> {
    (v: Violation) => if v.ruleId == id && Shows(v).Is(kind) then [Shows(v)] else []
  }

  function ReportsOf(vs: seq<Violation>, id: string, kind: Kind): seq<Report> {
    FlatMap(vs, Reports(id, kind))
  }

  /******* Reports of one rule *******/

  // In a pack with distinct ids only the rule itself reports under its id.
  lemma {:induction false} OwnReports(pack: seq<Entry>, f: Entry -> seq<Violation>, e: Entry, kind: Kind)
    requires DistinctIds(pack) && e in pack
    requires forall x :: x in pack ==> EngineMeaning.AllOf(f(x), x.id)
    ensures ReportsOf(FlatMap(pack, f), e.id, kind) == ReportsOf(f(e), e.id, kind)
  {
    var n := |pack| - 1;
    var before, last := pack[..n], pack[n];
    FlatMapConcat(FlatMap(before, f), f(last), Reports(e.id, kind));
    assert pack == before + [last];
    if last == e {
      NobodyElse(before, f, e.id, kind);
    } else {
      assert e in before && last.id != e.id;
      OwnReports(before, f, e, kind);
      OthersReportNothing(f(last), last.id, e.id, kind);
    }
  }

  lemma OthersReportNothing(vs: seq<Violation>, other: string, id: string, kind: Kind)
    requires EngineMeaning.AllOf(vs, other) && other != id
    ensures ReportsOf(vs, id, kind) == []
  {
    FlatMapEmpty(vs, Reports(id, kind));
  }

  lemma {:induction false} NobodyElse(pack: seq<Entry>, f: Entry -> seq<Violation>, id: string, kind: Kind)
    requires forall x :: x in pack ==> EngineMeaning.AllOf(f(x), x.id) && x.id != id
    ensures ReportsOf(FlatMap(pack, f), id, kind) == []
  {
    if pack != [] {
      var n := |pack| - 1;
      NobodyElse(pack[..n], f, id, kind);
      FlatMapConcat(FlatMap(pack[..n], f), f(pack[n]), Reports(id, kind));
      assert pack[n] in pack;
      OthersReportNothing(f(pack[n]), pack[n].id, id, kind);
    }
  }

  // What an active rule with evidence reports is what it assembles.
  lemma ReportsAssembled(re: Search, t: Tables, pack: seq<Entry>, i: Input, active: Option<set<string>>, e: Entry,
                         kind: Kind)
    requires DistinctIds(pack) && e in pack && Active(active, e.id) && EngineMeaning.Evidence(re, e, i)
    ensures ReportsOf(Expected(re, t, pack, i, active), e.id, kind) == ReportsOf(Assembled(re, t, e, i), e.id, kind)
  {
    var f := Output(re, t, i, active);
    forall x | x in pack ensures EngineMeaning.AllOf(f(x), x.id) { EngineMeaning.OutputIds(re, t, i, active, x); }
    OwnReports(pack, f, e, kind);
    EngineMeaning.TriggeredIffEvidence(re, e, i);
  }

  lemma ReportsOfParts(re: Search, t: Tables, e: Entry, i: Input, kind: Kind)
    ensures ReportsOf(Assembled(re, t, e, i), e.id, kind)
         == ReportsOf(FlatMap(TextMatches(re, e, i), MatchViolation(e, i)), e.id, kind)
            + ReportsOf(FlatMap(VisionMatches(e, i), ObjectViolation(e, i)), e.id, kind)
            + ReportsOf(EmbeddingPart(t, e, i), e.id, kind) + ReportsOf(SupportPart(t, e, i), e.id, kind)
  {
    EngineMeaning.FourParts(re, t, e, i);
    var a := FlatMap(TextMatches(re, e, i), MatchViolation(e, i));
    var b := FlatMap(VisionMatches(e, i), ObjectViolation(e, i));
    var c, d := EmbeddingPart(t, e, i), SupportPart(t, e, i);
    var g := Reports(e.id, kind);
    FlatMapConcat(a + b + c, d, g);
    FlatMapConcat(a + b, c, g);
    FlatMapConcat(a, b, g);
  }

  /******* Objects *******/

  function ObjectOf(s: Signal, centric: bool): Report {
    ObjectReport(s.id.GetOr("None"), 1.0, s.confidence, centric, s.rawData.objectLabel, s.rawData.bbox)
  }

  function ObjectsOf(ss: seq<Signal>, centric: bool): seq<Report> {
    FlatMap(ss, (s: Signal) => [ObjectOf(s, centric)])
  }

  // One report for each object, of its own signal, label and box.
  lemma ObjectsReported(e: Entry, i: Input, ss: seq<Signal>, kind: Kind)
    ensures ReportsOf(FlatMap(ss, ObjectViolation(e, i)), e.id, kind)
         == if kind == OfObject then ObjectsOf(ss, i.document.Some?) else []
  {
    var h := (s: Signal) => if kind == OfObject then [ObjectOf(s, i.document.Some?)] else [];
    forall s | s in ss ensures h(s) == FlatMap(ObjectViolation(e, i)(s), Reports(e.id, kind)) {
      FlatMapOne(ObjectViolation(e, i)(s), Reports(e.id, kind));
    }
    FlatMapTwice(ss, ObjectViolation(e, i), Reports(e.id, kind), h);
    if kind == OfObject {
      FlatMapSame(ss, h, (s: Signal) => [ObjectOf(s, i.document.Some?)]);
    } else {
      FlatMapEmpty(ss, h);
    }
  }

  function ImageOf(s: Signal, centric: bool): Report {
    ImageReport(s.id.GetOr("None"), 0.2, s.confidence, centric, s.rawData.regulation)
  }

  function ImagesOf(ss: seq<Signal>, centric: bool): seq<Report> {
    FlatMap(ss, (s: Signal) => [ImageOf(s, centric)])
  }

  lemma ImagesReported(e: Entry, i: Input, ss: seq<Signal>, kind: Kind)
    ensures ReportsOf(FlatMap(ss, EmbeddingViolation(e, i)), e.id, kind)
         == if kind == OfImage then ImagesOf(ss, i.document.Some?) else []
  {
    var h := (s: Signal) => if kind == OfImage then [ImageOf(s, i.document.Some?)] else [];
    forall s | s in ss ensures h(s) == FlatMap(EmbeddingViolation(e, i)(s), Reports(e.id, kind)) {
      FlatMapOne(EmbeddingViolation(e, i)(s), Reports(e.id, kind));
    }
    FlatMapTwice(ss, EmbeddingViolation(e, i), Reports(e.id, kind), h);
    if kind == OfImage {
      FlatMapSame(ss, h, (s: Signal) => [ImageOf(s, i.document.Some?)]);
    } else {
      FlatMapEmpty(ss, h);
    }
  }

  /******* Which signals *******/

  function Primary(r: Rule): Signal -> bool {
    (s: Signal) => PrimaryObject(r, s)
  }

  function Supporting(t: Tables, id: string): Signal -> bool {
    (s: Signal) => SupportingObject(t, id, s)
  }

  function Similar(t: Tables, id: string): Signal -> bool {
    (s: Signal) => SimilarImage(t, id, s)
  }

  lemma PrimaryObjects(e: Entry, i: Input)
    ensures VisionMatches(e, i) == Keep(i.signals, Primary(e.rule))
  {
    if VisionPrimary(e) {
      KeepKept(i.signals, IsVisionObject, CarriesLabel(AllowedLabels(e.rule)), Primary(e.rule));
    } else {
      KeepNone(i.signals, Primary(e.rule));
    }
  }

  lemma SupportReported(t: Tables, e: Entry, i: Input, kind: Kind)
    ensures ReportsOf(SupportPart(t, e, i), e.id, kind)
         == if kind == OfObject then ObjectsOf(Keep(i.signals, Supporting(t, e.id)), i.document.Some?) else []
  {
    if e.id in t.visionSupport {
      KeepKept(i.signals, IsVisionObject, CarriesLabel(t.visionSupport[e.id]), Supporting(t, e.id));
      ObjectsReported(e, i, Keep(i.signals, Supporting(t, e.id)), kind);
    } else {
      KeepNone(i.signals, Supporting(t, e.id));
    }
  }

  lemma SimilarReported(t: Tables, e: Entry, i: Input, kind: Kind)
    ensures ReportsOf(EmbeddingPart(t, e, i), e.id, kind)
         == if kind == OfImage then ImagesOf(Keep(i.signals, Similar(t, e.id)), i.document.Some?) else []
  {
    if e.id in t.embeddingRules {
      KeepSame(i.signals, IsEmbedding(t.embeddingRules[e.id]), Similar(t, e.id));
      ImagesReported(e, i, Keep(i.signals, Similar(t, e.id)), kind);
    } else {
      KeepNone(i.signals, Similar(t, e.id));
    }
  }

  /******* Text *******/

  // The hit of a rule in a signal's text, as it is reported.
  function TextReportOf(s: Signal, h: Hit): Report {
    TextReport(s.id.GetOr("None"), h.confidence, s.confidence, false,
               h.term, h.term, s.rawData.text.GetOr(""), None, s.boundingBox)
  }

  function TextsOf(re: Search, e: Entry, ss: seq<Signal>): seq<Report> {
    FlatMap(ss, TextsOfSignal(re, e))
  }

  function TextsOfSignal(re: Search, e: Entry): Signal -> seq<Report> {
    (s: Signal) =>
      match HitIn(re, s.rawData.text.GetOr(""), e)
      case Some(h) => [TextReportOf(s, h)]
      case None => []
  }

  function Matching(re: Search, e: Entry): Signal -> bool {
    (s: Signal) => MatchingText(re, e, s)
  }

  lemma TextSignalIff(s: Signal)
    ensures IsTextSignal(s)
       <==> || (s.signalType.Some? && s.signalType.value.value == "text")
            || (s.signalType.Some? && exists i :: 0 <= i <= |s.signalType.value.shown|
                                                  && s.signalType.value.shown[i..] == "TEXT")
            || s.rawData.kind in {"ocr_text", "asr_text"}
            || s.rawData.text.Some?
  {
    if s.signalType.Some? {
      var shown := s.signalType.value.shown;
      if i :| 0 <= i <= |shown| && shown[i..] == "TEXT" {
        assert i == |shown| - 4;
      }
      if EndsWithText(shown) { assert shown[|shown| - 4..] == "TEXT"; }
    }
  }

  lemma MatchReported(e: Entry, i: Input, s: Signal, h: Hit, kind: Kind)
    requires i.document.None?
    ensures ReportsOf(FlatMap([Match(Some(s), h)], MatchViolation(e, i)), e.id, kind)
         == if kind == OfText then [TextReportOf(s, h)] else []
  {
    var m := Match(Some(s), h);
    FlatMapOne([m], MatchViolation(e, i));
    FlatMapOne(MatchViolation(e, i)(m), Reports(e.id, kind));
  }

  lemma OneFragment(re: Search, e: Entry, i: Input, s: Signal, kind: Kind)
    requires i.document.None?
    ensures ReportsOf(FlatMap(FragmentMatcher(re, e)(s), MatchViolation(e, i)), e.id, kind)
         == if kind == OfText then TextsOfSignal(re, e)(s) else []
  {
    var hit := HitIn(re, TextOf(s), e);
    assert FragmentMatcher(re, e)(s) == if hit.Some? then [Match(Some(s), hit.value)] else [];
    if hit.Some? {
      MatchReported(e, i, s, hit.value, kind);
    } else {
      assert FlatMap<Match, Violation>([], MatchViolation(e, i)) == [];
    }
  }

  lemma {:induction false} FragmentsReported(re: Search, e: Entry, i: Input, ss: seq<Signal>, kind: Kind)
    requires i.document.None?
    ensures ReportsOf(FlatMap(FlatMap(ss, FragmentMatcher(re, e)), MatchViolation(e, i)), e.id, kind)
         == if kind == OfText then TextsOf(re, e, ss) else []
  {
    if ss != [] {
      var n := |ss| - 1;
      var before, last := FlatMap(ss[..n], FragmentMatcher(re, e)), FragmentMatcher(re, e)(ss[n]);
      FragmentsReported(re, e, i, ss[..n], kind);
      OneFragment(re, e, i, ss[n], kind);
      FlatMapConcat(before, last, MatchViolation(e, i));
      FlatMapConcat(FlatMap(before, MatchViolation(e, i)), FlatMap(last, MatchViolation(e, i)), Reports(e.id, kind));
    }
  }

  lemma TextsOfTextSignals(re: Search, e: Entry, ss: seq<Signal>)
    ensures TextsOf(re, e, Keep(ss, IsTextSignal)) == TextsOf(re, e, Keep(ss, Matching(re, e)))
  {
    var f := TextsOfSignal(re, e);
    var h := (s: Signal) => if IsTextSignal(s) then f(s) else [];
    FlatMapKept(ss, IsTextSignal, f, h);
    forall s | s in ss ensures h(s) == if Matching(re, e)(s) then f(s) else [] { TextSignalIff(s); }
    FlatMapKept(ss, Matching(re, e), f, h);
  }

  lemma MatchingReportOnce(re: Search, e: Entry, ss: seq<Signal>)
    requires forall s :: s in ss ==> MatchingText(re, e, s)
    ensures |TextsOf(re, e, ss)| == |ss|
  {
    OneEach(ss, TextsOfSignal(re, e));
  }

  ghost predicate FirstStart(spans: seq<Span>, start: nat, k: int) {
    0 <= k < |spans| && spans[k].start == start && forall j :: 0 <= j < k ==> spans[j].start != start
  }

  // The box of the first span of the document that starts where the hit does.
  ghost predicate BoxThere(spans: seq<Span>, start: nat, box: Option<Box>) {
    && (forall k :: FirstStart(spans, start, k) ==>
          box == if spans[k].bbox == Some(BoxList([])) then None else spans[k].bbox)
    && ((forall k :: 0 <= k < |spans| ==> spans[k].start != start) ==> box == None)
  }

  lemma {:induction false} BoxOfFirst(spans: seq<Span>, start: nat, k: int)
    requires FirstStart(spans, start, k)
    ensures BoxAt(spans, start) == if spans[k].bbox == Some(BoxList([])) then None else spans[k].bbox
  {
    if k > 0 {
      var rest := spans[1..];
      assert forall j :: 0 <= j < |rest| ==> rest[j] == spans[j + 1];
      BoxOfFirst(rest, start, k - 1);
    }
  }

  lemma {:induction false} NoBox(spans: seq<Span>, start: nat)
    requires forall k :: 0 <= k < |spans| ==> spans[k].start != start
    ensures BoxAt(spans, start) == None
  {
    if spans != [] {
      var rest := spans[1..];
      assert forall j :: 0 <= j < |rest| ==> rest[j] == spans[j + 1];
      NoBox(rest, start);
    }
  }

  lemma BoxIsThere(spans: seq<Span>, start: nat)
    ensures BoxThere(spans, start, BoxAt(spans, start))
  {
    forall k | FirstStart(spans, start, k)
      ensures BoxAt(spans, start) == if spans[k].bbox == Some(BoxList([])) then None else spans[k].bbox
    {
      BoxOfFirst(spans, start, k);
    }
    if forall k :: 0 <= k < |spans| ==> spans[k].start != start { NoBox(spans, start); }
  }

  // What a rule reports of a document in which it has the hit h.
  ghost predicate DocumentReport(i: Input, doc: Document, h: Hit, r: Report) {
    && r.TextReport?
    && r.signalId == MatchSpans.PickSignalId(h.span, doc.spans, Keep(i.signals, IsTextSignal), doc.sourceSignalIds)
    && r.confidence == h.confidence && r.signalConfidence == 0.8 && r.documentCentric
    && r.term == r.matched == h.term && r.span == Some(h.span)
    && r.excerpt == (if |doc.text| > 500 then doc.text[..500] else doc.text)
    && BoxThere(doc.spans, h.span.start, r.box)
  }

  lemma DocumentReported(re: Search, e: Entry, i: Input, kind: Kind)
    requires i.document.Some?
    ensures var rs := ReportsOf(FlatMap(TextMatches(re, e, i), MatchViolation(e, i)), e.id, kind);
            var h := HitIn(re, i.document.value.text, e);
            if kind == OfText && h.Some? then |rs| == 1 && DocumentReport(i, i.document.value, h.value, rs[0])
            else rs == []
  {
    var h := HitIn(re, i.document.value.text, e);
    if h.Some? {
      var m := Match(None, h.value);
      FlatMapOne([m], MatchViolation(e, i));
      FlatMapOne(MatchViolation(e, i)(m), Reports(e.id, kind));
      BoxIsThere(i.document.value.spans, h.value.span.start);
    }
  }

  /******* Every piece of evidence, once *******/

  lemma ReportsPermute(vs: seq<Violation>, ws: seq<Violation>, id: string, kind: Kind)
    requires multiset(vs) == multiset(ws)
    ensures multiset(ReportsOf(vs, id, kind)) == multiset(ReportsOf(ws, id, kind))
    ensures |ReportsOf(vs, id, kind)| == |ReportsOf(ws, id, kind)|
  {
    FlatMapPermutes(vs, ws, Reports(id, kind));
    SameElements(ReportsOf(vs, id, kind), ReportsOf(ws, id, kind));
  }

  lemma NoTextElsewhere(re: Search, e: Entry, i: Input, kind: Kind)
    requires kind != OfText
    ensures ReportsOf(FlatMap(TextMatches(re, e, i), MatchViolation(e, i)), e.id, kind) == []
  {
    if i.document.Some? {
      DocumentReported(re, e, i, kind);
    } else {
      FragmentsReported(re, e, i, Keep(i.signals, IsTextSignal), kind);
    }
  }

  lemma ObjectReportsLeft(re: Search, t: Tables, pack: seq<Entry>, i: Input, active: Option<set<string>>, e: Entry)
    requires DistinctIds(pack) && e in pack && Active(active, e.id) && EngineMeaning.Evidence(re, e, i)
    ensures ReportsOf(Expected(re, t, pack, i, active), e.id, OfObject)
         == ObjectsOf(Keep(i.signals, Primary(e.rule)), i.document.Some?)
            + ObjectsOf(Keep(i.signals, Supporting(t, e.id)), i.document.Some?)
  {
    ReportsAssembled(re, t, pack, i, active, e, OfObject);
    ReportsOfParts(re, t, e, i, OfObject);
    NoTextElsewhere(re, e, i, OfObject);
    PrimaryReported(e, i);
    SimilarReported(t, e, i, OfObject);
    SupportReported(t, e, i, OfObject);
    SecondAndFourth([], ObjectsOf(Keep(i.signals, Primary(e.rule)), i.document.Some?), [],
                    ObjectsOf(Keep(i.signals, Supporting(t, e.id)), i.document.Some?));
  }

  lemma PrimaryReported(e: Entry, i: Input)
    ensures ReportsOf(FlatMap(VisionMatches(e, i), ObjectViolation(e, i)), e.id, OfObject)
         == ObjectsOf(Keep(i.signals, Primary(e.rule)), i.document.Some?)
  {
    PrimaryObjects(e, i);
    ObjectsReported(e, i, VisionMatches(e, i), OfObject);
  }

  lemma SecondAndFourth<T>(a: seq<T>, b: seq<T>, c: seq<T>, d: seq<T>)
    requires a == [] && c == []
    ensures a + b + c + d == b + d
  {
  }

  lemma ObjectsOfLength(ss: seq<Signal>, centric: bool)
    ensures |ObjectsOf(ss, centric)| == |ss|
  {
    OneEach(ss, (s: Signal) => [ObjectOf(s, centric)]);
  }

  lemma PermutedPair<T>(rs: seq<T>, expected: seq<T>, a: seq<T>, b: seq<T>)
    requires multiset(rs) == multiset(expected) && expected == a + b
    ensures multiset(rs) == multiset(a) + multiset(b) && |rs| == |a| + |b|
  {
    SameElements(rs, expected);
  }

  // Main theorem: an active rule with evidence reports every object that carries one of its
  // primary labels and every object that carries a label of its support set, each once,
  // under its own id and with its own label and box.
  lemma ObjectsCounted(re: Search, t: Tables, pack: seq<Entry>, i: Input, active: Option<set<string>>, e: Entry,
                       vs: seq<Violation>)
    requires DistinctIds(pack) && e in pack && Active(active, e.id) && EngineMeaning.Evidence(re, e, i)
    requires multiset(vs) == multiset(Expected(re, t, pack, i, active))
    ensures multiset(ReportsOf(vs, e.id, OfObject))
         == multiset(ObjectsOf(Keep(i.signals, Primary(e.rule)), i.document.Some?))
            + multiset(ObjectsOf(Keep(i.signals, Supporting(t, e.id)), i.document.Some?))
    ensures |ReportsOf(vs, e.id, OfObject)|
         == |Keep(i.signals, Primary(e.rule))| + |Keep(i.signals, Supporting(t, e.id))|
  {
    var all := Expected(re, t, pack, i, active);
    ReportsPermute(vs, all, e.id, OfObject);
    ObjectReportsLeft(re, t, pack, i, active, e);
    PermutedPair(ReportsOf(vs, e.id, OfObject), ReportsOf(all, e.id, OfObject),
                 ObjectsOf(Keep(i.signals, Primary(e.rule)), i.document.Some?),
                 ObjectsOf(Keep(i.signals, Supporting(t, e.id)), i.document.Some?));
    ObjectsOfLength(Keep(i.signals, Primary(e.rule)), i.document.Some?);
    ObjectsOfLength(Keep(i.signals, Supporting(t, e.id)), i.document.Some?);
  }

  // And every image that is similar to the regulation it is mapped to.
  lemma ImagesCounted(re: Search, t: Tables, pack: seq<Entry>, i: Input, active: Option<set<string>>, e: Entry,
                      vs: seq<Violation>)
    requires DistinctIds(pack) && e in pack && Active(active, e.id) && EngineMeaning.Evidence(re, e, i)
    requires multiset(vs) == multiset(Expected(re, t, pack, i, active))
    ensures multiset(ReportsOf(vs, e.id, OfImage))
         == multiset(ImagesOf(Keep(i.signals, Similar(t, e.id)), i.document.Some?))
    ensures |ReportsOf(vs, e.id, OfImage)| == |Keep(i.signals, Similar(t, e.id))|
  {
    ReportsPermute(vs, Expected(re, t, pack, i, active), e.id, OfImage);
    ReportsAssembled(re, t, pack, i, active, e, OfImage);
    ReportsOfParts(re, t, e, i, OfImage);
    NoTextElsewhere(re, e, i, OfImage);
    ObjectsReported(e, i, VisionMatches(e, i), OfImage);
    SimilarReported(t, e, i, OfImage);
    SupportReported(t, e, i, OfImage);
    OneEach(Keep(i.signals, Similar(t, e.id)), (s: Signal) => [ImageOf(s, i.document.Some?)]);
  }

  lemma TextReportsLeft(re: Search, t: Tables, pack: seq<Entry>, i: Input, active: Option<set<string>>, e: Entry)
    requires DistinctIds(pack) && e in pack && Active(active, e.id) && EngineMeaning.Evidence(re, e, i)
    ensures ReportsOf(Expected(re, t, pack, i, active), e.id, OfText)
         == ReportsOf(FlatMap(TextMatches(re, e, i), MatchViolation(e, i)), e.id, OfText)
  {
    ReportsAssembled(re, t, pack, i, active, e, OfText);
    ReportsOfParts(re, t, e, i, OfText);
    ObjectsReported(e, i, VisionMatches(e, i), OfText);
    SimilarReported(t, e, i, OfText);
    SupportReported(t, e, i, OfText);
  }

  lemma FragmentReportsLeft(re: Search, t: Tables, pack: seq<Entry>, i: Input, active: Option<set<string>>, e: Entry)
    requires DistinctIds(pack) && e in pack && Active(active, e.id) && EngineMeaning.Evidence(re, e, i)
    requires i.document.None?
    ensures ReportsOf(Expected(re, t, pack, i, active), e.id, OfText)
         == TextsOf(re, e, Keep(i.signals, Matching(re, e)))
  {
    TextReportsLeft(re, t, pack, i, active, e);
    FragmentsReported(re, e, i, Keep(i.signals, IsTextSignal), OfText);
    TextsOfTextSignals(re, e, i.signals);
  }

  // And, in fragment mode, every text signal it has a hit in.
  lemma TextsCounted(re: Search, t: Tables, pack: seq<Entry>, i: Input, active: Option<set<string>>, e: Entry,
                     vs: seq<Violation>)
    requires DistinctIds(pack) && e in pack && Active(active, e.id) && EngineMeaning.Evidence(re, e, i)
    requires multiset(vs) == multiset(Expected(re, t, pack, i, active)) && i.document.None?
    ensures multiset(ReportsOf(vs, e.id, OfText)) == multiset(TextsOf(re, e, Keep(i.signals, Matching(re, e))))
    ensures |ReportsOf(vs, e.id, OfText)| == |Keep(i.signals, Matching(re, e))|
  {
    ReportsPermute(vs, Expected(re, t, pack, i, active), e.id, OfText);
    FragmentReportsLeft(re, t, pack, i, active, e);
    KeepMembers(i.signals, Matching(re, e));
    MatchingReportOnce(re, e, Keep(i.signals, Matching(re, e)));
  }

  lemma AtMostOnePermutes<T>(rs: seq<T>, xs: seq<T>)
    requires multiset(rs) == multiset(xs) && |xs| <= 1
    ensures rs == xs
  {
    SameElements(rs, xs);
    if xs != [] { assert xs[0] in rs; }
  }

  // In document mode it is the one hit in the document, or nothing.
  lemma DocumentCounted(re: Search, t: Tables, pack: seq<Entry>, i: Input, active: Option<set<string>>, e: Entry,
                        vs: seq<Violation>)
    requires DistinctIds(pack) && e in pack && Active(active, e.id) && EngineMeaning.Evidence(re, e, i)
    requires multiset(vs) == multiset(Expected(re, t, pack, i, active)) && i.document.Some?
    ensures var rs, h := ReportsOf(vs, e.id, OfText), HitIn(re, i.document.value.text, e);
            if h.Some? then |rs| == 1 && DocumentReport(i, i.document.value, h.value, rs[0]) else rs == []
  {
    var rs := ReportsOf(FlatMap(TextMatches(re, e, i), MatchViolation(e, i)), e.id, OfText);
    ReportsPermute(vs, Expected(re, t, pack, i, active), e.id, OfText);
    TextReportsLeft(re, t, pack, i, active, e);
    DocumentReported(re, e, i, OfText);
    AtMostOnePermutes(ReportsOf(vs, e.id, OfText), rs);
  }
}
