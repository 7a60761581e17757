/**
  Linking a match back to the document and to the signal it came from
  (src/zataone/policy_engine/match_span.py).
 */
module MatchSpans {
  import opened Options
  import opened Text
  import opened Signals
  import opened Dsl
  import opened Parser
  import opened LegacyRules
  import opened DocumentBuilder
  import Normalizer
  import DslMeaning
  import DocumentSpans

  /******* locate_match_span *******/

  // The first match of a rule pattern, where it is the term up to case.
  function PatternPlace(re: Search, text: string, term: string, p: RawPattern): Option<MatchSpan> {
    var l := if p.Info? && p.pattern.GetOr("") != "" then re(p.pattern.value, text) else None;
    if l.Some? && Lower(text[l.value.start..l.value.end]) == Lower(term)
    then Some(MatchSpan(l.value.start, l.value.end, text[l.value.start..l.value.end]))
    else None
  }

  // Anything but a dictionary among the patterns has no .get.
  function LocatePattern(re: Search, text: string, term: string, ps: seq<RawPattern>): Outcome<Option<MatchSpan>> {
    if ps == [] then Ok(None)
    else if !ps[0].Info? then Raised
    else
      var place := PatternPlace(re, text, term, ps[0]);
      if place.Some? then Ok(place) else LocatePattern(re, text, term, ps[1..])
  }

  function LocateMatchSpan(re: Search, text: string, term: string, patterns: Option<seq<RawPattern>>)
    : Outcome<Option<MatchSpan>>
  {
    if text == "" || term == "" then Ok(None)
    else
      var ps :- Listed(patterns);
      var p :- LocatePattern(re, text, term, ps);
      if p.Some? then Ok(p)
      else
        var i := Find(Lower(text), Lower(term));
        Ok(if i >= 0 then Some(MatchSpan(i, i + |term|, text[i..i + |term|])) else None)
  }

  lemma {:induction false} LocatePatternReads(re: Search, text: string, term: string, ps: seq<RawPattern>)
    ensures var r := LocatePattern(re, text, term, ps);
            r.Ok? && r.value.Some? ==>
              && DslMeaning.ReadsAt(text, term, r.value.value.start)
              && r.value.value.end == r.value.value.start + |term|
              && r.value.value.text == text[r.value.value.start..r.value.value.end]
  {
    if ps != [] { LocatePatternReads(re, text, term, ps[1..]); }
  }

  // A place is found exactly when the text reads as the term somewhere, and it is such a place.
  lemma LocateFindsTheTerm(re: Search, text: string, term: string, ps: Option<seq<RawPattern>>)
    requires LocateMatchSpan(re, text, term, ps).Ok?
    ensures var r := LocateMatchSpan(re, text, term, ps).value;
            && (r.Some? <==> text != "" && term != "" && exists i: nat :: DslMeaning.ReadsAt(text, term, i))
            && (r.Some? ==>
                  && DslMeaning.ReadsAt(text, term, r.value.start)
                  && r.value.end == r.value.start + |term|
                  && r.value.text == text[r.value.start..r.value.end])
  {
    LocatePatternReads(re, text, term, OrEmpty(ps));
    forall i: nat ensures DslMeaning.ReadsAt(text, term, i) <==> OccursAt(Lower(text), Lower(term), i) {
      DslMeaning.ReadsAtIffOccurs(text, term, i);
    }
  }

  ghost predicate OddReached(re: Search, text: string, term: string, ps: seq<RawPattern>, k: int) {
    0 <= k < |ps| && !ps[k].Info? && forall j :: 0 <= j < k ==> PatternPlace(re, text, term, ps[j]).None?
  }

  // The search raises exactly when it comes to something other than a dictionary before one finds the term.
  lemma {:induction false} LocateRaisesIff(re: Search, text: string, term: string, ps: seq<RawPattern>)
    ensures LocatePattern(re, text, term, ps) == Raised <==> exists k :: OddReached(re, text, term, ps, k)
  {
    if ps != [] {
      var rest := ps[1..];
      LocateRaisesIff(re, text, term, rest);
      assert forall k :: 0 <= k < |rest| ==> rest[k] == ps[k + 1];
      if k :| OddReached(re, text, term, ps, k) {
        if k > 0 { assert OddReached(re, text, term, rest, k - 1); }
      }
      if k :| OddReached(re, text, term, rest, k) {
        if ps[0].Info? && PatternPlace(re, text, term, ps[0]).None? {
          assert OddReached(re, text, term, ps, k + 1);
        }
      }
      if !ps[0].Info? { assert OddReached(re, text, term, ps, 0); }
    }
  }

  /******* pick_signal_id_for_span *******/

  predicate Covers(sp: Span, m: MatchSpan) {
    sp.start <= m.start && sp.end >= m.end
  }

  predicate Overlaps(sp: Span, m: MatchSpan) {
    !(sp.end <= m.start || sp.start >= m.end)
  }

  function SpanOwner(spans: seq<Span>, m: MatchSpan): Option<string> {
    if spans == [] then None
    else if (Covers(spans[0], m) || Overlaps(spans[0], m)) && spans[0].signalId != "" then Some(spans[0].signalId)
    else SpanOwner(spans[1..], m)
  }

  function FirstSignalId(signals: seq<Signal>): Option<string> {
    if signals == [] then None
    else if SignalId(signals[0]) != "" then signals[0].id
    else FirstSignalId(signals[1..])
  }

  function PickSignalId(m: MatchSpan, spans: seq<Span>, textSignals: seq<Signal>, sourceIds: seq<string>): string {
    match SpanOwner(spans, m)
    case Some(id) => id
    case None =>
      match FirstSignalId(textSignals)
      case Some(id) => id
      case None => if sourceIds != [] then sourceIds[0] else "document"
  }

  ghost predicate FirstWithId(signals: seq<Signal>, k: int) {
    && 0 <= k < |signals| && signals[k].id.GetOr("") != ""
    && forall j :: 0 <= j < k ==> signals[j].id.GetOr("") == ""
  }

  // The first fallback is the id of the first text signal that has one.
  lemma {:induction false} FirstIdIs(signals: seq<Signal>, k: int)
    requires FirstWithId(signals, k)
    ensures FirstSignalId(signals) == signals[k].id
  {
    if k > 0 {
      var rest := signals[1..];
      assert forall j :: 0 <= j < |rest| ==> rest[j] == signals[j + 1];
      FirstIdIs(rest, k - 1);
    }
  }

  lemma {:induction false} NoIdIsNone(signals: seq<Signal>)
    requires forall s :: s in signals ==> s.id.GetOr("") == ""
    ensures FirstSignalId(signals) == None
  {
    if signals != [] {
      assert signals[0] in signals;
      NoIdIsNone(signals[1..]);
    }
  }

  predicate Touches(sp: Span, m: MatchSpan) {
    Covers(sp, m) || Overlaps(sp, m)
  }

  // A match with some text is touched by the spans that it shares a character with; an empty match is touched by the
  // spans it lies in, ends included.
  lemma TouchesIff(sp: Span, m: MatchSpan)
    requires sp.start < sp.end
    ensures m.start < m.end ==> (Touches(sp, m) <==> sp.start < m.end && m.start < sp.end)
    ensures m.start == m.end ==> (Touches(sp, m) <==> sp.start <= m.start <= sp.end)
  {
  }

  // Span k owns the match: it touches it, has an id, and lies left of every other such span.
  ghost predicate LeftmostOwner(spans: seq<Span>, m: MatchSpan, k: int) {
    && 0 <= k < |spans|
    && Touches(spans[k], m) && spans[k].signalId != ""
    && forall j :: 0 <= j < |spans| && j != k && Touches(spans[j], m) && spans[j].signalId != "" ==>
         spans[k].end <= spans[j].start
  }

  lemma {:induction false} OwnerIsLeftmost(spans: seq<Span>, m: MatchSpan) returns (k: int)
    requires DocumentSpans.InOrder(spans)
    ensures SpanOwner(spans, m).Some? ==>
              LeftmostOwner(spans, m, k) && SpanOwner(spans, m) == Some(spans[k].signalId)
    ensures SpanOwner(spans, m).None? ==>
              forall j :: 0 <= j < |spans| && Touches(spans[j], m) ==> spans[j].signalId == ""
  {
    k := 0;
    if spans != [] && !(Touches(spans[0], m) && spans[0].signalId != "") {
      var rest := spans[1..];
      var r := OwnerIsLeftmost(rest, m);
      k := r + 1;
      assert forall j :: 0 < j < |spans| ==> spans[j] == rest[j - 1];
    }
  }

  // On every built document a match goes to its leftmost touching span with an id, and to
  // the fallbacks only when no touching span has one.
  lemma PickedSignalIsLeftmost(a: Asset, signals: seq<Signal>, m: MatchSpan, textSignals: seq<Signal>)
    ensures var doc := BuiltDocument(a, signals);
            var id := PickSignalId(m, doc.spans, textSignals, doc.sourceSignalIds);
            || (exists k :: LeftmostOwner(doc.spans, m, k) && id == doc.spans[k].signalId)
            || (&& (forall j :: 0 <= j < |doc.spans| && Touches(doc.spans[j], m) ==> doc.spans[j].signalId == "")
                && id == FirstSignalId(textSignals).GetOr(
                           if doc.sourceSignalIds != [] then doc.sourceSignalIds[0] else "document"))
  {
    var doc := BuiltDocument(a, signals);
    DocumentSpans.SpansInOrder(a, signals);
    var k := OwnerIsLeftmost(doc.spans, m);
    if SpanOwner(doc.spans, m).Some? {
      assert LeftmostOwner(doc.spans, m, k);
    }
  }

  /******* Term hits on built documents *******/

  // Where no space is doubled at the seam, a text is tidy exactly when both parts are.
  lemma TidyGlue(x: string, y: string)
    requires x != [] && y != [] && (!IsSpace(x[|x| - 1]) || !IsSpace(y[0]))
    ensures Tidy(x + y) <==> Tidy(x) && Tidy(y)
  {
    if Tidy(x + y) {
      Normalizer.TidySlice(x + y, 0, |x|);
      Normalizer.TidySlice(x + y, |x|, |x + y|);
      assert (x + y)[0..|x|] == x && (x + y)[|x|..|x + y|] == y;
    } else if Tidy(x) && Tidy(y) {
      Normalizer.TidyConcat(x, y);
    }
  }

  // A non-empty text with no space at either end.
  predicate Inked(s: string) {
    s != "" && Trimmed(s)
  }

  lemma TidyLabel(l: string, confidence: string)
    requires Inked(l)
    ensures var part := l + " (" + confidence + ")";
            Inked(part) && (Tidy(part) <==> Tidy(l) && Tidy(confidence))
  {
    TidyGlue(l, " (");
    if confidence == "" {
      TidyGlue(l + " (", ")");
      assert l + " (" + "" + ")" == l + " (" + ")";
    } else {
      TidyGlue(l + " (", confidence);
      TidyGlue(l + " (" + confidence, ")");
    }
  }

  lemma {:induction false} TidyJoin(parts: seq<string>)
    requires parts != [] && forall p :: p in parts ==> Inked(p)
    ensures var r := JoinWith(parts, ", "); Inked(r) && (Tidy(r) <==> forall p :: p in parts ==> Tidy(p))
  {
    var n := |parts| - 1;
    assert parts == parts[..n] + [parts[n]];
    assert parts[n] in parts;
    if n > 0 {
      var r := JoinWith(parts[..n], ", ");
      TidyJoin(parts[..n]);
      TidyGlue(r, ", ");
      TidyGlue(r + ", ", parts[n]);
    }
  }

  // What the scene block shows of a detected object.
  predicate TidyObject(s: Signal) {
    var l := Strip(s.rawData.objectLabel);
    l == "" || (Tidy(l) && (s.rawData.shownConfidence.Some? ==> Tidy(s.rawData.shownConfidence.value)))
  }

  lemma ObjectPart(s: Signal)
    requires Strip(s.rawData.objectLabel) != ""
    ensures var l := Strip(s.rawData.objectLabel);
            var part := match s.rawData.shownConfidence case Some(c) => l + " (" + c + ")" case None => l;
            Inked(part) && (Tidy(part) <==> TidyObject(s))
  {
    var l := Strip(s.rawData.objectLabel);
    var lo, hi := Normalizer.StripIsSlice(s.rawData.objectLabel);
    if s.rawData.shownConfidence.Some? { TidyLabel(l, s.rawData.shownConfidence.value); }
  }

  lemma {:induction false} ScenePartsTidy(vision: seq<Signal>)
    ensures forall p :: p in SceneParts(vision) ==> Inked(p)
    ensures (forall p :: p in SceneParts(vision) ==> Tidy(p)) <==> (forall s :: s in vision ==> TidyObject(s))
  {
    if vision != [] {
      var n := |vision| - 1;
      var before, s := SceneParts(vision[..n]), vision[n];
      ScenePartsTidy(vision[..n]);
      assert vision == vision[..n] + [s];
      if Strip(s.rawData.objectLabel) == "" {
        assert SceneParts(vision) == before;
      } else {
        ObjectPart(s);
        var l := Strip(s.rawData.objectLabel);
        var part := match s.rawData.shownConfidence case Some(c) => l + " (" + c + ")" case None => l;
        assert SceneParts(vision) == before + [part];
        assert part in SceneParts(vision);
      }
    }
  }

  lemma BlockTidy(joined: string)
    requires Inked(joined)
    ensures Normalized("Image contains: " + joined + ".") <==> Tidy(joined)
  {
    assert Tidy("Image contains: ") && Tidy(".");
    TidyGlue("Image contains: ", joined);
    TidyGlue("Image contains: " + joined, ".");
  }

  lemma BodylessText(body: string, vision: seq<Signal>)
    requires Normalize(body) == ""
    ensures Normalized(FinalText(body, SceneDescriptions(vision))) <==> forall s :: s in vision ==> TidyObject(s)
  {
    if SceneParts(vision) == [] {
      ScenePartsTidy(vision);
    } else {
      ScenePartsTidy(vision);
      TidyJoin(SceneParts(vision));
      BlockTidy(JoinWith(SceneParts(vision), ", "));
      OneScene(SceneDescriptions(vision)[0]);
    }
  }

  lemma OneScene(block: string)
    ensures JoinWith([block], "\n\n") == block
  {
  }

  // A body that normalises to something, or nothing but tidy labels.
  ghost predicate TidySource(a: Asset, signals: seq<Signal>) {
    var d := SortOut(signals);
    Normalize(Body(a, d).text) != "" || forall s :: s in d.vision ==> TidyObject(s)
  }

  // Main theorem: for every asset and all signals, the document text is normalised, and
  // matching sees it merely lower-cased, exactly when it has a body or its labels are tidy.
  lemma DocumentNormalizedIff(a: Asset, signals: seq<Signal>)
    ensures Normalized(BuiltDocument(a, signals).text) <==> TidySource(a, signals)
    ensures NormalizeForMatching(BuiltDocument(a, signals).text) == Lower(BuiltDocument(a, signals).text)
       <==> TidySource(a, signals)
  {
    var d := SortOut(signals);
    var body := Body(a, d).text;
    if Normalize(body) != "" {
      DocumentSpans.FinalTextKeepsBody(body, d.vision);
    } else {
      BodylessText(body, d.vision);
    }
    Normalizer.MatchingIsLowerIffNormalized(BuiltDocument(a, signals).text);
  }

  // On such a document every term hit marks the leftmost place where the document reads
  // as the term, and quotes the document there.
  lemma DocumentTermHitQuotes(a: Asset, signals: seq<Signal>, term: string, confidence: real)
    requires TidySource(a, signals)
    ensures var text := BuiltDocument(a, signals).text;
            var h := MatchTerm(text, NormalizeForMatching(text), term, confidence);
            if h.None? then forall i: nat :: !DslMeaning.ReadsAt(text, term, i)
            else
              var sp := h.value.span;
              && DslMeaning.ReadsAt(text, term, sp.start)
              && sp.end == sp.start + |term|
              && sp.text == text[sp.start..sp.end]
              && forall i: nat :: i < sp.start ==> !DslMeaning.ReadsAt(text, term, i)
  {
    DocumentNormalizedIff(a, signals);
    DslMeaning.TermHitQuotes(BuiltDocument(a, signals).text, term, confidence);
  }

  lemma EmptyBody(a: Asset, d: Buckets)
    requires AssetModality(a) != TextModality && d.ocr == [] && d.asr == [] && d.timeline == []
    ensures Body(a, d) == Page("", [])
  {
    assert OcrPieces([]) == [];
  }

  // A detected object as the vision extractor reports it, alone on an image.
  lemma OneObject(s: Signal)
    requires s.rawData.kind == "vision_object"
    requires s.signalType.Some? && s.signalType.value.value == "object"
    ensures SortOut([s]).vision == [s]
    ensures SortOut([s]).ocr == [] && SortOut([s]).asr == [] && SortOut([s]).timeline == []
  {
    assert |s.rawData.kind| == 13 && |"ocr_text"| == |"asr_text"| == 8;
    assert Lower("object")[0] == 'o' && |Lower("object")| == 6;
    assert !IsOcr(s) && !IsAsr(s) && IsVisionObject(s);
    assert [s][..0] == [];
    assert SortOut([s]) == AddSignal(SortOut([]), s);
  }

  // Its label with two blanks in a row leaves the document untidy, so the offsets found in
  // the matcher's text are out of step with it.
  lemma DoubleBlankLabel(a: Asset, s: Signal, i: nat)
    requires AssetModality(a) != TextModality
    requires s.rawData.kind == "vision_object" && s.rawData.shownConfidence.Some?
    requires s.signalType.Some? && s.signalType.value.value == "object"
    requires var l := Strip(s.rawData.objectLabel); i + 1 < |l| && l[i] == l[i + 1] == ' '
    ensures var text := BuiltDocument(a, [s]).text; NormalizeForMatching(text) != Lower(text)
  {
    OneObject(s);
    EmptyBody(a, SortOut([s]));
    Normalizer.FixedIffNormalized("");
    assert s in SortOut([s]).vision && !TidyObject(s);
    DocumentNormalizedIff(a, [s]);
  }
}
