/**
  Character spans of the built document (src/zataone/document/builder.py,
  lines 114-142 and 200-323). Offsets are computed before the final
  normalisation, yet quote the final text exactly when every OCR token is
  already normalised; they are always in order and disjoint.
 */
module DocumentSpans {
  import opened Text
  import opened Signals
  import opened StableSort
  import opened DocumentBuilder
  import Normalizer
  import ReadingOrder

  ghost predicate Quotes(text: string, sp: Span) {
    sp.start <= sp.end <= |text| && text[sp.start..sp.end] == sp.text
  }

  ghost predicate AllQuote(text: string, spans: seq<Span>) {
    forall i :: 0 <= i < |spans| ==> Quotes(text, spans[i])
  }

  // Non-empty spans, in order, none overlapping the next.
  ghost predicate InOrder(spans: seq<Span>) {
    && (forall i :: 0 <= i < |spans| ==> spans[i].start < spans[i].end)
    && (forall i, j :: 0 <= i < j < |spans| ==> spans[i].end <= spans[j].start)
  }

  predicate SpansTrimmed(spans: seq<Span>) {
    forall i :: 0 <= i < |spans| ==> Trimmed(spans[i].text)
  }

  // A page whose spans quote it, in order.
  ghost predicate Quoted(p: Page) {
    AllQuote(p.text, p.spans) && InOrder(p.spans)
  }

  ghost predicate PiecesVisible(ws: seq<Piece>) {
    forall i :: 0 <= i < |ws| ==> ws[i].token.text != ""
  }

  ghost predicate PiecesNormalized(ws: seq<Piece>) {
    forall i :: 0 <= i < |ws| ==> Normalized(ws[i].token.text)
  }

  // Only the first word has no separator.
  ghost predicate Separated(ws: seq<Piece>) {
    forall i :: 0 <= i < |ws| ==>
      if i == 0 then ws[i].separator == "" else ws[i].separator == " " || ws[i].separator == "\n"
  }

  /******* Spans of the OCR page *******/

  lemma AddPieceQuoted(p: Page, w: Piece)
    requires Quoted(p) && w.token.text != ""
    ensures var q := AddPiece(p, w); Quoted(q) && |q.spans| == |p.spans| + 1
  {
    var q := AddPiece(p, w);
    var n := |p.spans|;
    assert p.text <= q.text;
    PrefixQuotes(p.text, q.text, p.spans);
    assert q.text[q.spans[n].start..] == w.token.text;
    forall i | 0 <= i < |q.spans| ensures Quotes(q.text, q.spans[i]) {
      if i < n { assert q.spans[i] == p.spans[i]; }
    }
    forall i, j | 0 <= i < j < |q.spans| ensures q.spans[i].end <= q.spans[j].start {
      assert q.spans[i] == p.spans[i] && Quotes(p.text, p.spans[i]);
      if j < n { assert q.spans[j] == p.spans[j]; }
    }
  }

  lemma {:induction false} PageQuoted(ws: seq<Piece>)
    requires PiecesVisible(ws)
    ensures Quoted(PageOf(ws)) && |PageOf(ws).spans| == |ws|
  {
    if ws != [] {
      var n := |ws| - 1;
      PageQuoted(ws[..n]);
      AddPieceQuoted(PageOf(ws[..n]), ws[n]);
    }
  }

  lemma {:induction false} PageSpanTexts(ws: seq<Piece>)
    ensures |PageOf(ws).spans| == |ws|
    ensures forall i :: 0 <= i < |ws| ==> PageOf(ws).spans[i].text == ws[i].token.text
  {
    if ws != [] { PageSpanTexts(ws[..|ws| - 1]); }
  }

  lemma {:induction false} PageNormalized(ws: seq<Piece>)
    requires PiecesVisible(ws) && PiecesNormalized(ws) && Separated(ws)
    ensures Normalized(PageOf(ws).text)
    ensures ws != [] ==> PageOf(ws).text != ""
  {
    if ws != [] {
      var n := |ws| - 1;
      PageNormalized(ws[..n]);
      var p := PageOf(ws[..n]);
      if n == 0 {
        assert PageOf(ws).text == ws[0].token.text;
      } else {
        Normalizer.JoinNormalized(p.text, ws[n].separator, ws[n].token.text);
      }
    }
  }

  lemma {:induction false} TokensVisible(ocr: seq<Signal>)
    ensures forall t :: t in Tokens(ocr) ==> t.text != "" && Trimmed(t.text)
  {
    if ocr != [] {
      var n := |ocr| - 1;
      TokensVisible(ocr[..n]);
      var s := FirstText(ocr[n].rawData.text, ocr[n].rawData.value);
      var lo, hi := Normalizer.StripIsSlice(s);
    }
  }

  lemma {:induction false} LinePiecesSeparated(line: seq<Token>, lead: string)
    ensures var ws := LinePieces(line, lead);
            |ws| == |line| && forall i :: 0 <= i < |ws| ==> ws[i].separator == if i == 0 then lead else " "
  {
    if line != [] { LinePiecesSeparated(line[..|line| - 1], lead); }
  }

  lemma {:induction false} PiecesSeparated(lines: seq<seq<Token>>)
    requires NoEmptyLine(lines)
    ensures Separated(Pieces(lines)) && (lines != [] ==> Pieces(lines) != [])
  {
    if lines != [] {
      var n := |lines| - 1;
      PiecesSeparated(lines[..n]);
      LinePiecesSeparated(lines[n], if n == 0 then "" else "\n");
    }
  }

  lemma PieceTokensMembers(ws: seq<Piece>)
    ensures forall w :: w in ws ==> w.token in ReadingOrder.PieceTokens(ws)
    ensures forall t :: t in ReadingOrder.PieceTokens(ws) ==> exists w :: w in ws && w.token == t
  {
    var ps := ReadingOrder.PieceTokens(ws);
    forall w | w in ws ensures w.token in ps {
      var i :| 0 <= i < |ws| && ws[i] == w;
      assert ps[i] == w.token;
    }
    forall t | t in ps ensures exists w :: w in ws && w.token == t {
      var i :| 0 <= i < |ps| && ps[i] == t;
      assert ws[i] in ws && ws[i].token == t;
    }
  }

  lemma OcrPiecesAreTokens(ocr: seq<Signal>)
    ensures forall w :: w in OcrPieces(ocr) ==> w.token in Tokens(ocr)
    ensures forall t :: t in Tokens(ocr) ==> exists w :: w in OcrPieces(ocr) && w.token == t
  {
    ReadingOrder.ReadingOrderExact(ocr);
    SameElements(ReadingOrder.PieceTokens(OcrPieces(ocr)), Tokens(ocr));
    PieceTokensMembers(OcrPieces(ocr));
  }

  lemma OcrPiecesSeparated(ocr: seq<Signal>)
    ensures Separated(OcrPieces(ocr))
  {
    var grouped := GroupLines(Sort(Tokens(ocr), ByTopLeft));
    forall i | 0 <= i < |grouped| ensures SortLines(grouped)[i] != [] {
      SortPermutes(grouped[i], ByLeft);
    }
    PiecesSeparated(SortLines(grouped));
  }

  // The words of the OCR page are the visible tokens.
  lemma OcrPiecesFacts(ocr: seq<Signal>)
    ensures PiecesVisible(OcrPieces(ocr)) && Separated(OcrPieces(ocr))
    ensures forall i :: 0 <= i < |OcrPieces(ocr)| ==> Trimmed(OcrPieces(ocr)[i].token.text)
    ensures PiecesNormalized(OcrPieces(ocr)) <==> TokensNormalized(ocr)
  {
    var ws := OcrPieces(ocr);
    OcrPiecesAreTokens(ocr);
    OcrPiecesSeparated(ocr);
    TokensVisible(ocr);
    assert forall i :: 0 <= i < |ws| ==> ws[i] in ws;
  }

  // What a caller can check beforehand: the visible OCR tokens are already normalised.
  ghost predicate TokensNormalized(ocr: seq<Signal>) {
    forall t :: t in Tokens(ocr) ==> Normalized(t.text)
  }

  /******* Sections *******/

  lemma AddSectionQuoted(body: Page, section: Page)
    requires Quoted(body) && Quoted(section)
    requires section.text == "" ==> section.spans == []
    ensures Quoted(AddSection(body, section))
    ensures body.text != "" || section.text != "" ==> AddSection(body, section).text != ""
  {
    if section.text != "" {
      var r := AddSection(body, section);
      var d := |r.text| - |section.text|;
      assert r.text[..|body.text|] == body.text;
      assert r.text[d..] == section.text;
      forall i | 0 <= i < |r.spans| ensures Quotes(r.text, r.spans[i]) {
        if i < |body.spans| {
          assert Quotes(body.text, body.spans[i]);
        } else {
          var sp := section.spans[i - |body.spans|];
          assert Quotes(section.text, sp);
          assert r.text[d + sp.start..d + sp.end] == section.text[sp.start..sp.end];
        }
      }
      assert forall i :: 0 <= i < |body.spans| ==> body.spans[i].end <= |body.text|;
    }
  }

  lemma AddSectionNormalized(body: Page, section: Page)
    requires Normalized(body.text) && Normalized(section.text)
    ensures Normalized(AddSection(body, section).text)
  {
    if section.text != "" && body.text != "" {
      Normalizer.JoinNormalized(body.text, "\n\n", section.text);
    } else {
      assert "" + "" + section.text == section.text;
    }
  }

  ghost predicate GoodSection(p: Page) {
    Quoted(p) && Normalized(p.text) && SpansTrimmed(p.spans) && (p.text == "" ==> p.spans == [])
  }

  lemma WholeSectionGood(raw: string, sid: string, source: SourceType)
    ensures GoodSection(WholeSection(Normalize(raw), sid, source))
  {
    Normalizer.NormalizeIsNormalized(raw);
  }

  lemma SectionsGood(a: Asset, d: Buckets)
    ensures GoodSection(TextSection(a, d.ids)) && GoodSection(AsrSection(d.asr))
    ensures GoodSection(TimelineSection(Sort(TimelineEntries(d.timeline), ByTime)))
  {
    WholeSectionGood(a.content.GetOr(""), if d.ids != [] then d.ids[0] else "", FromText);
    var s := Sort(d.asr, LongestFirst);
    if s != [] { WholeSectionGood(s[0].text, s[0].signalId, FromAsr); }
    TimelineSectionGood(Sort(TimelineEntries(d.timeline), ByTime));
  }

  lemma TimelineSectionGood(entries: seq<TimelineEntry>)
    ensures GoodSection(TimelineSection(entries))
  {
    var lines := seq(|entries|, i requires 0 <= i < |entries| => TimelineLine(entries[i]));
    Normalizer.NormalizeIsNormalized(JoinWith(lines, "\n"));
  }

  // Before the final normalisation every span quotes the joined body.
  lemma BodyQuoted(a: Asset, d: Buckets)
    ensures Quoted(Body(a, d))
    ensures TokensNormalized(d.ocr) ==> Normalized(Body(a, d).text)
  {
    SectionsGood(a, d);
    OcrPiecesFacts(d.ocr);
    PageQuoted(OcrPieces(d.ocr));
    var b0 := Page("", []);
    var b1 := AddSection(b0, TextSection(a, d.ids));
    var b2 := AddSection(b1, OcrPage(d.ocr));
    var b3 := AddSection(b2, AsrSection(d.asr));
    AddSectionQuoted(b0, TextSection(a, d.ids));
    assert OcrPage(d.ocr).text == "" ==> OcrPage(d.ocr).spans == [] by { NoTextNoSpans(OcrPage(d.ocr)); }
    AddSectionQuoted(b1, OcrPage(d.ocr));
    AddSectionQuoted(b2, AsrSection(d.asr));
    var tl := TimelineSection(Sort(TimelineEntries(d.timeline), ByTime));
    AddSectionQuoted(b3, tl);
    if TokensNormalized(d.ocr) {
      PageNormalized(OcrPieces(d.ocr));
      AddSectionNormalized(b0, TextSection(a, d.ids));
      AddSectionNormalized(b1, OcrPage(d.ocr));
      AddSectionNormalized(b2, AsrSection(d.asr));
      AddSectionNormalized(b3, tl);
    }
  }

  lemma NoTextNoSpans(p: Page)
    requires Quoted(p)
    ensures p.text == "" ==> p.spans == []
  {
    if p.spans != [] { assert Quotes(p.text, p.spans[0]); }
  }

  /******* The final text *******/

  lemma {:induction false} JoinWithFirst(parts: seq<string>, separator: string)
    requires parts != []
    ensures parts[0] <= JoinWith(parts, separator)
  {
    if |parts| > 1 { JoinWithFirst(parts[..|parts| - 1], separator); }
  }

  // The final text keeps a non-empty normalised body as a prefix and is itself normalised.
  lemma FinalTextKeepsBody(body: string, vision: seq<Signal>)
    ensures var r := FinalText(body, SceneDescriptions(vision));
            Normalize(body) != "" ==> Normalized(r) && Normalize(body) <= r
  {
    var b, scenes := Normalize(body), SceneDescriptions(vision);
    Normalizer.NormalizeIsNormalized(body);
    if b != "" && scenes != [] {
      JoinWithFirst(scenes, "\n\n");
      var block := JoinWith(scenes, "\n\n");
      assert block[0] == scenes[0][0] == 'I';
      Normalizer.NormalizeAfterBreak(b, block);
      Normalizer.NormalizeIsNormalized(b + "\n\n" + block);
    }
  }

  lemma PrefixQuotes(text: string, longer: string, spans: seq<Span>)
    requires AllQuote(text, spans) && text <= longer
    ensures AllQuote(longer, spans)
  {
    forall i | 0 <= i < |spans| ensures Quotes(longer, spans[i]) {
      assert Quotes(text, spans[i]);
    }
  }

  // Whatever a normalised text quotes is itself tidy.
  lemma QuotedTokensNormalized(text: string, t: string, sp: Span)
    requires Normalized(text) && Quotes(text, sp) && sp.text == t && Trimmed(t)
    ensures Normalized(t)
  {
    Normalizer.TidySlice(text, sp.start, sp.end);
  }

  // The words ws are, in order, the texts of the spans from k on.
  ghost predicate RunAt(spans: seq<Span>, k: nat, ws: seq<Piece>) {
    k + |ws| <= |spans| && forall i :: 0 <= i < |ws| ==> spans[k + i].text == ws[i].token.text
  }

  lemma AddSectionKeepsRun(body: Page, section: Page, k: nat, ws: seq<Piece>)
    requires RunAt(body.spans, k, ws)
    ensures RunAt(AddSection(body, section).spans, k, ws)
  {
  }

  lemma OcrPageRun(ocr: seq<Signal>)
    ensures RunAt(OcrPage(ocr).spans, 0, OcrPieces(ocr))
    ensures OcrPage(ocr).text == "" ==> OcrPage(ocr).spans == []
  {
    OcrPiecesFacts(ocr);
    PageQuoted(OcrPieces(ocr));
    PageSpanTexts(OcrPieces(ocr));
    NoTextNoSpans(OcrPage(ocr));
  }

  lemma AddSectionRun(body: Page, section: Page, ws: seq<Piece>)
    requires RunAt(section.spans, 0, ws) && (section.text == "" ==> section.spans == [])
    ensures RunAt(AddSection(body, section).spans, |body.spans|, ws)
  {
    if section.text != "" {
      var r := AddSection(body, section).spans;
      assert forall i :: 0 <= i < |section.spans| ==> r[|body.spans| + i].text == section.spans[i].text;
    }
  }

  // The OCR words are, in order, a run of the document's spans.
  lemma BodyKeepsOcrSpans(a: Asset, d: Buckets) returns (k: nat)
    ensures RunAt(Body(a, d).spans, k, OcrPieces(d.ocr))
  {
    var b1 := AddSection(Page("", []), TextSection(a, d.ids));
    var b2 := AddSection(b1, OcrPage(d.ocr));
    var b3 := AddSection(b2, AsrSection(d.asr));
    k := |b1.spans|;
    OcrPageRun(d.ocr);
    AddSectionRun(b1, OcrPage(d.ocr), OcrPieces(d.ocr));
    AddSectionKeepsRun(b2, AsrSection(d.asr), k, OcrPieces(d.ocr));
    AddSectionKeepsRun(b3, TimelineSection(Sort(TimelineEntries(d.timeline), ByTime)), k, OcrPieces(d.ocr));
  }

  // A body that normalises to nothing carries no spans.
  lemma BlankBodyNoSpans(body: Page)
    requires Quoted(body) && SpansTrimmed(body.spans)
    ensures Normalize(body.text) == "" ==> body.spans == []
  {
    if body.spans != [] {
      var sp := body.spans[0];
      assert Quotes(body.text, sp);
      assert sp.text[0] == body.text[sp.start];
      Normalizer.EmptyOnlyFromSpaces(body.text);
    }
  }

  lemma AddSectionTrimmed(body: Page, section: Page)
    requires SpansTrimmed(body.spans) && SpansTrimmed(section.spans)
    ensures SpansTrimmed(AddSection(body, section).spans)
  {
  }

  lemma BodySpansTrimmed(a: Asset, d: Buckets)
    ensures SpansTrimmed(Body(a, d).spans)
  {
    SectionsGood(a, d);
    OcrPiecesFacts(d.ocr);
    PageSpanTexts(OcrPieces(d.ocr));
    var b1 := AddSection(Page("", []), TextSection(a, d.ids));
    var b2 := AddSection(b1, OcrPage(d.ocr));
    var b3 := AddSection(b2, AsrSection(d.asr));
    AddSectionTrimmed(Page("", []), TextSection(a, d.ids));
    AddSectionTrimmed(b1, OcrPage(d.ocr));
    AddSectionTrimmed(b2, AsrSection(d.asr));
    AddSectionTrimmed(b3, TimelineSection(Sort(TimelineEntries(d.timeline), ByTime)));
  }

  // Spans are in order and never overlap, for any asset and any signals.
  lemma SpansInOrder(a: Asset, signals: seq<Signal>)
    ensures InOrder(BuiltDocument(a, signals).spans)
  {
    BodyQuoted(a, SortOut(signals));
  }

  // Quoting in a normalised text shows every OCR word to be normalised.
  lemma QuotedOcrNormalized(text: string, spans: seq<Span>, k: nat, ocr: seq<Signal>)
    requires Normalized(text) && AllQuote(text, spans) && RunAt(spans, k, OcrPieces(ocr))
    ensures TokensNormalized(ocr)
  {
    OcrPiecesFacts(ocr);
    var ws := OcrPieces(ocr);
    forall i | 0 <= i < |ws| ensures Normalized(ws[i].token.text) {
      assert Quotes(text, spans[k + i]);
      QuotedTokensNormalized(text, ws[i].token.text, spans[k + i]);
    }
  }

  lemma NoWordsNormalized(ocr: seq<Signal>)
    requires OcrPieces(ocr) == []
    ensures TokensNormalized(ocr)
  {
    OcrPiecesFacts(ocr);
  }

  // Main theorem: the offsets quote the final text iff every OCR token is normalised.
  lemma SpansQuoteIffTokensNormalized(a: Asset, signals: seq<Signal>)
    ensures var doc := BuiltDocument(a, signals);
            AllQuote(doc.text, doc.spans) <==> TokensNormalized(SortOut(signals).ocr)
  {
    var d := SortOut(signals);
    var text, body := BuiltDocument(a, signals).text, Body(a, d);
    BodyQuoted(a, d);
    BodySpansTrimmed(a, d);
    BlankBodyNoSpans(body);
    FinalTextKeepsBody(body.text, d.vision);
    if TokensNormalized(d.ocr) {
      Normalizer.FixedIffNormalized(body.text);
      if body.text != "" { PrefixQuotes(body.text, text, body.spans); }
    }
    if AllQuote(text, body.spans) {
      var k := BodyKeepsOcrSpans(a, d);
      if Normalize(body.text) == "" {
        NoWordsNormalized(d.ocr);
      } else {
        QuotedOcrNormalized(text, body.spans, k, d.ocr);
      }
    }
  }

  // The token `a  b`, or any other with two blanks in a row, is misquoted.
  lemma DoubleBlankIsMisquoted(a: Asset, s: Signal, i: nat)
    requires s.rawData.kind == "ocr_text"
    requires i + 1 < |TokenText(s)| && TokenText(s)[i] == TokenText(s)[i + 1] == ' '
    ensures !AllQuote(BuiltDocument(a, [s]).text, BuiltDocument(a, [s]).spans)
  {
    assert [s][..0] == [];
    assert SortOut([s]) == AddSignal(SortOut([]), s);
    assert SortOut([s]).ocr == [s];
    assert Tokens([s]) == [ToToken(s)];
    assert ToToken(s) in Tokens([s]);
    SpansQuoteIffTokensNormalized(a, [s]);
  }
}
