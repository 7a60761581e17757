/**
  src/zataone/document/builder.py: group OCR tokens into lines in reading order,
  join the sections, keep a character span for every token, normalise the whole.

  Each loop of the builder is a method proved equal to a function; the lemmas of
  ReadingOrder and DocumentSpans are about those functions.
 */
module DocumentBuilder {
  import opened Options
  import opened Text
  import opened Signals
  import opened StableSort

  const LINE_Y_TOLERANCE_PX := 12.0

  /******* OCR tokens *******/

  datatype Token = Token(signal: Signal, text: string, top: real, left: real)

  predicate Truthy(b: Option<Box>) {
    b.Some? && b.value != BoxList([])
  }

  // _bbox_top_left
  function TopLeft(s: Signal): (real, real) {
    var bb := if Truthy(s.boundingBox) then s.boundingBox else s.rawData.bbox;
    match bb
    case Some(BoxDict(y, top, x, left)) => (y.GetOr(top.GetOr(0.0)), x.GetOr(left.GetOr(0.0)))
    case Some(BoxList(xs)) => if |xs| >= 2 then (xs[1], xs[0]) else (0.0, 0.0)
    case None => (0.0, 0.0)
  }

  function TokenText(s: Signal): string {
    Strip(FirstText(s.rawData.text, s.rawData.value))
  }

  function ToToken(s: Signal): Token {
    var (top, left) := TopLeft(s);
    Token(s, TokenText(s), top, left)
  }

  // The tokens with visible text, in arrival order.
  function Tokens(ocr: seq<Signal>): seq<Token> {
    if ocr == [] then []
    else
      var n := |ocr| - 1;
      Tokens(ocr[..n]) + if TokenText(ocr[n]) == "" then [] else [ToToken(ocr[n])]
  }

  predicate ByTopLeft(a: Token, b: Token) {
    a.top < b.top || (a.top == b.top && a.left <= b.left)
  }

  predicate ByLeft(a: Token, b: Token) {
    a.left <= b.left
  }

  /******* Lines *******/

  predicate NoEmptyLine(lines: seq<seq<Token>>) {
    forall i :: 0 <= i < |lines| ==> lines[i] != []
  }

  predicate NearHead(t: Token, line: seq<Token>) {
    line != [] && -LINE_Y_TOLERANCE_PX <= t.top - line[0].top <= LINE_Y_TOLERANCE_PX
  }

  // The first line, from k on, whose head is near enough; |lines| when there is none.
  function FirstNear(lines: seq<seq<Token>>, t: Token, k: nat): (i: nat)
    requires k <= |lines|
    ensures k <= i <= |lines|
    ensures i < |lines| ==> NearHead(t, lines[i])
    ensures forall j :: k <= j < i ==> !NearHead(t, lines[j])
    decreases |lines| - k
  {
    if k == |lines| || NearHead(t, lines[k]) then k else FirstNear(lines, t, k + 1)
  }

  function Place(lines: seq<seq<Token>>, t: Token): seq<seq<Token>> {
    var i := FirstNear(lines, t, 0);
    if i < |lines| then lines[i := lines[i] + [t]] else lines + [[t]]
  }

  function GroupLines(ts: seq<Token>): (lines: seq<seq<Token>>)
    ensures NoEmptyLine(lines)
  {
    if ts == [] then [] else Place(GroupLines(ts[..|ts| - 1]), ts[|ts| - 1])
  }

  function SortLines(lines: seq<seq<Token>>): (r: seq<seq<Token>>)
    ensures |r| == |lines|
    ensures forall i :: 0 <= i < |lines| ==> r[i] == Sort(lines[i], ByLeft)
  {
    if lines == [] then []
    else SortLines(lines[..|lines| - 1]) + [Sort(lines[|lines| - 1], ByLeft)]
  }

  function ReadingLines(ts: seq<Token>): seq<seq<Token>> {
    SortLines(GroupLines(Sort(ts, ByTopLeft)))
  }

  method GroupIntoLines(ts: seq<Token>) returns (lines: seq<seq<Token>>)
    ensures lines == GroupLines(ts)
  {
    lines := [];
    for n := 0 to |ts|
      invariant lines == GroupLines(ts[..n])
    {
      var i := 0;
      while i < |lines| && !NearHead(ts[n], lines[i])
        invariant 0 <= i <= |lines|
        invariant FirstNear(lines, ts[n], 0) == FirstNear(lines, ts[n], i)
      {
        i := i + 1;
      }
      assert ts[..n + 1][..n] == ts[..n];
      if i < |lines| {
        lines := lines[i := lines[i] + [ts[n]]];
      } else {
        lines := lines + [[ts[n]]];
      }
    }
    assert ts[..|ts|] == ts;
  }

  /******* Words and their spans *******/

  // Text with the spans quoting it.
  datatype Page = Page(text: string, spans: seq<Span>)

  // One word as it is emitted: the separator in front of it, then its text.
  datatype Piece = Piece(separator: string, token: Token)

  function SpanBox(s: Signal): Option<Box> {
    if s.rawData.bbox.Some? then s.rawData.bbox else s.boundingBox
  }

  function AddPiece(p: Page, w: Piece): Page {
    var start := |p.text| + |w.separator|;
    var t := w.token;
    Page(p.text + w.separator + t.text,
         p.spans + [Span(start, start + |t.text|, t.text, SignalId(t.signal), FromOcr, SpanBox(t.signal))])
  }

  function PageOf(ws: seq<Piece>): Page {
    if ws == [] then Page("", []) else AddPiece(PageOf(ws[..|ws| - 1]), ws[|ws| - 1])
  }

  // A line's words: the first one after `lead`, the others after a space.
  function LinePieces(line: seq<Token>, lead: string): seq<Piece> {
    if line == [] then []
    else
      var n := |line| - 1;
      LinePieces(line[..n], lead) + [Piece(if n == 0 then lead else " ", line[n])]
  }

  function Pieces(lines: seq<seq<Token>>): seq<Piece> {
    if lines == [] then []
    else
      var n := |lines| - 1;
      Pieces(lines[..n]) + LinePieces(lines[n], if n == 0 then "" else "\n")
  }

  function OcrPieces(ocr: seq<Signal>): seq<Piece> {
    Pieces(ReadingLines(Tokens(ocr)))
  }

  function OcrPage(ocr: seq<Signal>): Page {
    PageOf(OcrPieces(ocr))
  }

  // "".join(parts)
  function Join(parts: seq<string>): string {
    if parts == [] then "" else Join(parts[..|parts| - 1]) + parts[|parts| - 1]
  }

  lemma JoinSnoc(parts: seq<string>, p: string)
    ensures Join(parts + [p]) == Join(parts) + p
  {
    assert (parts + [p])[..|parts|] == parts;
  }

  lemma PageOfSnoc(ws: seq<Piece>, w: Piece)
    ensures PageOf(ws + [w]) == AddPiece(PageOf(ws), w)
  {
    assert (ws + [w])[..|ws|] == ws;
  }

  method CollectTokens(ocr: seq<Signal>) returns (entries: seq<Token>)
    ensures entries == Tokens(ocr)
  {
    entries := [];
    for n := 0 to |ocr|
      invariant entries == Tokens(ocr[..n])
    {
      assert ocr[..n + 1][..n] == ocr[..n];
      if TokenText(ocr[n]) != "" {
        entries := entries + [ToToken(ocr[n])];
      }
    }
    assert ocr[..|ocr|] == ocr;
  }

  method OrderWithinLines(grouped: seq<seq<Token>>) returns (lines: seq<seq<Token>>)
    ensures lines == SortLines(grouped)
  {
    lines := grouped;
    for n := 0 to |grouped|
      invariant |lines| == |grouped|
      invariant forall i :: 0 <= i < n ==> lines[i] == Sort(grouped[i], ByLeft)
      invariant forall i :: n <= i < |grouped| ==> lines[i] == grouped[i]
    {
      lines := lines[n := Sort(lines[n], ByLeft)];
    }
  }

  method EmitWord(t: Token, separator: string, parts: seq<string>, spans: seq<Span>,
                  offset: nat, ghost before: seq<Piece>)
    returns (parts': seq<string>, spans': seq<Span>, offset': nat)
    requires Page(Join(parts), spans) == PageOf(before) && offset == |Join(parts)|
    ensures Page(Join(parts'), spans') == PageOf(before + [Piece(separator, t)])
    ensures offset' == |Join(parts')|
  {
    parts', offset' := parts, offset;
    if separator != "" {
      JoinSnoc(parts', separator);
      parts' := parts' + [separator];
      offset' := offset' + |separator|;
    }
    var start := offset';
    JoinSnoc(parts', t.text);
    parts' := parts' + [t.text];
    offset' := offset' + |t.text|;
    spans' := spans + [Span(start, offset', t.text, SignalId(t.signal), FromOcr, SpanBox(t.signal))];
    PageOfSnoc(before, Piece(separator, t));
  }

  lemma LinePiecesSnoc(before: seq<Piece>, line: seq<Token>, n: nat, lead: string)
    requires n < |line|
    ensures before + LinePieces(line[..n + 1], lead)
         == before + LinePieces(line[..n], lead) + [Piece(if n == 0 then lead else " ", line[n])]
  {
    assert line[..n + 1][..n] == line[..n];
  }

  method EmitLine(line: seq<Token>, lead: string, parts: seq<string>, spans: seq<Span>,
                  offset: nat, ghost before: seq<Piece>)
    returns (parts': seq<string>, spans': seq<Span>, offset': nat)
    requires Page(Join(parts), spans) == PageOf(before) && offset == |Join(parts)|
    ensures Page(Join(parts'), spans') == PageOf(before + LinePieces(line, lead))
    ensures offset' == |Join(parts')|
  {
    parts', spans', offset' := parts, spans, offset;
    ghost var done := before;
    for n := 0 to |line|
      invariant done == before + LinePieces(line[..n], lead)
      invariant Page(Join(parts'), spans') == PageOf(done)
      invariant offset' == |Join(parts')|
    {
      var separator := if n > 0 then " " else lead;
      parts', spans', offset' := EmitWord(line[n], separator, parts', spans', offset', done);
      LinePiecesSnoc(before, line, n, lead);
      done := done + [Piece(separator, line[n])];
    }
    assert line[..|line|] == line;
  }

  lemma PiecesSnoc(lines: seq<seq<Token>>, k: nat)
    requires k < |lines|
    ensures Pieces(lines[..k + 1]) == Pieces(lines[..k]) + LinePieces(lines[k], if k == 0 then "" else "\n")
  {
    assert lines[..k + 1][..k] == lines[..k];
  }

  method EmitLines(lines: seq<seq<Token>>) returns (text: string, spans: seq<Span>)
    ensures Page(text, spans) == PageOf(Pieces(lines))
  {
    var parts: seq<string>, offset := [], 0;
    spans := [];
    ghost var done: seq<Piece> := [];
    for k := 0 to |lines|
      invariant done == Pieces(lines[..k])
      invariant Page(Join(parts), spans) == PageOf(done)
      invariant offset == |Join(parts)|
    {
      var lead := if k > 0 then "\n" else "";
      PiecesSnoc(lines, k);
      parts, spans, offset := EmitLine(lines[k], lead, parts, spans, offset, done);
      done := done + LinePieces(lines[k], lead);
    }
    assert lines[..|lines|] == lines;
    text := Join(parts);
  }

  // _aggregate_ocr_signals
  method AggregateOcr(ocr: seq<Signal>) returns (text: string, spans: seq<Span>)
    ensures Page(text, spans) == OcrPage(ocr)
  {
    var entries := CollectTokens(ocr);
    var grouped := GroupIntoLines(Sort(entries, ByTopLeft));
    var lines := OrderWithinLines(grouped);
    text, spans := EmitLines(lines);
  }

  /******* The other sections *******/

  datatype Asset = Asset(kind: Option<string>, hasImageData: bool, hasAudioData: bool, content: Option<string>)

  datatype Modality = TextModality | ImageModality | AudioModality | VideoModality | UnknownModality

  // DocumentBuilder._asset_modality
  function AssetModality(a: Asset): Modality {
    match a.kind
    case Some("text") => TextModality
    case Some("image") => ImageModality
    case Some("audio") => AudioModality
    case Some("video") => VideoModality
    case _ => if a.hasImageData then ImageModality else if a.hasAudioData then AudioModality else UnknownModality
  }

  datatype Transcript = Transcript(text: string, signalId: string)

  predicate LongestFirst(a: Transcript, b: Transcript) {
    |a.text| >= |b.text|
  }

  predicate ByTime(a: TimelineEntry, b: TimelineEntry) {
    a.timestamp <= b.timestamp
  }

  // Everything the builder's first loop sorts the signals into.
  datatype Buckets = Buckets(
    ids: seq<string>, ocr: seq<Signal>, asr: seq<Transcript>, vision: seq<Signal>, timeline: seq<Signal>)

  function AddSignal(d: Buckets, s: Signal): Buckets {
    var sid := SignalId(s);
    var d := if sid != "" then d.(ids := d.ids + [sid]) else d;
    if IsOcr(s) then d.(ocr := d.ocr + [s])
    else if IsAsr(s) then
      var text := Strip(s.rawData.text.GetOr(""));
      if text != "" then d.(asr := d.asr + [Transcript(text, sid)]) else d
    else if IsVisionObject(s) then d.(vision := d.vision + [s])
    else if IsTimeline(s) then d.(timeline := d.timeline + [s])
    else d
  }

  function SortOut(signals: seq<Signal>): Buckets {
    if signals == [] then Buckets([], [], [], [], [])
    else AddSignal(SortOut(signals[..|signals| - 1]), signals[|signals| - 1])
  }

  // One span over a whole section.
  function WholeSection(text: string, sid: string, source: SourceType): Page {
    if text == "" then Page("", []) else Page(text, [Span(0, |text|, text, sid, source, None)])
  }

  function TextSection(a: Asset, ids: seq<string>): Page {
    if AssetModality(a) == TextModality
    then WholeSection(Normalize(a.content.GetOr("")), if ids != [] then ids[0] else "", FromText)
    else Page("", [])
  }

  function AsrSection(asr: seq<Transcript>): Page {
    var s := Sort(asr, LongestFirst);
    if s == [] then Page("", []) else WholeSection(Normalize(s[0].text), s[0].signalId, FromAsr)
  }

  function TimelineEntries(timeline: seq<Signal>): seq<TimelineEntry> {
    if timeline == [] then []
    else
      var n := |timeline| - 1;
      var text := Strip(timeline[n].rawData.text.GetOr(""));
      var sid := SignalId(timeline[n]);
      TimelineEntries(timeline[..n])
      + if text == "" then []
        else [TimelineEntry(timeline[n].rawData.timestamp, text, if sid != "" then [sid] else [])]
  }

  function Digits(n: nat): string {
    if n < 10 then [n as char + '0'] else Digits(n / 10) + [(n % 10) as char + '0']
  }

  // f"{n:02d}"
  function Pad2(n: int): string {
    if n < 0 then "-" + Digits(-n) else if n < 10 then "0" + Digits(n) else Digits(n)
  }

  function TimelineLine(e: TimelineEntry): string {
    var minutes := (e.timestamp / 60.0).Floor;
    var seconds := (e.timestamp - 60.0 * minutes as real).Floor;
    "[" + Pad2(minutes) + ":" + Pad2(seconds) + "] " + e.text
  }

  function JoinWith(parts: seq<string>, separator: string): string {
    if parts == [] then ""
    else if |parts| == 1 then parts[0]
    else JoinWith(parts[..|parts| - 1], separator) + separator + parts[|parts| - 1]
  }

  function TimelineSection(entries: seq<TimelineEntry>): Page {
    var lines := seq(|entries|, i requires 0 <= i < |entries| => TimelineLine(entries[i]));
    Page(if entries == [] then "" else Normalize(JoinWith(lines, "\n")), [])
  }

  function SceneParts(vision: seq<Signal>): seq<string> {
    if vision == [] then []
    else
      var n := |vision| - 1;
      var l := Strip(vision[n].rawData.objectLabel);
      SceneParts(vision[..n])
      + if l == "" then []
        else match vision[n].rawData.shownConfidence
             case Some(c) => [l + " (" + c + ")"]
             case None => [l]
  }

  // _build_scene_descriptions
  function SceneDescriptions(vision: seq<Signal>): seq<string> {
    var parts := SceneParts(vision);
    if parts == [] then [] else ["Image contains: " + JoinWith(parts, ", ") + "."]
  }

  /******* The whole document *******/

  function Shift(spans: seq<Span>, d: nat): (r: seq<Span>)
    ensures |r| == |spans|
  {
    seq(|spans|, i requires 0 <= i < |spans| =>
      spans[i].(start := d + spans[i].start, end := d + spans[i].end))
  }

  // _append_section
  function AddSection(body: Page, section: Page): Page {
    if section.text == "" then body
    else
      var separator := if body.text == "" then "" else "\n\n";
      Page(body.text + separator + section.text,
           body.spans + Shift(section.spans, |body.text| + |separator|))
  }

  function Body(a: Asset, d: Buckets): Page {
    AddSection(AddSection(AddSection(AddSection(
      Page("", []), TextSection(a, d.ids)), OcrPage(d.ocr)), AsrSection(d.asr)),
      TimelineSection(Sort(TimelineEntries(d.timeline), ByTime)))
  }

  // The text shown to the policy engine: the normalised body, then the scene block.
  function FinalText(body: string, scenes: seq<string>): string {
    var b := Normalize(body);
    if scenes == [] then b
    else
      var block := JoinWith(scenes, "\n\n");
      if b != "" then Normalize(b + "\n\n" + block) else block
  }

  // list(dict.fromkeys(ids))
  function Distinct(ids: seq<string>): seq<string> {
    if ids == [] then []
    else
      var n := |ids| - 1;
      var r := Distinct(ids[..n]);
      if ids[n] in r then r else r + [ids[n]]
  }

  function BuiltDocument(a: Asset, signals: seq<Signal>): Document {
    var d := SortOut(signals);
    var body := Body(a, d);
    var scenes := SceneDescriptions(d.vision);
    Document(FinalText(body.text, scenes), Distinct(d.ids), body.spans, scenes,
             Sort(TimelineEntries(d.timeline), ByTime))
  }

  method BuildTimeline(timeline: seq<Signal>) returns (entries: seq<TimelineEntry>)
    ensures entries == Sort(TimelineEntries(timeline), ByTime)
  {
    entries := [];
    for n := 0 to |timeline|
      invariant entries == TimelineEntries(timeline[..n])
    {
      assert timeline[..n + 1][..n] == timeline[..n];
      var text := Strip(timeline[n].rawData.text.GetOr(""));
      if text != "" {
        var sid := SignalId(timeline[n]);
        entries := entries + [TimelineEntry(timeline[n].rawData.timestamp, text, if sid != "" then [sid] else [])];
      }
    }
    assert timeline[..|timeline|] == timeline;
    entries := Sort(entries, ByTime);
  }

  method AppendSection(parts: seq<string>, spans: seq<Span>, offset: nat, section: Page)
    returns (parts': seq<string>, spans': seq<Span>, offset': nat)
    requires offset == |Join(parts)|
    requires parts != [] ==> Join(parts) != ""
    ensures Page(Join(parts'), spans') == AddSection(Page(Join(parts), spans), section)
    ensures offset' == |Join(parts')|
    ensures parts' != [] ==> Join(parts') != ""
  {
    parts', spans', offset' := parts, spans, offset;
    if section.text == "" {
      return;
    }
    if parts' != [] {
      JoinSnoc(parts', "\n\n");
      parts' := parts' + ["\n\n"];
      offset' := offset' + 2;
    }
    JoinSnoc(parts', section.text);
    parts' := parts' + [section.text];
    for i := 0 to |section.spans|
      invariant spans' == spans + Shift(section.spans, offset')[..i]
    {
      var sp := section.spans[i];
      spans' := spans' + [sp.(start := offset' + sp.start, end := offset' + sp.end)];
    }
    offset' := offset' + |section.text|;
  }

  // DocumentBuilder.build
  method Build(a: Asset, signals: seq<Signal>) returns (doc: Document)
    ensures doc == BuiltDocument(a, signals)
  {
    var d := Buckets([], [], [], [], []);
    for n := 0 to |signals|
      invariant d == SortOut(signals[..n])
    {
      assert signals[..n + 1][..n] == signals[..n];
      d := AddSignal(d, signals[n]);
    }
    assert signals[..|signals|] == signals;

    var parts: seq<string>, spans: seq<Span>, offset: nat := [], [], 0;
    parts, spans, offset := AppendSection(parts, spans, offset, TextSection(a, d.ids));
    var ocrText, ocrSpans := AggregateOcr(d.ocr);
    parts, spans, offset := AppendSection(parts, spans, offset, Page(ocrText, ocrSpans));
    parts, spans, offset := AppendSection(parts, spans, offset, AsrSection(d.asr));
    var scenes := SceneDescriptions(d.vision);
    var timeline := BuildTimeline(d.timeline);
    parts, spans, offset := AppendSection(parts, spans, offset, TimelineSection(timeline));

    doc := Document(FinalText(Join(parts), scenes), Distinct(d.ids), spans, scenes, timeline);
  }
}
