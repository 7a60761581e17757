/**
  What a document is made of, read off its asset and signals
  (src/zataone/document/builder.py, lines 46-68, 147-192 and 200-323): which signals go
  into which part, what each part says, and how the parts are put together.
 */
module DocumentContent {
  import opened Options
  import opened Text
  import opened Sequences
  import opened StableSort
  import opened Signals
  import opened DocumentBuilder
  import opened RunParts
  import ReadingOrder

  /******* Which signals go where *******/

  // Words of an image: named as such, or text of one of four types, in any case, that comes
  // from an image or has a box.
  ghost predicate SpeaksOfImage(s: Signal) {
    || s.rawData.kind == "ocr_text"
    || (&& s.signalType.Some?
        && Lower(s.signalType.value.value) in {"text", "ocr_keyword", "ocr_percentage_claim", "ocr_time_claim"}
        && (s.rawData.text.GetOr("") != "" || s.rawData.value.GetOr("") != "")
        && (s.rawData.source == "image" || s.rawData.bbox.Some?))
  }

  lemma OcrIff(s: Signal)
    ensures IsOcr(s) <==> SpeaksOfImage(s)
  {
  }

  // A signal goes into the first part that it fits: words, speech, objects, timeline.
  lemma OneSignal(s: Signal)
    ensures var p, text := PartsOf([s]), Strip(s.rawData.text.GetOr(""));
            if SpeaksOfImage(s) then p == Parts([s], [], [], [])
            else if s.rawData.kind == "asr_text" then
              p == Parts([], if text == "" then [] else [Transcript(text, s.id.GetOr(""))], [], [])
            else if s.rawData.kind == "vision_object" then p == Parts([], [], [s], [])
            else if s.rawData.kind in {"timeline_text", "video_timeline"} then p == Parts([], [], [], [s])
            else p == Parts([], [], [], [])
  {
    SortOutSnoc([], s);
    assert [] + [s] == [s];
    OcrIff(s);
  }

  /******* Sections *******/

  // Two sections with an empty line between them, where there are two.
  function Under(a: string, b: string): string {
    if a == "" then b else if b == "" then a else a + "\n\n" + b
  }

  // The written content of a text asset.
  function Content(a: Asset): string {
    if a.kind == Some("text") then Normalize(a.content.GetOr("")) else ""
  }

  // The transcript that is used: the longest, and of equally long ones the first.
  ghost predicate Chosen(asr: seq<Transcript>, k: int) {
    && 0 <= k < |asr|
    && (forall j :: 0 <= j < k ==> |asr[j].text| < |asr[k].text|)
    && (forall j :: k < j < |asr| ==> |asr[j].text| <= |asr[k].text|)
  }

  lemma {:induction false} LongestIsFirst(asr: seq<Transcript>) returns (k: int)
    requires asr != []
    ensures Chosen(asr, k) && Sort(asr, LongestFirst)[0] == asr[k]
  {
    if |asr| == 1 {
      assert asr[1..] == [] && Sort(asr[1..], LongestFirst) == [];
      k := 0;
    } else {
      var rest := asr[1..];
      var j := LongestIsFirst(rest);
      k := if |asr[0].text| >= |rest[j].text| then 0 else j + 1;
      assert forall i :: 0 < i < |asr| ==> asr[i] == rest[i - 1];
    }
  }

  lemma SpeechIs(asr: seq<Transcript>, k: int)
    requires Chosen(asr, k)
    ensures AsrSection(asr).text == Normalize(asr[k].text)
    ensures var text := Normalize(asr[k].text);
            AsrSection(asr).spans == if text == "" then [] else [Span(0, |text|, text, asr[k].signalId, FromAsr, None)]
  {
    var j := LongestIsFirst(asr);
    assert j == k;
  }

  lemma AddReads(b: Page, section: Page)
    ensures AddSection(b, section).text == Under(b.text, section.text)
  {
  }

  lemma ContentIs(a: Asset, ids: seq<string>)
    ensures TextSection(a, ids).text == Content(a)
  {
    assert AssetModality(a) == TextModality <==> a.kind == Some("text");
  }

  lemma FourUnder(c: Page, o: Page, s: Page, t: Page)
    ensures AddSection(AddSection(AddSection(AddSection(Page("", []), c), o), s), t).text
         == Under(Under(Under(c.text, o.text), s.text), t.text)
  {
    var none := Page("", []);
    var first := AddSection(none, c);
    var second := AddSection(first, o);
    var third := AddSection(second, s);
    AddReads(none, c);
    AddReads(first, o);
    AddReads(second, s);
    AddReads(third, t);
  }

  // The body: content, words, speech and timeline, in this order.
  lemma BodyIs(a: Asset, d: Buckets)
    ensures Body(a, d).text
         == Under(Under(Under(Content(a), OcrPage(d.ocr).text), AsrSection(d.asr).text),
                  TimelineSection(Sort(TimelineEntries(d.timeline), ByTime)).text)
  {
    FourUnder(TextSection(a, d.ids), OcrPage(d.ocr), AsrSection(d.asr),
              TimelineSection(Sort(TimelineEntries(d.timeline), ByTime)));
    ContentIs(a, d.ids);
  }

  // The content of a text asset is laid to the first signal that has an id.
  lemma ContentSpan(a: Asset, d: Buckets)
    requires Content(a) != ""
    ensures Body(a, d).spans != []
    ensures Body(a, d).spans[0]
         == Span(0, |Content(a)|, Content(a), if d.ids == [] then "" else d.ids[0], FromText, None)
  {
    var c := AddSection(Page("", []), TextSection(a, d.ids));
    assert c.spans == [Span(0, |Content(a)|, Content(a), if d.ids == [] then "" else d.ids[0], FromText, None)];
  }

  /******* The timeline *******/

  // A signal of the timeline that says something, with its time and its id.
  function EntryOf(s: Signal): seq<TimelineEntry> {
    var text := Strip(s.rawData.text.GetOr(""));
    if text == "" then []
    else [TimelineEntry(s.rawData.timestamp, text, if s.id.GetOr("") == "" then [] else [s.id.value])]
  }

  lemma {:induction false} EntriesAre(timeline: seq<Signal>)
    ensures TimelineEntries(timeline) == FlatMap(timeline, EntryOf)
  {
    if timeline != [] { EntriesAre(timeline[..|timeline| - 1]); }
  }

  // The entries of the document, in order of time.
  lemma TimelineInOrder(a: Asset, signals: seq<Signal>)
    ensures var entries, all := BuiltDocument(a, signals).timeline, FlatMap(PartsOf(signals).timeline, EntryOf);
            && multiset(entries) == multiset(all)
            && forall i, j :: 0 <= i < j < |entries| ==> entries[i].timestamp <= entries[j].timestamp
  {
    var all := TimelineEntries(SortOut(signals).timeline);
    EntriesAre(SortOut(signals).timeline);
    ReadingOrder.OrdersArePreorders();
    SortSorted(all, ByTime);
    SortPermutes(all, ByTime);
    var entries := Sort(all, ByTime);
    forall i, j | 0 <= i < j < |entries| ensures entries[i].timestamp <= entries[j].timestamp {
      assert ByTime(entries[i], entries[j]);
    }
  }

  function Digit(n: int): char
    requires 0 <= n < 10
  {
    "0123456789"[n]
  }

  lemma TwoDigits(n: int)
    requires 0 <= n < 100
    ensures Pad2(n) == [Digit(n / 10), Digit(n % 10)]
  {
    assert '0' as int == 48;
    OneDigit(n / 10);
    OneDigit(n % 10);
    if n >= 10 {
      assert Digits(n) == Digits(n / 10) + [(n % 10) as char + '0'];
    }
  }

  lemma OneDigit(n: int)
    requires 0 <= n < 10
    ensures n as char + '0' == Digit(n) && Digits(n) == [Digit(n)]
  {
    if n == 0 {} else if n == 1 {} else if n == 2 {} else if n == 3 {} else if n == 4 {} else if n == 5 {}
    else if n == 6 {} else if n == 7 {} else if n == 8 {} else {}
  }

  lemma Floors(t: real, minutes: int, seconds: int)
    requires 0 <= seconds < 60
    requires (60 * minutes + seconds) as real <= t < (60 * minutes + seconds + 1) as real
    ensures (t / 60.0).Floor == minutes && (t - 60.0 * minutes as real).Floor == seconds
  {
    assert minutes as real <= t / 60.0 < (minutes + 1) as real;
  }

  lemma LineInPads(e: TimelineEntry, minutes: int, seconds: int)
    requires 0 <= seconds < 60
    requires (60 * minutes + seconds) as real <= e.timestamp < (60 * minutes + seconds + 1) as real
    ensures TimelineLine(e) == "[" + Pad2(minutes) + ":" + Pad2(seconds) + "] " + e.text
  {
    Floors(e.timestamp, minutes, seconds);
  }

  // An entry within the first 100 minutes is shown with two digits of minutes and of seconds.
  lemma LineShows(e: TimelineEntry, minutes: int, seconds: int)
    requires 0 <= minutes < 100 && 0 <= seconds < 60
    requires (60 * minutes + seconds) as real <= e.timestamp < (60 * minutes + seconds + 1) as real
    ensures exists m, s :: TimelineLine(e) == "[" + m + ":" + s + "] " + e.text
                           && m == [Digit(minutes / 10), Digit(minutes % 10)]
                           && s == [Digit(seconds / 10), Digit(seconds % 10)]
  {
    LineInPads(e, minutes, seconds);
    TwoDigits(minutes);
    TwoDigits(seconds);
  }

  // The section is the entries' lines, one below the other, normalised.
  lemma TimelineReads(entries: seq<TimelineEntry>)
    ensures TimelineSection(entries).text
         == if entries == [] then ""
            else Normalize(JoinWith(seq(|entries|, i requires 0 <= i < |entries| => TimelineLine(entries[i])), "\n"))
  {
  }

  /******* The scene *******/

  // A detected object as the scene block shows it.
  function LabelOf(s: Signal): seq<string> {
    var l := Strip(s.rawData.objectLabel);
    if l == "" then []
    else if s.rawData.shownConfidence.Some? then [l + " (" + s.rawData.shownConfidence.value + ")"]
    else [l]
  }

  lemma {:induction false} SceneIs(vision: seq<Signal>)
    ensures SceneParts(vision) == FlatMap(vision, LabelOf)
  {
    if vision != [] { SceneIs(vision[..|vision| - 1]); }
  }

  // One after another, with a comma and a blank between them.
  lemma Listed(parts: seq<string>, p: string)
    ensures JoinWith([], ", ") == "" && JoinWith([p], ", ") == p
    ensures parts != [] ==> JoinWith(parts + [p], ", ") == JoinWith(parts, ", ") + ", " + p
  {
    assert (parts + [p])[..|parts|] == parts;
  }

  // The text of the whole document: the normalised body, then the scene block.
  lemma TextIs(a: Asset, signals: seq<Signal>)
    ensures var labels := FlatMap(PartsOf(signals).vision, LabelOf);
            var body, block := Normalize(Body(a, SortOut(signals)).text),
                               "Image contains: " + JoinWith(labels, ", ") + ".";
            && BuiltDocument(a, signals).text
               == (if labels == [] then body else if body == "" then block else Normalize(body + "\n\n" + block))
            && BuiltDocument(a, signals).sceneDescriptions == (if labels == [] then [] else [block])
  {
    SceneIs(SortOut(signals).vision);
  }

  /******* The ids *******/

  function IdsOf(s: Signal): seq<string> {
    if s.id.GetOr("") == "" then [] else [s.id.value]
  }

  lemma {:induction false} IdsAre(signals: seq<Signal>)
    ensures SortOut(signals).ids == FlatMap(signals, IdsOf)
  {
    if signals != [] { IdsAre(signals[..|signals| - 1]); }
  }

  ghost predicate FirstAt(ids: seq<string>, id: string, k: int) {
    0 <= k < |ids| && ids[k] == id && forall j :: 0 <= j < k ==> ids[j] != id
  }

  // Each id once, in the order in which they first occur.
  ghost predicate OnceEach(r: seq<string>, ids: seq<string>) {
    && (forall id :: id in r <==> id in ids)
    && (forall i, j :: 0 <= i < j < |r| ==> r[i] != r[j])
    && (forall i, j, k, l :: 0 <= i < j < |r| && FirstAt(ids, r[i], k) && FirstAt(ids, r[j], l) ==> k < l)
  }

  lemma {:induction false} DistinctOnceEach(ids: seq<string>)
    ensures OnceEach(Distinct(ids), ids)
  {
    if ids != [] {
      var n := |ids| - 1;
      DistinctOnceEach(ids[..n]);
      OnceMore(Distinct(ids[..n]), ids);
    }
  }

  lemma OnceMore(r: seq<string>, ids: seq<string>)
    requires ids != [] && OnceEach(r, ids[..|ids| - 1])
    ensures OnceEach(if ids[|ids| - 1] in r then r else r + [ids[|ids| - 1]], ids)
  {
    var n := |ids| - 1;
    var before := ids[..n];
    var u := if ids[n] in r then r else r + [ids[n]];
    assert ids == before + [ids[n]];
    forall i, j, k, l | 0 <= i < j < |u| && FirstAt(ids, u[i], k) && FirstAt(ids, u[j], l) ensures k < l {
      assert u[i] in before by { assert u[i] == r[i] && r[i] in r; }
      var m :| 0 <= m < n && before[m] == u[i];
      assert ids[m] == u[i];
      if l < n {
        assert FirstAt(before, u[i], k) && before[l] == u[j];
        assert u[j] in r;
        assert FirstAt(before, u[j], l);
      }
    }
  }

  // The document lists the ids of its signals so.
  lemma IdsListed(a: Asset, signals: seq<Signal>)
    ensures OnceEach(BuiltDocument(a, signals).sourceSignalIds, FlatMap(signals, IdsOf))
  {
    IdsAre(signals);
    DistinctOnceEach(SortOut(signals).ids);
  }

  /******* The boxes of the words *******/

  lemma {:induction false} WordSpans(ws: seq<Piece>)
    ensures |PageOf(ws).spans| == |ws|
    ensures forall k :: 0 <= k < |ws| ==>
              var sp, s := PageOf(ws).spans[k], ws[k].token.signal;
              && sp.signalId == s.id.GetOr("") && sp.source == FromOcr && sp.text == ws[k].token.text
              && sp.bbox == (if s.rawData.bbox.Some? then s.rawData.bbox else s.boundingBox)
  {
    if ws != [] { WordSpans(ws[..|ws| - 1]); }
  }
}
