/**
  Where words come out, in terms of the boxes their own signals carry
  (src/zataone/document/builder.py, lines 69-144): by `y` (else `top`) into lines, by `x`
  (else `left`) within a line.
 */
module OcrLayout {
  import opened Options
  import opened Text
  import opened StableSort
  import opened Signals
  import opened DocumentBuilder
  import opened ReadingOrder
  import Normalizer

  /******* What a signal carries *******/

  // A dictionary gives y, or else top, and x, or else left; a list gives x first, then y.
  predicate Puts(b: Box, y: real, x: real) {
    match b
    case BoxDict(yy, top, xx, left) =>
      && (if yy.Some? then y == yy.value else if top.Some? then y == top.value else y == 0.0)
      && (if xx.Some? then x == xx.value else if left.Some? then x == left.value else x == 0.0)
    case BoxList(c) => if |c| >= 2 then c[0] == x && c[1] == y else x == 0.0 && y == 0.0
  }

  // The signal's own box counts, and the one in its data only when it has none or an empty one.
  predicate StandsAt(s: Signal, y: real, x: real) {
    if s.boundingBox.Some? && s.boundingBox != Some(BoxList([])) then Puts(s.boundingBox.value, y, x)
    else if s.rawData.bbox.Some? then Puts(s.rawData.bbox.value, y, x)
    else y == 0.0 && x == 0.0
  }

  // The word of a signal: its text, or its value when the text is missing or empty.
  predicate Says(s: Signal, word: string) {
    if s.rawData.text.Some? && s.rawData.text.value != "" then word == Strip(s.rawData.text.value)
    else if s.rawData.value.Some? then word == Strip(s.rawData.value.value)
    else word == ""
  }

  lemma TokenStands(s: Signal, y: real, x: real, word: string)
    requires StandsAt(s, y, x) && Says(s, word)
    ensures ToToken(s) == Token(s, word, y, x)
  {
    assert Strip("") == "";
  }

  lemma {:induction false} TokensMembers(ocr: seq<Signal>)
    ensures forall t :: t in Tokens(ocr) <==> t.signal in ocr && t == ToToken(t.signal) && TokenText(t.signal) != ""
  {
    if ocr != [] {
      var n := |ocr| - 1;
      TokensMembers(ocr[..n]);
      assert ocr == ocr[..n] + [ocr[n]];
    }
  }

  /******* Places in the lines *******/

  // The line and the place in it of the k-th word.
  function Where(lines: seq<seq<Token>>, k: nat): (p: (nat, nat))
    requires k < |Flatten(lines)|
    ensures p.0 < |lines| && p.1 < |lines[p.0]| && Flatten(lines)[k] == lines[p.0][p.1]
    ensures p.1 <= k
  {
    var n := |lines| - 1;
    var before := |Flatten(lines[..n])|;
    if k < before then Where(lines[..n], k) else (n, k - before)
  }

  lemma {:induction false} WhereOrdered(lines: seq<seq<Token>>, k: nat, l: nat)
    requires k < l < |Flatten(lines)|
    ensures var p, q := Where(lines, k), Where(lines, l); p.0 < q.0 || (p.0 == q.0 && p.1 < q.1)
  {
    var n := |lines| - 1;
    var before := |Flatten(lines[..n])|;
    if l < before { WhereOrdered(lines[..n], k, l); }
  }

  // The words of a line follow one another.
  lemma {:induction false} WhereBack(lines: seq<seq<Token>>, l: nat, d: nat)
    requires l < |Flatten(lines)| && d <= Where(lines, l).1
    ensures Where(lines, l - d) == (Where(lines, l).0, Where(lines, l).1 - d)
  {
    var n := |lines| - 1;
    var before := |Flatten(lines[..n])|;
    if l < before { WhereBack(lines[..n], l, d); }
  }

  lemma {:induction false} LinePieceAt(line: seq<Token>, lead: string, k: nat)
    requires k < |line|
    ensures |LinePieces(line, lead)| == |line|
    ensures LinePieces(line, lead)[k] == Piece(if k == 0 then lead else " ", line[k])
  {
    LinePiecesTokens(line, lead);
    var n := |line| - 1;
    if k < n { LinePieceAt(line[..n], lead, k); } else { LinePiecesTokens(line[..n], lead); }
  }

  // Each word with the separator in front of it.
  lemma {:induction false} PieceAt(lines: seq<seq<Token>>, k: nat)
    requires k < |Flatten(lines)|
    ensures |Pieces(lines)| == |Flatten(lines)|
    ensures var p := Where(lines, k);
            Pieces(lines)[k]
            == Piece(if p.1 > 0 then " " else if p.0 > 0 then "\n" else "", lines[p.0][p.1])
  {
    var n := |lines| - 1;
    PiecesTokens(lines);
    PiecesTokens(lines[..n]);
    var before := |Flatten(lines[..n])|;
    if k < before {
      PieceAt(lines[..n], k);
    } else {
      LinePieceAt(lines[n], if n == 0 then "" else "\n", k - before);
    }
  }

  // Between the k-th word and the l-th the page breaks the line.
  ghost predicate Breaks(ws: seq<Piece>, k: nat, l: nat)
    requires k < l < |ws|
  {
    exists m :: k < m <= l && ws[m].separator == "\n"
  }

  // The page breaks exactly between different lines, and has blanks within one.
  lemma BreaksIff(lines: seq<seq<Token>>, k: nat, l: nat)
    requires k < l < |Flatten(lines)|
    ensures |Pieces(lines)| == |Flatten(lines)|
    ensures Breaks(Pieces(lines), k, l) <==> Where(lines, k).0 < Where(lines, l).0
    ensures !Breaks(Pieces(lines), k, l) ==> forall m :: k < m <= l ==> Pieces(lines)[m].separator == " "
  {
    var ws, p, q := Pieces(lines), Where(lines, k), Where(lines, l);
    PiecesTokens(lines);
    WhereOrdered(lines, k, l);
    if p.0 < q.0 {
      var m := l - q.1;
      WhereBack(lines, l, q.1);
      PieceAt(lines, m);
      if m <= k { NotBefore(lines, m, k); }
      assert ws[m].separator == "\n";
    } else {
      forall m | k < m <= l ensures ws[m].separator == " " {
        PieceAt(lines, m);
        WhereOrdered(lines, k, m);
        if m < l { WhereOrdered(lines, m, l); }
      }
    }
  }

  lemma NotBefore(lines: seq<seq<Token>>, m: nat, k: nat)
    requires m <= k < |Flatten(lines)|
    ensures Where(lines, m).0 <= Where(lines, k).0
  {
    if m < k { WhereOrdered(lines, m, k); }
  }

  /******* Lines by y, words by x *******/

  // What ReadingOrderExact says of the lines of some tokens.
  ghost predicate GoodLines(lines: seq<seq<Token>>, grouped: seq<seq<Token>>) {
    && ExactLines(grouped) && |lines| == |grouped|
    && forall i :: 0 <= i < |lines| ==> Sorted(lines[i], ByLeft) && multiset(lines[i]) == multiset(grouped[i])
  }

  // A line's words are at most 12 pixels below its head, and the next head is further down.
  lemma LineOf(lines: seq<seq<Token>>, grouped: seq<seq<Token>>, a: nat, p: nat)
    requires GoodLines(lines, grouped) && a < |lines| && p < |lines[a]|
    ensures 0.0 <= lines[a][p].top - grouped[a][0].top <= 12.0
  {
    assert lines[a][p] in multiset(grouped[a]);
    var k :| 0 <= k < |grouped[a]| && grouped[a][k] == lines[a][p];
  }

  lemma FurtherDown(lines: seq<seq<Token>>, grouped: seq<seq<Token>>, a: nat, p: nat, b: nat, q: nat)
    requires GoodLines(lines, grouped)
    requires a < |lines| && p < |lines[a]| && b < |lines| && q < |lines[b]|
    ensures lines[a][p].top + 12.0 < lines[b][q].top ==> a < b
    ensures lines[a][p].top == lines[b][q].top ==> a == b
    ensures lines[a][p].top == lines[b][q].top && lines[a][p].left < lines[b][q].left ==> p < q
  {
    LineOf(lines, grouped, a, p);
    LineOf(lines, grouped, b, q);
    if a < b { assert grouped[b][0].top - grouped[a][0].top > 12.0; }
    if b < a { assert grouped[a][0].top - grouped[b][0].top > 12.0; }
    if a == b && q < p { assert ByLeft(lines[a][q], lines[a][p]); }
  }

  lemma WordsPlaced(lines: seq<seq<Token>>, grouped: seq<seq<Token>>, k: nat, l: nat)
    requires GoodLines(lines, grouped)
    requires k < |Flatten(lines)| && l < |Flatten(lines)|
    ensures |Pieces(lines)| == |Flatten(lines)|
    ensures var s, t, ws := Flatten(lines)[k], Flatten(lines)[l], Pieces(lines);
            && (s.top + 12.0 < t.top ==> k < l && Breaks(ws, k, l))
            && (s.top == t.top && s.left < t.left ==> k < l && !Breaks(ws, k, l))
  {
    var p, q := Where(lines, k), Where(lines, l);
    PiecesTokens(lines);
    FurtherDown(lines, grouped, p.0, p.1, q.0, q.1);
    if k < l { BreaksIff(lines, k, l); }
    if l < k { WhereOrdered(lines, l, k); }
  }

  // The signal of the k-th word on the page.
  predicate Emits(ocr: seq<Signal>, k: nat, s: Signal) {
    k < |OcrPieces(ocr)| && OcrPieces(ocr)[k].token.signal == s
  }

  lemma PiecesAreTokens(ocr: seq<Signal>, k: nat)
    requires k < |OcrPieces(ocr)|
    ensures var t := OcrPieces(ocr)[k].token;
            t.signal in ocr && t == ToToken(t.signal) && TokenText(t.signal) != ""
  {
    ReadingOrderExact(ocr);
    TokensMembers(ocr);
    SameElements(PieceTokens(OcrPieces(ocr)), Tokens(ocr));
    assert PieceTokens(OcrPieces(ocr))[k] in Tokens(ocr);
  }

  lemma TokenIsKept(ocr: seq<Signal>, s: Signal)
    requires s in ocr && TokenText(s) != ""
    ensures ToToken(s) in Tokens(ocr)
  {
    TokensMembers(ocr);
    assert ToToken(s).signal == s;
  }

  lemma TokenIsEmitted(ocr: seq<Signal>, s: Signal) returns (k: nat)
    requires s in ocr && TokenText(s) != ""
    ensures Emits(ocr, k, s)
  {
    var ts, emitted := Tokens(ocr), PieceTokens(OcrPieces(ocr));
    TokenIsKept(ocr, s);
    ReadingOrderExact(ocr);
    SameElements(emitted, ts);
    k := PlaceIn(emitted, ToToken(s));
  }

  lemma PlaceIn(ts: seq<Token>, t: Token) returns (k: nat)
    requires t in ts
    ensures k < |ts| && ts[k] == t
  {
    k :| 0 <= k < |ts| && ts[k] == t;
  }

  lemma WordOf(s: Signal, word: string)
    requires Says(s, word)
    ensures TokenText(s) == word
  {
    assert Strip("") == "";
  }

  // Every OCR signal that says something comes out, as the word that it says, and nothing
  // else does.
  lemma EachComesOut(ocr: seq<Signal>, s: Signal, word: string)
    requires Says(s, word)
    ensures (exists k: nat :: Emits(ocr, k, s)) <==> s in ocr && word != ""
    ensures forall k: nat :: Emits(ocr, k, s) ==> OcrPieces(ocr)[k].token.text == word
  {
    WordOf(s, word);
    forall k: nat | Emits(ocr, k, s)
      ensures OcrPieces(ocr)[k].token.text == word && s in ocr && word != ""
    {
      PiecesAreTokens(ocr, k);
    }
    if s in ocr && word != "" {
      var k := TokenIsEmitted(ocr, s);
      assert Emits(ocr, k, s);
    }
  }

  lemma EmittedToken(ocr: seq<Signal>, k: nat, s: Signal, y: real, x: real)
    requires Emits(ocr, k, s) && StandsAt(s, y, x)
    ensures OcrPieces(ocr)[k].token.top == y && OcrPieces(ocr)[k].token.left == x
  {
    PiecesAreTokens(ocr, k);
    var word :=
      if s.rawData.text.GetOr("") != "" then Strip(s.rawData.text.value) else Strip(s.rawData.value.GetOr(""));
    assert Strip("") == "";
    TokenStands(s, y, x, word);
  }

  // Main theorem: a word whose box is more than 12 pixels higher comes out in an earlier
  // line; of two words at one height the one further left comes out first, in the same line.
  lemma ReadByBoxes(ocr: seq<Signal>, k: nat, l: nat, s: Signal, t: Signal, y: real, x: real, y': real, x': real)
    requires Emits(ocr, k, s) && Emits(ocr, l, t) && StandsAt(s, y, x) && StandsAt(t, y', x')
    ensures y + 12.0 < y' ==> k < l && Breaks(OcrPieces(ocr), k, l)
    ensures y == y' && x < x' ==> k < l && !Breaks(OcrPieces(ocr), k, l)
  {
    var ts := Tokens(ocr);
    var grouped, lines := GroupLines(Sort(ts, ByTopLeft)), ReadingLines(ts);
    ReadingOrderExact(ocr);
    EmittedToken(ocr, k, s, y, x);
    EmittedToken(ocr, l, t, y', x');
    assert GoodLines(lines, grouped);
    PiecesTokens(lines);
    assert PieceTokens(OcrPieces(ocr))[k] == Flatten(lines)[k] && PieceTokens(OcrPieces(ocr))[l] == Flatten(lines)[l];
    WordsPlaced(lines, grouped, k, l);
  }

  /******* Two words *******/

  lemma TwoTokens(s: Signal, t: Signal, v: string, w: string)
    requires Says(s, v) && Says(t, w) && v != "" && w != ""
    ensures Tokens([s, t]) == [ToToken(s), ToToken(t)]
  {
    WordOf(s, v);
    WordOf(t, w);
    assert [s, t][..1] == [s] && [s][..0] == [];
    assert Tokens([s]) == [ToToken(s)];
  }

  lemma TwoSorted(a: Token, b: Token, le: (Token, Token) -> bool)
    requires le(a, b) && !le(b, a)
    ensures Sort([a, b], le) == [a, b] && Sort([b, a], le) == [a, b]
  {
    assert [a, b][1..] == [b] && [b, a][1..] == [a] && [a][1..] == [] && [b][1..] == [];
    assert Sort([a], le) == [a] && Sort([b], le) == [b];
  }

  // A token joins a line whose head is near, and opens the next one below a head that is not.
  lemma GroupTwo(a: Token, b: Token)
    requires a.top == b.top || b.top - a.top > 12.0
    ensures GroupLines([a, b]) == if a.top == b.top then [[a, b]] else [[a], [b]]
  {
    assert [a, b][..1] == [a] && [a][..0] == [];
    assert GroupLines([a]) == [[a]];
    var lines: seq<seq<Token>> := [[a]];
    assert NearHead(b, lines[0]) <==> a.top == b.top;
    var i := FirstNear(lines, b, 0);
    assert i == if a.top == b.top then 0 else 1;
    assert Place(lines, b) == if a.top == b.top then lines[0 := [a] + [b]] else lines + [[b]];
    assert [a] + [b] == [a, b] && lines[0 := [a, b]] == [[a, b]] && lines + [[b]] == [[a], [b]];
  }

  lemma TwoPieces(a: Token, b: Token)
    requires a.top <= b.top && (a.top == b.top ==> a.left < b.left)
    requires a.top == b.top || b.top - a.top > 12.0
    ensures Pieces(ReadingLines([a, b])) == [Piece("", a), Piece(if a.top == b.top then " " else "\n", b)]
    ensures Pieces(ReadingLines([b, a])) == Pieces(ReadingLines([a, b]))
  {
    TwoSorted(a, b, ByTopLeft);
    GroupTwo(a, b);
    if a.top == b.top {
      TwoSorted(a, b, ByLeft);
      OneLine([a, b]);
      LinePiecesOf(a, b);
    } else {
      TwoLines(a, b);
    }
  }

  lemma OneLine(line: seq<Token>)
    requires Sort(line, ByLeft) == line
    ensures SortLines([line]) == [line] && Pieces([line]) == LinePieces(line, "")
  {
    assert [line][..0] == [];
  }

  lemma LinePiecesOf(a: Token, b: Token)
    ensures LinePieces([a, b], "") == [Piece("", a), Piece(" ", b)]
  {
    assert [a, b][..1] == [a] && [a][..0] == [];
    assert LinePieces([a], "") == [Piece("", a)];
  }

  lemma PiecesSnocLine(lines: seq<seq<Token>>, line: seq<Token>)
    ensures Pieces(lines + [line]) == Pieces(lines) + LinePieces(line, if lines == [] then "" else "\n")
    ensures SortLines(lines + [line]) == SortLines(lines) + [Sort(line, ByLeft)]
  {
    var all := lines + [line];
    assert all[..|lines|] == lines && all[|lines|] == line;
  }

  lemma OneWordLine(a: Token, lead: string)
    ensures LinePieces([a], lead) == [Piece(lead, a)] && Sort([a], ByLeft) == [a]
  {
    assert [a][..0] == [] && [a][1..] == [];
  }

  lemma TwoLines(a: Token, b: Token)
    ensures Pieces(SortLines([[a], [b]])) == [Piece("", a), Piece("\n", b)]
  {
    var one: seq<seq<Token>> := [[a]];
    OneWordLine(a, "");
    OneWordLine(b, "\n");
    PiecesSnocLine([], [a]);
    PiecesSnocLine(one, [b]);
    assert [] + [[a]] == one && one + [[b]] == [[a], [b]];
  }

  lemma TwoPiecesText(a: Token, b: Token, separator: string)
    ensures PageOf([Piece("", a), Piece(separator, b)]).text == a.text + separator + b.text
  {
    var ws := [Piece("", a), Piece(separator, b)];
    assert ws[..1] == [Piece("", a)] && [Piece("", a)][..0] == [];
    assert PageOf([Piece("", a)]).text == a.text;
  }

  // Two words alone on a page: side by side a blank stands between them, above one another
  // a line break, whichever arrives first.
  lemma TwoWords(s: Signal, t: Signal, v: string, w: string, y: real, x: real, y': real, x': real)
    requires Says(s, v) && Says(t, w) && v != "" && w != ""
    requires StandsAt(s, y, x) && StandsAt(t, y', x')
    requires (y == y' && x < x') || y + 12.0 < y'
    ensures OcrPage([s, t]).text == OcrPage([t, s]).text == v + (if y == y' then " " else "\n") + w
  {
    TokenStands(s, y, x, v);
    TokenStands(t, y', x', w);
    TwoTokens(s, t, v, w);
    TwoTokens(t, s, w, v);
    TwoPieces(ToToken(s), ToToken(t));
    TwoPiecesText(ToToken(s), ToToken(t), if y == y' then " " else "\n");
  }

  lemma TwoOcrSignals(s: Signal, t: Signal)
    requires s.rawData.kind == "ocr_text" && t.rawData.kind == "ocr_text"
    ensures var d := SortOut([s, t]); d.ocr == [s, t] && d.asr == [] && d.vision == [] && d.timeline == []
  {
    assert [s, t][..1] == [s] && [s][..0] == [];
    assert SortOut([s]) == AddSignal(SortOut([]), s);
    assert SortOut([s, t]) == AddSignal(SortOut([s]), t);
  }

  // The same words as the document of an image: a term that spans them is found exactly
  // when they stand side by side.
  lemma TwoWordDocument(a: Asset, s: Signal, t: Signal, v: string, w: string, y: real, x: real, y': real, x': real)
    requires AssetModality(a) != TextModality
    requires s.rawData.kind == "ocr_text" && t.rawData.kind == "ocr_text"
    requires Says(s, v) && Says(t, w) && v != "" && w != "" && Normalized(v) && Normalized(w)
    requires StandsAt(s, y, x) && StandsAt(t, y', x')
    requires (y == y' && x < x') || y + 12.0 < y'
    ensures BuiltDocument(a, [s, t]).text == v + (if y == y' then " " else "\n") + w
    ensures BuiltDocument(a, [t, s]).text == BuiltDocument(a, [s, t]).text
  {
    var text := v + (if y == y' then " " else "\n") + w;
    TwoWords(s, t, v, w, y, x, y', x');
    TwoOcrSignals(s, t);
    TwoOcrSignals(t, s);
    Normalizer.JoinNormalized(v, if y == y' then " " else "\n", w);
    Normalizer.FixedIffNormalized(text);
    OnlyOcrText(a, SortOut([s, t]));
    OnlyOcrText(a, SortOut([t, s]));
  }

  lemma OnlyOcrText(a: Asset, d: Buckets)
    requires AssetModality(a) != TextModality && d.asr == [] && d.timeline == []
    ensures Body(a, d).text == OcrPage(d.ocr).text
  {
  }
}
