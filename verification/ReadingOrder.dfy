/**
  OCR line grouping is exact (src/zataone/document/builder.py, lines 78-142):
  only the last line can ever take the next token, lines are more than the
  tolerance apart, and every visible token comes out once, left to right.
 */
module ReadingOrder {
  import opened Signals
  import opened StableSort
  import opened DocumentBuilder

  // Grouping that looks at the last line only.
  function PlaceLast(lines: seq<seq<Token>>, t: Token): seq<seq<Token>>
    requires NoEmptyLine(lines)
  {
    var n := |lines| - 1;
    if n >= 0 && t.top - lines[n][0].top <= LINE_Y_TOLERANCE_PX
    then lines[n := lines[n] + [t]]
    else lines + [[t]]
  }

  function GroupByLast(ts: seq<Token>): (lines: seq<seq<Token>>)
    ensures NoEmptyLine(lines)
  {
    if ts == [] then [] else PlaceLast(GroupByLast(ts[..|ts| - 1]), ts[|ts| - 1])
  }

  function Flatten(lines: seq<seq<Token>>): seq<Token> {
    if lines == [] then [] else Flatten(lines[..|lines| - 1]) + lines[|lines| - 1]
  }

  ghost predicate LineHeadsApart(lines: seq<seq<Token>>)
    requires NoEmptyLine(lines)
  {
    forall i, j :: 0 <= i < j < |lines| ==> lines[j][0].top - lines[i][0].top > LINE_Y_TOLERANCE_PX
  }

  ghost predicate TokensNearHeads(lines: seq<seq<Token>>)
    requires NoEmptyLine(lines)
  {
    forall i, k :: 0 <= i < |lines| && 0 <= k < |lines[i]| ==>
      0.0 <= lines[i][k].top - lines[i][0].top <= LINE_Y_TOLERANCE_PX
  }

  lemma OrdersArePreorders()
    ensures TotalPreorder(ByTopLeft) && TotalPreorder(ByLeft)
    ensures TotalPreorder(ByTime) && TotalPreorder(LongestFirst)
  {
  }

  lemma {:induction false} HeadsAreTokens(lines: seq<seq<Token>>, i: nat)
    requires NoEmptyLine(lines) && i < |lines|
    ensures lines[i][0] in Flatten(lines)
  {
    var n := |lines| - 1;
    if i < n { HeadsAreTokens(lines[..n], i); }
  }

  lemma FlattenExtend(lines: seq<seq<Token>>, t: Token)
    requires lines != []
    ensures var n := |lines| - 1; Flatten(lines[n := lines[n] + [t]]) == Flatten(lines) + [t]
    ensures Flatten(lines + [[t]]) == Flatten(lines) + [t]
  {
    var n := |lines| - 1;
    var l := lines[n := lines[n] + [t]];
    assert l[..n] == lines[..n] && l[n] == lines[n] + [t];
    assert (lines + [[t]])[..|lines|] == lines;
  }

  ghost predicate ExactLines(lines: seq<seq<Token>>) {
    NoEmptyLine(lines) && LineHeadsApart(lines) && TokensNearHeads(lines)
  }

  lemma ExtendLast(lines: seq<seq<Token>>, t: Token)
    requires ExactLines(lines) && lines != []
    requires 0.0 <= t.top - lines[|lines| - 1][0].top <= LINE_Y_TOLERANCE_PX
    ensures var n := |lines| - 1; ExactLines(lines[n := lines[n] + [t]])
  {
    var n := |lines| - 1;
    var r: seq<seq<Token>> := lines[n := lines[n] + [t]];
    assert forall i :: 0 <= i < |r| ==> r[i] != [] && r[i][0] == lines[i][0];
    forall i, j | 0 <= i < j < |r| ensures r[j][0].top - r[i][0].top > LINE_Y_TOLERANCE_PX {
      assert lines[j][0].top - lines[i][0].top > LINE_Y_TOLERANCE_PX;
    }
    forall i, k | 0 <= i < |r| && 0 <= k < |r[i]|
      ensures 0.0 <= r[i][k].top - r[i][0].top <= LINE_Y_TOLERANCE_PX
    {
      if k < |lines[i]| { assert r[i][k] == lines[i][k]; }
    }
  }

  lemma NewLast(lines: seq<seq<Token>>, t: Token)
    requires ExactLines(lines)
    requires lines != [] ==> t.top - lines[|lines| - 1][0].top > LINE_Y_TOLERANCE_PX
    ensures ExactLines(lines + [[t]])
  {
    var n := |lines|;
    var r: seq<seq<Token>> := lines + [[t]];
    assert forall i :: 0 <= i < n ==> r[i] == lines[i];
    assert r[n] == [t];
    forall i, j | 0 <= i < j < |r| ensures r[j][0].top - r[i][0].top > LINE_Y_TOLERANCE_PX {
      if j < n {
        assert lines[j][0].top - lines[i][0].top > LINE_Y_TOLERANCE_PX;
      } else if i < n - 1 {
        assert lines[n - 1][0].top - lines[i][0].top > LINE_Y_TOLERANCE_PX;
      }
    }
  }

  // A token at or below every line head can only join the last line.
  lemma OnlyLastLine(lines: seq<seq<Token>>, t: Token)
    requires ExactLines(lines)
    requires lines != [] ==> lines[|lines| - 1][0].top <= t.top
    ensures Place(lines, t) == PlaceLast(lines, t)
  {
    var n := |lines| - 1;
    forall i | 0 <= i < n ensures !NearHead(t, lines[i]) {
      assert lines[n][0].top - lines[i][0].top > LINE_Y_TOLERANCE_PX;
    }
  }

  lemma PlaceLastExact(lines: seq<seq<Token>>, t: Token)
    requires ExactLines(lines)
    requires lines != [] ==> lines[|lines| - 1][0].top <= t.top
    ensures ExactLines(PlaceLast(lines, t))
    ensures Flatten(PlaceLast(lines, t)) == Flatten(lines) + [t]
  {
    if lines == [] {
      NewLast(lines, t);
      assert ([[t]])[..0] == [];
    } else {
      FlattenExtend(lines, t);
      if t.top - lines[|lines| - 1][0].top <= LINE_Y_TOLERANCE_PX {
        ExtendLast(lines, t);
      } else {
        NewLast(lines, t);
      }
    }
  }

  lemma LastHeadAbove(lines: seq<seq<Token>>, ts: seq<Token>)
    requires NoEmptyLine(lines) && lines != [] && ts != []
    requires Sorted(ts, ByTopLeft) && Flatten(lines) == ts[..|ts| - 1]
    ensures lines[|lines| - 1][0].top <= ts[|ts| - 1].top
  {
    var m := |ts| - 1;
    HeadsAreTokens(lines, |lines| - 1);
    var k :| 0 <= k < m && ts[..m][k] == lines[|lines| - 1][0];
    assert ByTopLeft(ts[k], ts[m]);
  }

  lemma GroupStep(lines: seq<seq<Token>>, ts: seq<Token>)
    requires ExactLines(lines) && ts != [] && Sorted(ts, ByTopLeft)
    requires Flatten(lines) == ts[..|ts| - 1]
    ensures Place(lines, ts[|ts| - 1]) == PlaceLast(lines, ts[|ts| - 1])
    ensures ExactLines(PlaceLast(lines, ts[|ts| - 1]))
    ensures Flatten(PlaceLast(lines, ts[|ts| - 1])) == ts
  {
    if lines != [] { LastHeadAbove(lines, ts); }
    OnlyLastLine(lines, ts[|ts| - 1]);
    PlaceLastExact(lines, ts[|ts| - 1]);
  }

  // On tokens sorted by (top, left), the search over all lines agrees with the
  // test of the last line, and the lines cut the sorted tokens into exact runs.
  lemma {:induction false} GroupingExact(ts: seq<Token>)
    requires Sorted(ts, ByTopLeft)
    ensures GroupLines(ts) == GroupByLast(ts)
    ensures Flatten(GroupLines(ts)) == ts
    ensures ExactLines(GroupLines(ts))
  {
    if ts != [] {
      GroupingExact(ts[..|ts| - 1]);
      GroupStep(GroupLines(ts[..|ts| - 1]), ts);
    }
  }

  lemma FlattenSnoc(lines: seq<seq<Token>>)
    requires lines != []
    ensures var n := |lines| - 1;
            multiset(Flatten(lines)) == multiset(Flatten(lines[..n])) + multiset(lines[n])
  {
  }

  lemma {:induction false} SortLinesPermutes(lines: seq<seq<Token>>)
    ensures multiset(Flatten(SortLines(lines))) == multiset(Flatten(lines))
  {
    if lines != [] {
      var n := |lines| - 1;
      SortLinesPermutes(lines[..n]);
      assert SortLines(lines)[..n] == SortLines(lines[..n]);
      SortPermutes(lines[n], ByLeft);
      FlattenSnoc(lines);
      FlattenSnoc(SortLines(lines));
    }
  }

  function PieceTokens(ws: seq<Piece>): seq<Token> {
    seq(|ws|, i requires 0 <= i < |ws| => ws[i].token)
  }

  lemma PieceTokensConcat(a: seq<Piece>, b: seq<Piece>)
    ensures PieceTokens(a + b) == PieceTokens(a) + PieceTokens(b)
  {
  }

  lemma {:induction false} LinePiecesTokens(line: seq<Token>, lead: string)
    ensures PieceTokens(LinePieces(line, lead)) == line
  {
    if line != [] { LinePiecesTokens(line[..|line| - 1], lead); }
  }

  lemma {:induction false} PiecesTokens(lines: seq<seq<Token>>)
    ensures PieceTokens(Pieces(lines)) == Flatten(lines)
  {
    if lines != [] {
      var n := |lines| - 1;
      PiecesTokens(lines[..n]);
      var lead := if n == 0 then "" else "\n";
      LinePiecesTokens(lines[n], lead);
      PieceTokensConcat(Pieces(lines[..n]), LinePieces(lines[n], lead));
    }
  }

  // The reading order of any OCR signals.
  lemma ReadingOrderExact(ocr: seq<Signal>)
    ensures var ts := Tokens(ocr);
            var grouped := GroupLines(Sort(ts, ByTopLeft));
            var lines := ReadingLines(ts);
            && grouped == GroupByLast(Sort(ts, ByTopLeft))
            && ExactLines(grouped)
            && |lines| == |grouped|
            && (forall i :: 0 <= i < |lines| ==>
                  Sorted(lines[i], ByLeft) && multiset(lines[i]) == multiset(grouped[i]))
            && PieceTokens(OcrPieces(ocr)) == Flatten(lines)
            && multiset(PieceTokens(OcrPieces(ocr))) == multiset(ts)
  {
    var ts := Tokens(ocr);
    OrdersArePreorders();
    SortSorted(ts, ByTopLeft);
    SortPermutes(ts, ByTopLeft);
    var grouped := GroupLines(Sort(ts, ByTopLeft));
    GroupingExact(Sort(ts, ByTopLeft));
    var lines := ReadingLines(ts);
    forall i | 0 <= i < |lines| ensures Sorted(lines[i], ByLeft) && multiset(lines[i]) == multiset(grouped[i]) {
      SortSorted(grouped[i], ByLeft);
      SortPermutes(grouped[i], ByLeft);
    }
    SortLinesPermutes(grouped);
    PiecesTokens(lines);
  }
}
