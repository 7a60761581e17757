/**
  What BM25 scores mean, in laws about the scores themselves
  (src/zataone/policy_engine/retrieval/bm25.py, lines 10-58): tokens, the score of one
  term in closed form, rarer and more frequent terms, shorter documents, and the ranking
  that follows.
 */
module Bm25Laws {
  import opened Text
  import opened StableSort
  import opened Bm25

  /******* Tokens *******/

  predicate LetterOrDigit(c: char) {
    'a' <= c <= 'z' || 'A' <= c <= 'Z' || '0' <= c <= '9'
  }

  lemma {:induction false} RunStops(a: string, c: char, b: string)
    requires !LetterOrDigit(c)
    ensures RunLength(a + [c] + b) == RunLength(a)
  {
    var s := a + [c] + b;
    if a == "" {
      assert s[0] == c;
    } else {
      assert s[0] == a[0] && s[1..] == a[1..] + [c] + b;
      RunStops(a[1..], c, b);
    }
  }

  // Any other character separates tokens.
  lemma {:induction false} TokensSplit(a: string, c: char, b: string)
    requires !LetterOrDigit(c)
    ensures Tokenize(a + [c] + b) == Tokenize(a) + Tokenize(b)
    decreases |a|
  {
    var s := a + [c] + b;
    if a == "" {
      assert s[0] == c && s[1..] == b;
    } else {
      RunStops(a, c, b);
      var n := if IsAlnum(a[0]) then RunLength(a) else 1;
      assert s[..n] == a[..n] && s[n..] == a[n..] + [c] + b;
      TokensSplit(a[n..], c, b);
    }
  }

  lemma {:induction false} WordRuns(w: string)
    requires forall i :: 0 <= i < |w| ==> LetterOrDigit(w[i])
    ensures RunLength(w) == |w|
  {
    if w != "" { WordRuns(w[1..]); }
  }

  // A run of letters and digits is one token, lower-cased.
  lemma WordIsToken(w: string)
    requires w != "" && forall i :: 0 <= i < |w| ==> LetterOrDigit(w[i])
    ensures Tokenize(w) == [Lower(w)] && Tokenize("") == []
  {
    WordRuns(w);
    assert w[..|w|] == w && w[|w|..] == "";
  }

  // The documents that have a term, by their places.
  function Having<Id>(term: string, docs: seq<Doc<Id>>): set<nat> {
    set k: nat | k < |docs| && term in Tokenize(docs[k].text)
  }

  lemma HavingSnoc<Id>(term: string, docs: seq<Doc<Id>>)
    requires docs != []
    ensures var n := |docs| - 1;
            Having(term, docs) == Having(term, docs[..n]) + if term in Tokenize(docs[n].text) then {n} else {}
  {
    var n := |docs| - 1;
    forall k: nat ensures k in Having(term, docs) <==>
      k in Having(term, docs[..n]) || (k == n && term in Tokenize(docs[n].text)) {
      if k < n { assert docs[..n][k] == docs[k]; }
    }
  }

  // A document frequency is their number.
  lemma {:induction false} DocFrequencyCounts<Id>(term: string, docs: seq<Doc<Id>>)
    ensures DocFrequency(term, docs) == |Having(term, docs)|
  {
    if docs == [] {
      assert Having(term, docs) == {};
    } else {
      var n := |docs| - 1;
      DocFrequencyCounts(term, docs[..n]);
      HavingSnoc(term, docs);
      assert n !in Having(term, docs[..n]);
    }
  }

  /******* The score of one term *******/

  function LengthSum<Id>(docs: seq<Doc<Id>>): nat {
    if docs == [] then 0 else |Tokenize(docs[0].text)| + LengthSum(docs[1..])
  }

  lemma {:induction false} LengthSumSnoc<Id>(docs: seq<Doc<Id>>, d: Doc<Id>)
    ensures LengthSum(docs + [d]) == LengthSum(docs) + |Tokenize(d.text)|
  {
    if docs == [] {
      assert docs + [d] == [d];
    } else {
      assert (docs + [d])[1..] == docs[1..] + [d];
      LengthSumSnoc(docs[1..], d);
    }
  }

  lemma {:induction false} LengthSumIsTotal<Id>(docs: seq<Doc<Id>>)
    ensures LengthSum(docs) == TotalLength(docs)
  {
    if docs != [] {
      var n := |docs| - 1;
      LengthSumIsTotal(docs[..n]);
      LengthSumSnoc(docs[..n], docs[n]);
      assert docs == docs[..n] + [docs[n]];
    }
  }

  // The average is never taken to be less than a thousand-millionth.
  predicate IsAverage<Id>(docs: seq<Doc<Id>>, a: real) {
    && docs != [] && a > 0.0
    && var m := LengthSum(docs) as real / |docs| as real;
       a == if m < 0.000000001 then 0.000000001 else m
  }

  // The query has one term, which occurs f > 0 times in the document of the given length.
  ghost predicate OneTerm<Id>(docs: seq<Doc<Id>>, k: nat, query: string, term: string, f: nat, length: nat) {
    && k < |docs| && Tokenize(query) == [term]
    && f == multiset(Tokenize(docs[k].text))[term] && f > 0
    && length == |Tokenize(docs[k].text)|
  }

  // The part of the denominator that does not depend on the term.
  function Norm(length: real, a: real): real
    requires a > 0.0
  {
    1.5 * (0.25 + 0.75 * length / a)
  }

  lemma NormPositive(length: real, a: real)
    requires length >= 0.0 && a > 0.0
    ensures Norm(length, a) >= 0.375
  {
    QuotientNonnegative(0.75 * length, a);
  }

  lemma NormRises(x: real, y: real, a: real)
    requires x < y && a > 0.0
    ensures Norm(x, a) < Norm(y, a)
  {
    QuotientLess(0.75 * x, 0.75 * y, a);
  }

  lemma QuotientLess(x: real, y: real, d: real)
    requires x < y && d > 0.0
    ensures x / d < y / d
  {
    QuotientPositive(y - x, d);
    assert y / d == x / d + (y - x) / d;
  }

  // How much of a term's weight its occurrences bring.
  function Share(f: real, norm: real): real
    requires f > 0.0 && norm > 0.0
  {
    f * 2.5 / (f + norm)
  }

  lemma ShareRises(f: real, g: real, norm: real)
    requires 0.0 < f < g && norm > 0.0
    ensures 0.0 < Share(f, norm) < Share(g, norm)
  {
    QuotientPositive(f * 2.5, f + norm);
    assert Share(f, norm) == 2.5 - 2.5 * (norm / (f + norm)) by { ShareOfRest(f, norm); }
    assert Share(g, norm) == 2.5 - 2.5 * (norm / (g + norm)) by { ShareOfRest(g, norm); }
    LargerDivisor(norm, f + norm, g + norm);
  }

  lemma ShareOfRest(f: real, norm: real)
    requires f > 0.0 && norm > 0.0
    ensures Share(f, norm) == 2.5 - 2.5 * (norm / (f + norm))
  {
    var d := f + norm;
    assert f / d + norm / d == 1.0 by { assert f / d + norm / d == (f + norm) / d; }
    assert f * 2.5 / d == 2.5 * (f / d);
  }

  lemma LargerDivisor(x: real, c: real, d: real)
    requires x > 0.0 && 0.0 < c < d
    ensures x / d < x / c
  {
    assert x / c == (x / d) * (d / c);
    QuotientPositive(x, d);
    QuotientLess(c, d, c);
    TimesMore(x / d, d / c);
  }

  lemma TimesMore(x: real, y: real)
    requires x > 0.0 && y > 1.0
    ensures x * y > x
  {
    ProductPositive(x, y - 1.0);
  }

  lemma ShareFalls(f: real, x: real, y: real)
    requires f > 0.0 && 0.0 < x < y
    ensures Share(f, y) < Share(f, x)
  {
    LargerDivisor(f * 2.5, f + x, f + y);
  }

  // The weight of a term that df of n documents have.
  function RarityWeight(log: Log, n: nat, df: nat): real {
    log(1.0 + (n as real - df as real + 0.5) / (df as real + 0.5))
  }

  lemma WeightPositive(log: Log, n: nat, df: nat)
    requires df <= n
    ensures RarityWeight(log, n, df) > 0.0
  {
    var x := (n as real - df as real + 0.5) / (df as real + 0.5);
    QuotientPositive(n as real - df as real + 0.5, df as real + 0.5);
    assert log(1.0) < log(1.0 + x);
  }

  lemma WeightFalls(log: Log, n: nat, d: nat, e: nat)
    requires d < e <= n
    ensures RarityWeight(log, n, e) < RarityWeight(log, n, d)
  {
    var x, y := n as real - d as real + 0.5, n as real - e as real + 0.5;
    QuotientLess(y, x, e as real + 0.5);
    LargerDivisor(x, d as real + 0.5, e as real + 0.5);
    QuotientPositive(y, e as real + 0.5);
    assert 0.0 < 1.0 + y / (e as real + 0.5) < 1.0 + x / (d as real + 0.5);
  }

  lemma OneTermScored<Id>(log: Log, docs: seq<Doc<Id>>, k: nat, query: string, term: string, f: nat, length: nat)
    requires OneTerm(docs, k, query, term, f, length)
    ensures DocFrequency(term, docs) > 0
    ensures Score(log, docs, query, docs[k].text)
         == TermScore(log, |docs|, DocFrequency(term, docs), f, length, AverageLength(docs))
  {
    DocFrequencyBounds(term, docs);
    assert term in multiset(Tokenize(docs[k].text));
    assert [term][..0] == [];
    assert ScoreOf(log, docs, docs[k].text, [term][..0]) == 0.0;
  }

  // What the published formula gives for one term: log(1 + (n - df + 0.5)/(df + 0.5)) times
  // 2.5 f / (f + 1.5 (0.25 + 0.75 length / average)).
  function Formula(log: Log, n: nat, df: nat, f: nat, length: nat, a: real): real
    requires f > 0 && a > 0.0
  {
    NormPositive(length as real, a);
    RarityWeight(log, n, df) * Share(f as real, Norm(length as real, a))
  }

  lemma TermInShares(log: Log, n: nat, df: nat, f: nat, length: nat, average: real, a: real)
    requires df > 0 && f > 0 && a == AtLeast(average, 0.000000001)
    ensures TermScore(log, n, df, f, length, average) == Formula(log, n, df, f, length, a)
  {
    NormPositive(length as real, a);
    var w, x, d := RarityWeight(log, n, df), f as real * 2.5, f as real + Norm(length as real, a);
    assert TermScore(log, n, df, f, length, average) == w * x / d;
    assert w * x / d == w * (x / d);
  }

  // Main theorem: the score of one term is what the formula gives.
  lemma OneTermScore<Id>(log: Log, docs: seq<Doc<Id>>, k: nat, query: string, term: string, f: nat, length: nat,
                         a: real)
    requires OneTerm(docs, k, query, term, f, length) && IsAverage(docs, a)
    ensures Score(log, docs, query, docs[k].text) == Formula(log, |docs|, |Having(term, docs)|, f, length, a)
  {
    LengthSumIsTotal(docs);
    DocFrequencyCounts(term, docs);
    OneTermScored(log, docs, k, query, term, f, length);
    TermInShares(log, |docs|, DocFrequency(term, docs), f, length, AverageLength(docs), a);
  }

  lemma HavingBounds<Id>(term: string, docs: seq<Doc<Id>>)
    ensures |Having(term, docs)| <= |docs|
  {
    DocFrequencyCounts(term, docs);
    DocFrequencyBounds(term, docs);
  }

  lemma AverageExists<Id>(docs: seq<Doc<Id>>) returns (a: real)
    requires docs != []
    ensures IsAverage(docs, a) && a > 0.0
  {
    var m := LengthSum(docs) as real / |docs| as real;
    a := if m < 0.000000001 then 0.000000001 else m;
  }

  lemma AverageOf<Id>(docs: seq<Doc<Id>>, length: nat, a: real)
    requires docs != [] && length >= 1 && length * |docs| == LengthSum(docs) && IsAverage(docs, a)
    ensures a == length as real
  {
    QuotientOf(LengthSum(docs), |docs|, length);
  }

  lemma QuotientOf(x: nat, n: nat, m: nat)
    requires n > 0 && m * n == x
    ensures x as real / n as real == m as real
  {
    assert x as real == m as real * n as real;
  }

  lemma FormulaAtAverage(log: Log, n: nat, df: nat, length: nat)
    requires length > 0
    ensures Formula(log, n, df, 1, length, length as real) == RarityWeight(log, n, df)
  {
    assert 0.75 * length as real / length as real == 0.75;
    assert Norm(length as real, length as real) == 1.5;
  }

  lemma SomeTokens<Id>(docs: seq<Doc<Id>>, k: nat, query: string, term: string, f: nat, length: nat)
    requires OneTerm(docs, k, query, term, f, length)
    ensures length >= 1
  {
    assert term in multiset(Tokenize(docs[k].text));
  }

  // In a document of average length a term that occurs once scores its weight.
  lemma AverageDocument<Id>(log: Log, docs: seq<Doc<Id>>, k: nat, query: string, term: string, length: nat)
    requires OneTerm(docs, k, query, term, 1, length) && length * |docs| == LengthSum(docs)
    ensures Score(log, docs, query, docs[k].text) == RarityWeight(log, |docs|, |Having(term, docs)|)
  {
    var a := AverageExists(docs);
    SomeTokens(docs, k, query, term, 1, length);
    AverageOf(docs, length, a);
    OneTermScore(log, docs, k, query, term, 1, length, a);
    FormulaAtAverage(log, |docs|, |Having(term, docs)|, length);
  }

  /******* Comparing scores *******/

  lemma TimesLess(x: real, y: real, z: real)
    requires x < y && z > 0.0
    ensures x * z < y * z && z * x < z * y
  {
    ProductPositive(y - x, z);
  }

  lemma RarerFormula(log: Log, n: nat, d: nat, e: nat, f: nat, length: nat, a: real)
    requires d < e <= n && f > 0 && a > 0.0
    ensures Formula(log, n, d, f, length, a) > Formula(log, n, e, f, length, a) > 0.0
  {
    NormPositive(length as real, a);
    var share := Share(f as real, Norm(length as real, a));
    QuotientPositive(f as real * 2.5, f as real + Norm(length as real, a));
    WeightFalls(log, n, d, e);
    WeightPositive(log, n, e);
    TimesLess(RarityWeight(log, n, e), RarityWeight(log, n, d), share);
    ProductPositive(RarityWeight(log, n, e), share);
  }

  lemma MoreOftenFormula(log: Log, n: nat, df: nat, f: nat, g: nat, length: nat, a: real)
    requires df <= n && 0 < g < f && a > 0.0
    ensures Formula(log, n, df, g, length, a) < Formula(log, n, df, f, length, a)
  {
    var norm := Norm(length as real, a);
    NormPositive(length as real, a);
    WeightPositive(log, n, df);
    ShareRises(g as real, f as real, norm);
    TimesLess(Share(g as real, norm), Share(f as real, norm), RarityWeight(log, n, df));
  }

  lemma ShorterFormula(log: Log, n: nat, df: nat, f: nat, short: nat, long: nat, a: real)
    requires df <= n && f > 0 && short < long && a > 0.0
    ensures Formula(log, n, df, f, long, a) < Formula(log, n, df, f, short, a)
  {
    var x, y := Norm(short as real, a), Norm(long as real, a);
    NormPositive(short as real, a);
    NormRises(short as real, long as real, a);
    WeightPositive(log, n, df);
    ShareFalls(f as real, x, y);
    TimesLess(Share(f as real, y), Share(f as real, x), RarityWeight(log, n, df));
  }

  // Of two terms equally frequent in documents of one length, the one in fewer documents
  // adds more.
  lemma RarerTermScoresMore<Id>(log: Log, docs: seq<Doc<Id>>, j: nat, k: nat, query: string, other: string,
                                s: string, t: string, f: nat, length: nat)
    requires OneTerm(docs, j, query, s, f, length) && OneTerm(docs, k, other, t, f, length)
    requires |Having(s, docs)| < |Having(t, docs)|
    ensures Score(log, docs, query, docs[j].text) > Score(log, docs, other, docs[k].text) > 0.0
  {
    var a := AverageExists(docs);
    HavingBounds(t, docs);
    OneTermScore(log, docs, j, query, s, f, length, a);
    OneTermScore(log, docs, k, other, t, f, length, a);
    RarerFormula(log, |docs|, |Having(s, docs)|, |Having(t, docs)|, f, length, a);
  }

  // Of two documents of one length, the one with more occurrences of the term scores more.
  lemma MoreOccurrencesScoreMore<Id>(log: Log, docs: seq<Doc<Id>>, j: nat, k: nat, query: string, t: string,
                                     f: nat, g: nat, length: nat)
    requires OneTerm(docs, j, query, t, f, length) && OneTerm(docs, k, query, t, g, length) && f > g
    ensures Score(log, docs, query, docs[j].text) > Score(log, docs, query, docs[k].text)
  {
    var a := AverageExists(docs);
    HavingBounds(t, docs);
    OneTermScore(log, docs, j, query, t, f, length, a);
    OneTermScore(log, docs, k, query, t, g, length, a);
    MoreOftenFormula(log, |docs|, |Having(t, docs)|, f, g, length, a);
  }

  // Of two documents with as many occurrences, the shorter one scores more.
  lemma ShorterScoresMore<Id>(log: Log, docs: seq<Doc<Id>>, j: nat, k: nat, query: string, t: string, f: nat,
                              short: nat, long: nat)
    requires OneTerm(docs, j, query, t, f, short) && OneTerm(docs, k, query, t, f, long) && short < long
    ensures Score(log, docs, query, docs[j].text) > Score(log, docs, query, docs[k].text)
  {
    var a := AverageExists(docs);
    HavingBounds(t, docs);
    OneTermScore(log, docs, j, query, t, f, short, a);
    OneTermScore(log, docs, k, query, t, f, long, a);
    ShorterFormula(log, |docs|, |Having(t, docs)|, f, short, long, a);
  }

  /******* Longer queries *******/

  lemma {:induction false} ScoreOfConcat<Id>(log: Log, docs: seq<Doc<Id>>, text: string, a: seq<string>, b: seq<string>)
    ensures ScoreOf(log, docs, text, a + b) == ScoreOf(log, docs, text, a) + ScoreOf(log, docs, text, b)
  {
    if b == [] {
      assert a + b == a;
    } else {
      var n, r := |b| - 1, a + b;
      assert r[..|r| - 1] == a + b[..n] && r[|r| - 1] == b[n];
      ScoreOfConcat(log, docs, text, a, b[..n]);
    }
  }

  // A query scores the sum of its parts.
  lemma QueryAdds<Id>(log: Log, docs: seq<Doc<Id>>, text: string, q: string, r: string)
    ensures Score(log, docs, q + " " + r, text) == Score(log, docs, q, text) + Score(log, docs, r, text)
  {
    TokensSplit(q, ' ', r);
    ScoreOfConcat(log, docs, text, Tokenize(q), Tokenize(r));
  }

  // Two words asked for, of which document k holds exactly the first, once.
  ghost predicate HoldsFirst<Id>(docs: seq<Doc<Id>>, k: nat, query: string, term: string, other: string, length: nat) {
    OneTerm(docs, k, query, term, 1, length) && other !in Tokenize(docs[k].text)
  }

  lemma OtherAddsNothing<Id>(log: Log, docs: seq<Doc<Id>>, k: nat, query: string, other: string, t: string)
    requires k < |docs| && Tokenize(other) == [t] && t !in Tokenize(docs[k].text)
    ensures Score(log, docs, query + " " + other, docs[k].text) == Score(log, docs, query, docs[k].text)
    ensures Score(log, docs, other + " " + query, docs[k].text) == Score(log, docs, query, docs[k].text)
  {
    QueryAdds(log, docs, docs[k].text, query, other);
    QueryAdds(log, docs, docs[k].text, other, query);
    ScoreZeroIffNothingShared(log, docs, other, k);
  }

  // Main theorem: of two documents of one length that each hold one of two words once, the
  // one with the rarer word ranks first, in whichever order the words are asked for.
  lemma RarerRanksFirst<Id(!new)>(log: Log, docs: seq<Doc<Id>>, j: nat, k: nat, q: string, r: string, s: string,
                                  t: string, length: nat, p: nat, m: nat)
    requires HoldsFirst(docs, j, q, s, t, length) && HoldsFirst(docs, k, r, t, s, length)
    requires |Having(s, docs)| < |Having(t, docs)| && DistinctDocs(docs)
    requires var all := Ranking(log, docs, q + " " + r);
             p < |all| && m < |all| && all[p].id == docs[j].id && all[m].id == docs[k].id
    ensures p < m
  {
    var query := q + " " + r;
    RarerTermScoresMore(log, docs, j, k, q, r, s, t, 1, length);
    OtherAddsNothing(log, docs, j, q, r, t);
    OtherAddsNothing(log, docs, k, r, q, s);
    RankedScore(log, docs, query, j, p);
    RankedScore(log, docs, query, k, m);
  }

  lemma RankingSorted<Id(!new)>(log: Log, docs: seq<Doc<Id>>, query: string)
    ensures Sorted(Ranking(log, docs, query), HighestFirst)
    ensures multiset(Ranking(log, docs, query)) == multiset(Scores(log, docs, docs, query))
  {
    var s := Scores(log, docs, docs, query);
    assert TotalPreorder<Scored<Id>>(HighestFirst);
    SortSorted(s, HighestFirst);
    SortPermutes(s, HighestFirst);
  }

  lemma ScoredAt<Id>(log: Log, docs: seq<Doc<Id>>, query: string, d: Scored<Id>, j: nat)
    requires d in Scores(log, docs, docs, query) && j < |docs| && DistinctDocs(docs) && d.id == docs[j].id
    ensures d.score == Score(log, docs, query, docs[j].text)
  {
    var s := Scores(log, docs, docs, query);
    var i :| 0 <= i < |s| && s[i] == d;
    assert docs[i].id == docs[j].id;
    assert i == j;
  }

  // A document is ranked at its own score.
  lemma RankedScore<Id(!new)>(log: Log, docs: seq<Doc<Id>>, query: string, j: nat, p: nat)
    requires j < |docs| && DistinctDocs(docs)
    requires p < |Ranking(log, docs, query)| && Ranking(log, docs, query)[p].id == docs[j].id
    ensures Sorted(Ranking(log, docs, query), HighestFirst)
    ensures Ranking(log, docs, query)[p].score == Score(log, docs, query, docs[j].text)
  {
    RankingSorted(log, docs, query);
    var d := Ranking(log, docs, query)[p];
    SameElements(Ranking(log, docs, query), Scores(log, docs, docs, query));
    assert d in Ranking(log, docs, query);
    ScoredAt(log, docs, query, d, j);
  }

  // Every document is ranked somewhere.
  lemma EachRanked<Id>(log: Log, docs: seq<Doc<Id>>, query: string, j: nat) returns (p: nat)
    requires j < |docs|
    ensures p < |Ranking(log, docs, query)|
    ensures Ranking(log, docs, query)[p] == Scored(docs[j].id, Score(log, docs, query, docs[j].text))
  {
    var s, all := Scores(log, docs, docs, query), Ranking(log, docs, query);
    SortPermutes(s, HighestFirst);
    SameElements(all, s);
    assert s[j] in all;
    p :| 0 <= p < |all| && all[p] == s[j];
  }
}
