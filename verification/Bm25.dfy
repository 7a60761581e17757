/**
  The BM25 index over policy texts (src/zataone/policy_engine/retrieval/bm25.py).
  The class fills its tables document by document; the lemmas are about the direct
  counts the tables are proved equal to.
 */
module Bm25 {
  import opened Text
  import opened StableSort

  /******* Tokens *******/

  predicate IsAlnum(c: char) {
    'a' <= c <= 'z' || 'A' <= c <= 'Z' || '0' <= c <= '9'
  }

  function RunLength(s: string): (n: nat)
    ensures n <= |s| && (s != "" && IsAlnum(s[0]) ==> n > 0)
    ensures forall i :: 0 <= i < n ==> IsAlnum(s[i])
    ensures n < |s| ==> !IsAlnum(s[n])
  {
    if s == "" || !IsAlnum(s[0]) then 0 else 1 + RunLength(s[1..])
  }

  // The maximal runs of letters and digits, lower-cased.
  function Tokenize(s: string): seq<string>
    decreases |s|
  {
    if s == "" then []
    else if !IsAlnum(s[0]) then Tokenize(s[1..])
    else [Lower(s[..RunLength(s)])] + Tokenize(s[RunLength(s)..])
  }

  /******* Direct counts *******/

  datatype Doc<Id> = Doc(id: Id, text: string)

  function Frequency(term: string, tokens: seq<string>): nat {
    multiset(tokens)[term]
  }

  // In how many documents a term occurs.
  function DocFrequency<Id>(term: string, docs: seq<Doc<Id>>): nat {
    if docs == [] then 0
    else
      var n := |docs| - 1;
      DocFrequency(term, docs[..n]) + if term in Tokenize(docs[n].text) then 1 else 0
  }

  function TotalLength<Id>(docs: seq<Doc<Id>>): nat {
    if docs == [] then 0
    else TotalLength(docs[..|docs| - 1]) + |Tokenize(docs[|docs| - 1].text)|
  }

  function AverageLength<Id>(docs: seq<Doc<Id>>): (r: real)
    ensures r >= 0.0
  {
    if docs == [] then 0.0 else
      QuotientNonnegative(TotalLength(docs) as real, |docs| as real);
      TotalLength(docs) as real / |docs| as real
  }

  lemma QuotientNonnegative(x: real, y: real)
    requires x >= 0.0 && y > 0.0
    ensures x / y >= 0.0
  {
  }

  lemma QuotientPositive(x: real, y: real)
    requires x > 0.0 && y > 0.0
    ensures x / y > 0.0
  {
  }

  lemma ProductPositive(x: real, y: real)
    requires x > 0.0 && y > 0.0
    ensures x * y > 0.0
  {
  }

  /******* Scores *******/

  const K1 := 1.5
  const B := 0.75
  const TINY := 0.000000001

  // math.log, of which only this is needed: it is 0 at 1, and it rises.
  ghost predicate GoodLog(log: real -> real) {
    log(1.0) == 0.0 && forall x, y :: 0.0 < x < y ==> log(x) < log(y)
  }

  type Log = log: real -> real | GoodLog(log) witness (x: real) => x - 1.0

  function AtLeast(x: real, least: real): real {
    if x < least then least else x
  }

  function Idf(log: Log, n: nat, df: nat): real {
    log(1.0 + (n as real - df as real + 0.5) / (df as real + 0.5))
  }

  // What one occurrence of a term in the query adds to a document's score.
  function TermScore(log: Log, n: nat, df: nat, frequency: nat, length: nat, average: real): real {
    if df == 0 then 0.0
    else
      var denominator := frequency as real + K1 * (1.0 - B + B * length as real / AtLeast(average, TINY));
      Idf(log, n, df) * (frequency as real * (K1 + 1.0)) / AtLeast(denominator, TINY)
  }

  function ScoreOf<Id>(log: Log, docs: seq<Doc<Id>>, text: string, terms: seq<string>): real {
    if terms == [] then 0.0
    else
      var n := |terms| - 1;
      var tokens := Tokenize(text);
      ScoreOf(log, docs, text, terms[..n])
      + TermScore(log, |docs|, DocFrequency(terms[n], docs), Frequency(terms[n], tokens), |tokens|, AverageLength(docs))
  }

  // The score of a document's text for a query.
  function Score<Id>(log: Log, docs: seq<Doc<Id>>, query: string, text: string): real {
    ScoreOf(log, docs, text, Tokenize(query))
  }

  datatype Scored<Id> = Scored(id: Id, score: real)

  predicate HighestFirst<Id>(a: Scored<Id>, b: Scored<Id>) {
    a.score >= b.score
  }

  function Scores<Id>(log: Log, docs: seq<Doc<Id>>, all: seq<Doc<Id>>, query: string): (r: seq<Scored<Id>>)
    ensures |r| == |docs|
    ensures forall k :: 0 <= k < |docs| ==> r[k] == Scored(docs[k].id, Score(log, all, query, docs[k].text))
  {
    if docs == [] then []
    else
      var n := |docs| - 1;
      Scores(log, docs[..n], all, query) + [Scored(docs[n].id, Score(log, all, query, docs[n].text))]
  }

  // All documents, best score first.
  function Ranking<Id>(log: Log, docs: seq<Doc<Id>>, query: string): seq<Scored<Id>> {
    Sort(Scores(log, docs, docs, query), HighestFirst)
  }

  function Take<T>(s: seq<T>, n: nat): seq<T> {
    if n <= |s| then s[..n] else s
  }

  /******* The index *******/

  ghost predicate DistinctDocs<Id>(docs: seq<Doc<Id>>) {
    forall i, j :: 0 <= i < j < |docs| ==> docs[i].id != docs[j].id
  }

  // Counter(tokens)
  ghost predicate Counts(counter: map<string, nat>, tokens: seq<string>) {
    && (forall term :: term in counter <==> term in tokens)
    && (forall term :: term in counter ==> counter[term] == Frequency(term, tokens))
  }

  function CounterGet(counter: map<string, nat>, term: string): nat {
    if term in counter then counter[term] else 0
  }

  lemma CounterGetIsFrequency(counter: map<string, nat>, tokens: seq<string>, term: string)
    requires Counts(counter, tokens)
    ensures CounterGet(counter, term) == Frequency(term, tokens)
  {
    assert term in tokens <==> term in multiset(tokens);
  }

  method CountTokens(tokens: seq<string>) returns (counter: map<string, nat>)
    ensures Counts(counter, tokens)
  {
    counter := map[];
    for k := 0 to |tokens|
      invariant Counts(counter, tokens[..k])
    {
      assert tokens[..k + 1] == tokens[..k] + [tokens[k]];
      CounterGetIsFrequency(counter, tokens[..k], tokens[k]);
      counter := counter[tokens[k] := CounterGet(counter, tokens[k]) + 1];
    }
    assert tokens[..|tokens|] == tokens;
  }

  ghost predicate DocFrequencies<Id>(df: map<string, nat>, docs: seq<Doc<Id>>) {
    forall term :: CounterGet(df, term) == DocFrequency(term, docs)
  }

  // Every distinct term of one more document counts once more.
  method CountDocument<Id>(before: map<string, nat>, ghost docs: seq<Doc<Id>>, doc: Doc<Id>, tf: map<string, nat>)
    returns (df: map<string, nat>)
    requires DocFrequencies(before, docs) && Counts(tf, Tokenize(doc.text))
    ensures DocFrequencies(df, docs + [doc])
  {
    df := before;
    var todo := tf.Keys;
    while todo != {}
      invariant todo <= tf.Keys
      invariant forall term ::
        CounterGet(df, term) == CounterGet(before, term) + if term in tf.Keys - todo then 1 else 0
      decreases |todo|
    {
      var term :| term in todo;
      df := df[term := CounterGet(df, term) + 1];
      todo := todo - {term};
    }
    forall term ensures CounterGet(df, term) == DocFrequency(term, docs + [doc]) {
      assert (docs + [doc])[..|docs|] == docs;
    }
  }

  // The per-document tables hold the direct counts of each document.
  ghost predicate TablesOf<Id>(tf: map<Id, map<string, nat>>, docLen: map<Id, nat>, docs: seq<Doc<Id>>) {
    && (forall k :: 0 <= k < |docs| ==>
          && docs[k].id in tf && docs[k].id in docLen
          && Counts(tf[docs[k].id], Tokenize(docs[k].text))
          && docLen[docs[k].id] == |Tokenize(docs[k].text)|)
    && (forall id :: id in tf ==> exists k :: 0 <= k < |docs| && docs[k].id == id)
  }

  lemma TablesExtend<Id>(tf: map<Id, map<string, nat>>, docLen: map<Id, nat>, docs: seq<Doc<Id>>, k: nat,
                         counter: map<string, nat>)
    requires DistinctDocs(docs) && k < |docs| && TablesOf(tf, docLen, docs[..k])
    requires Counts(counter, Tokenize(docs[k].text))
    ensures TablesOf(tf[docs[k].id := counter], docLen[docs[k].id := |Tokenize(docs[k].text)|], docs[..k + 1])
  {
    forall j | 0 <= j < k ensures docs[j].id != docs[k].id && docs[..k][j] == docs[j] {}
  }

  lemma CountsSnoc<Id>(docs: seq<Doc<Id>>, k: nat)
    requires k < |docs|
    ensures docs[..k + 1] == docs[..k] + [docs[k]]
    ensures TotalLength(docs[..k + 1]) == TotalLength(docs[..k]) + |Tokenize(docs[k].text)|
  {
    assert docs[..k + 1][..k] == docs[..k];
  }

  lemma ScoresSnoc<Id>(log: Log, docs: seq<Doc<Id>>, query: string, k: nat)
    requires k < |docs|
    ensures Scores(log, docs[..k + 1], docs, query)
         == Scores(log, docs[..k], docs, query) + [Scored(docs[k].id, Score(log, docs, query, docs[k].text))]
  {
    assert docs[..k + 1][..k] == docs[..k];
  }

  // The loops of BM25Index.__init__.
  method BuildTables<Id(==)>(documents: seq<Doc<Id>>)
    returns (tf: map<Id, map<string, nat>>, docLen: map<Id, nat>, df: map<string, nat>, avgdl: real)
    requires DistinctDocs(documents)
    ensures TablesOf(tf, docLen, documents) && DocFrequencies(df, documents) && avgdl == AverageLength(documents)
  {
    tf, docLen, df := map[], map[], map[];
    var total := 0;
    for k := 0 to |documents|
      invariant TablesOf(tf, docLen, documents[..k])
      invariant DocFrequencies(df, documents[..k]) && total == TotalLength(documents[..k])
    {
      var doc := documents[k];
      var tokens := Tokenize(doc.text);
      var counter := CountTokens(tokens);
      TablesExtend(tf, docLen, documents, k, counter);
      CountsSnoc(documents, k);
      tf, docLen := tf[doc.id := counter], docLen[doc.id := |tokens|];
      df := CountDocument(df, documents[..k], doc, counter);
      total := total + |tokens|;
    }
    assert documents[..|documents|] == documents;
    avgdl := if documents == [] then 0.0 else total as real / |documents| as real;
  }

  class Index<Id(==)> {
    var docs: seq<Doc<Id>>
    var docLen: map<Id, nat>
    var tf: map<Id, map<string, nat>>
    var df: map<string, nat>
    var avgdl: real

    // The tables are the direct counts over the tokenised documents.
    ghost predicate Valid()
      reads this
    {
      && DistinctDocs(docs)
      && TablesOf(tf, docLen, docs)
      && DocFrequencies(df, docs)
      && avgdl == AverageLength(docs)
    }

    constructor (documents: seq<Doc<Id>>)
      requires DistinctDocs(documents)
      ensures Valid() && docs == documents
    {
      var perDocument, lengths, overall, average := BuildTables(documents);
      docs, tf, docLen, df, avgdl := documents, perDocument, lengths, overall, average;
    }

    // score
    method ScoreDocument(log: Log, query: string, id: Id) returns (total: real)
      requires Valid()
      ensures forall k :: 0 <= k < |docs| && docs[k].id == id ==> total == Score(log, docs, query, docs[k].text)
      ensures (forall k :: 0 <= k < |docs| ==> docs[k].id != id) ==> total == 0.0
    {
      var terms := Tokenize(query);
      if terms == [] || id !in tf { return 0.0; }
      ghost var k :| 0 <= k < |docs| && docs[k].id == id;
      var counter, length := tf[id], docLen[id];
      total := 0.0;
      for j := 0 to |terms|
        invariant total == ScoreOf(log, docs, docs[k].text, terms[..j])
      {
        assert terms[..j + 1][..j] == terms[..j];
        CounterGetIsFrequency(counter, Tokenize(docs[k].text), terms[j]);
        var n := CounterGet(df, terms[j]);
        if n != 0 {
          total := total + TermScore(log, |docs|, n, CounterGet(counter, terms[j]), length, avgdl);
        }
      }
      assert terms[..|terms|] == terms;
    }

    // query
    method Query(log: Log, query: string, topK: nat) returns (ranked: seq<Scored<Id>>)
      requires Valid()
      ensures ranked == Take(Ranking(log, docs, query), topK)
    {
      var scores: seq<Scored<Id>> := [];
      for k := 0 to |docs|
        invariant scores == Scores(log, docs[..k], docs, query)
      {
        var s := ScoreDocument(log, query, docs[k].id);
        ScoresSnoc(log, docs, query, k);
        scores := scores + [Scored(docs[k].id, s)];
      }
      assert docs[..|docs|] == docs;
      ranked := Take(Sort(scores, HighestFirst), topK);
    }
  }

  /******* Properties of the scores *******/

  lemma {:induction false} DocFrequencyBounds<Id>(term: string, docs: seq<Doc<Id>>)
    ensures DocFrequency(term, docs) <= |docs|
    ensures DocFrequency(term, docs) > 0 <==> exists k :: 0 <= k < |docs| && term in Tokenize(docs[k].text)
  {
    if docs != [] {
      var n := |docs| - 1;
      DocFrequencyBounds(term, docs[..n]);
      if k :| 0 <= k < |docs| && term in Tokenize(docs[k].text) {
        if k < n { assert docs[..n][k] == docs[k]; }
      }
    }
  }

  lemma IdfPositive(log: Log, n: nat, df: nat)
    requires df <= n
    ensures Idf(log, n, df) > 0.0
  {
    var x, y := n as real - df as real + 0.5, df as real + 0.5;
    QuotientPositive(x, y);
    assert 1.0 + x / y > 1.0;
    assert log(1.0) < log(1.0 + x / y);
  }

  lemma NothingScored(x: real, y: real, z: real)
    requires y == 0.0 && z != 0.0
    ensures x * y / z == 0.0
  {
  }

  // A term adds a positive amount exactly when it occurs in the document.
  lemma TermScorePositiveIff(log: Log, n: nat, df: nat, frequency: nat, length: nat, average: real)
    requires df <= n && (frequency > 0 ==> df > 0)
    ensures var s := TermScore(log, n, df, frequency, length, average);
            s >= 0.0 && (s > 0.0 <==> frequency > 0)
  {
    if df != 0 {
      var idf := Idf(log, n, df);
      IdfPositive(log, n, df);
      var l := AtLeast(average, TINY);
      var denominator := frequency as real + K1 * (1.0 - B + B * length as real / l);
      var d := AtLeast(denominator, TINY);
      if frequency > 0 {
        ProductPositive(idf, frequency as real * (K1 + 1.0));
        QuotientPositive(idf * (frequency as real * (K1 + 1.0)), d);
      } else {
        assert frequency as real * (K1 + 1.0) == 0.0;
        NothingScored(idf, frequency as real * (K1 + 1.0), d);
      }
    }
  }

  lemma {:induction false} ScoreOfPositiveIff<Id>(log: Log, docs: seq<Doc<Id>>, k: nat, terms: seq<string>)
    requires k < |docs|
    ensures var s := ScoreOf(log, docs, docs[k].text, terms);
            s >= 0.0 && (s > 0.0 <==> exists t :: t in terms && t in Tokenize(docs[k].text))
  {
    if terms != [] {
      var n := |terms| - 1;
      var t := terms[n];
      var tokens := Tokenize(docs[k].text);
      ScoreOfPositiveIff(log, docs, k, terms[..n]);
      DocFrequencyBounds(t, docs);
      assert t in tokens <==> Frequency(t, tokens) > 0;
      TermScorePositiveIff(log, |docs|, DocFrequency(t, docs), Frequency(t, tokens), |tokens|, AverageLength(docs));
      assert terms == terms[..n] + [t];
    }
  }

  // Main theorem: no score is negative, and a document scores zero exactly when it
  // shares no term with the query.
  lemma ScoreZeroIffNothingShared<Id>(log: Log, docs: seq<Doc<Id>>, query: string, k: nat)
    requires k < |docs|
    ensures var s := Score(log, docs, query, docs[k].text);
            s >= 0.0 && (s == 0.0 <==> forall t :: t in Tokenize(query) ==> t !in Tokenize(docs[k].text))
  {
    ScoreOfPositiveIff(log, docs, k, Tokenize(query));
  }

  /******* Queries up to case *******/

  lemma {:induction false} RunLengthUpToCase(s: string, t: string)
    requires Lower(s) == Lower(t)
    ensures RunLength(s) == RunLength(t)
  {
    assert |s| == |t|;
    if s != "" {
      assert LowerChar(s[0]) == LowerChar(t[0]);
      LowerSlice(s, 1, |s|);
      LowerSlice(t, 1, |t|);
      RunLengthUpToCase(s[1..], t[1..]);
    }
  }

  lemma {:induction false} TokenizeUpToCase(s: string, t: string)
    requires Lower(s) == Lower(t)
    ensures Tokenize(s) == Tokenize(t)
    decreases |s|
  {
    assert |s| == |t|;
    if s != "" {
      assert LowerChar(s[0]) == LowerChar(t[0]);
      RunLengthUpToCase(s, t);
      var n := if IsAlnum(s[0]) then RunLength(s) else 1;
      LowerSlice(s, n, |s|);
      LowerSlice(t, n, |t|);
      LowerSlice(s, 0, n);
      LowerSlice(t, 0, n);
      assert s[0..n] == s[..n] && t[0..n] == t[..n];
      TokenizeUpToCase(s[n..], t[n..]);
    }
  }

  lemma {:induction false} ScoresUpToCase<Id>(log: Log, docs: seq<Doc<Id>>, all: seq<Doc<Id>>, s: string, t: string)
    requires Tokenize(s) == Tokenize(t)
    ensures Scores(log, docs, all, s) == Scores(log, docs, all, t)
  {
    if docs != [] { ScoresUpToCase(log, docs[..|docs| - 1], all, s, t); }
  }

  // Queries that differ in case only rank alike.
  lemma RankingUpToCase<Id>(log: Log, docs: seq<Doc<Id>>, s: string, t: string)
    requires Lower(s) == Lower(t)
    ensures Ranking(log, docs, s) == Ranking(log, docs, t)
  {
    TokenizeUpToCase(s, t);
    ScoresUpToCase(log, docs, docs, s, t);
  }
}
