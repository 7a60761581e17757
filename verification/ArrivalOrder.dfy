/**
  Where the order of arrival shows. Of two equally long transcripts the first to arrive
  becomes the document's (src/zataone/document/builder.py, lines 271-286), and with it
  decides the shortlist, and in document mode the matches. It takes two extractors that
  report speech for one asset, which the repository's own do not (RunParts.OwnSignal).
 */
module ArrivalOrder {
  import opened Options
  import opened Text
  import opened StableSort
  import opened Signals
  import opened Dsl
  import opened Violations
  import opened DocumentMode
  import opened Engine
  import opened Extraction
  import opened LegacyRules
  import opened Pipeline
  import opened Verdict
  import Bm25
  import Bm25Laws
  import DocumentBuilder
  import EngineMeaning
  import Normalizer
  import Retriever
  import RetrieverMeaning
  import Schedule

  /******* Two transcripts *******/

  // A transcript as a speech extractor reports it.
  function Speech(id: string, text: string): Signal {
    Signal(Some(id), None, 1.0, None, RawData("asr_text", Some(text), None, "audio", None, "", None, 0.0, ""))
  }

  function Heard(id: string, text: string): Run {
    Run(id, [Speech(id, text)], None)
  }

  // A word of lower-case letters and digits.
  predicate Word(s: string) {
    s != "" && forall i :: 0 <= i < |s| ==> Bm25.IsAlnum(s[i]) && LowerChar(s[i]) == s[i]
  }

  lemma WordIsNormalized(s: string)
    requires Word(s)
    ensures Normalized(s) && Normalize(s) == s && Strip(s) == s && Lower(s) == s
  {
    assert Tidy(s) by {
      forall i: nat | i < |s| ensures !ThreeNewlinesAt(s, i) {}
    }
    Normalizer.FixedIffNormalized(s);
    Normalizer.TidyIsFixed(s);
  }

  lemma SpeechIsAsr(id: string, text: string)
    ensures var s := Speech(id, text); !IsOcr(s) && IsAsr(s) && IsTextSignal(s) && !IsVisionObject(s)
  {
    assert "asr_text"[0] != "ocr_text"[0];
    assert |"asr_text"| != |"vision_object"|;
  }

  lemma AddSpeech(d: DocumentBuilder.Buckets, id: string, text: string)
    requires Word(text) && id != ""
    ensures DocumentBuilder.AddSignal(d, Speech(id, text))
         == d.(ids := d.ids + [id], asr := d.asr + [DocumentBuilder.Transcript(text, id)])
  {
    SpeechIsAsr(id, text);
    WordIsNormalized(text);
  }

  lemma SpeechBuckets(i: string, x: string, j: string, y: string)
    requires Word(x) && Word(y) && i != "" && j != ""
    ensures DocumentBuilder.SortOut([Speech(i, x), Speech(j, y)])
         == DocumentBuilder.Buckets(
              [i, j], [], [DocumentBuilder.Transcript(x, i), DocumentBuilder.Transcript(y, j)], [], [])
  {
    var signals := [Speech(i, x), Speech(j, y)];
    assert signals[..1] == [Speech(i, x)] && signals[..1][..0] == [];
    var none := DocumentBuilder.SortOut([]);
    AddSpeech(none, i, x);
    AddSpeech(DocumentBuilder.AddSignal(none, Speech(i, x)), j, y);
    assert DocumentBuilder.SortOut(signals[..1]) == DocumentBuilder.AddSignal(none, Speech(i, x));
  }

  // The longest transcript is the document's; of equally long ones, the first to arrive.
  lemma FirstTranscriptWins(asset: DocumentBuilder.Asset, i: string, x: string, j: string, y: string)
    requires DocumentBuilder.AssetModality(asset) != DocumentBuilder.TextModality
    requires Word(x) && Word(y) && |x| == |y| && i != "" && j != ""
    ensures DocumentBuilder.BuiltDocument(asset, [Speech(i, x), Speech(j, y)]).text == x
  {
    var first, second := DocumentBuilder.Transcript(x, i), DocumentBuilder.Transcript(y, j);
    SpeechBuckets(i, x, j, y);
    WordIsNormalized(x);
    assert Sort([second], DocumentBuilder.LongestFirst) == [second];
    assert Sort([first, second], DocumentBuilder.LongestFirst)[0] == first by {
      assert [first, second][1..] == [second];
    }
    var d := DocumentBuilder.SortOut([Speech(i, x), Speech(j, y)]);
    assert DocumentBuilder.AsrSection(d.asr).text == x;
    assert DocumentBuilder.OcrPieces([]) == [];
    assert DocumentBuilder.Body(asset, d).text == x;
  }

  /******* A rule that forbids one word *******/

  lemma NothingForbidden(re: Search, text: string, id: string, name: string)
    ensures HitIn(re, text, Compiled(id, Forbids(name, []))) == None
  {
    assert Compiled(id, Forbids(name, [])).ast == None;
  }

  lemma OtherWordDiffers(x: string, y: string)
    requires |x| == |y| && x != y
    ensures !Contains(x, y)
  {
    assert x[0..|x|] == x;
  }

  /******* Document mode *******/

  lemma TwoArrivals(i: string, x: string, j: string, y: string)
    ensures MergeAll([Heard(i, x), Heard(j, y)]).signals == [Speech(i, x), Speech(j, y)]
    ensures AllSucceed([Heard(i, x), Heard(j, y)])
  {
    var order := [Heard(i, x), Heard(j, y)];
    assert order[..1] == [Heard(i, x)] && order[..1][..0] == [];
    assert MergeAll(order[..1]).signals == [Speech(i, x)];
  }

  lemma NoAdviceDoesNotDiverge()
    ensures !Diverges(None)
  {
    var lo, hi := Normalizer.StripIsSlice("unclear");
    assert |Strip("unclear")| <= 7 && |"diverges"| == 8;
  }

  // A run that heard two words, without advice: cleared exactly when no rule has evidence.
  lemma HeardCleared(re: Search, t: Tables, pack: seq<Entry>, i: Input, active: Option<set<string>>,
                     p: string, x: string, q: string, y: string, vs: seq<Violation>)
    requires i.signals == [Speech(p, x), Speech(q, y)]
    requires multiset(vs) == multiset(Expected(re, t, pack, i, active))
    ensures ReviewStateForVerdict(Schedule.Stored([Heard(p, x), Heard(q, y)], vs, true, None)) == None
       <==> !SomeEvidence(re, pack, i, active)
  {
    var order := [Heard(p, x), Heard(q, y)];
    TwoArrivals(p, x, q, y);
    NoAdviceDoesNotDiverge();
    ClearedIff(re, t, pack, i, active, order, order, true, None, vs);
  }

  // The word that the one rule of this pack forbids is heard first in exactly one order.
  lemma WordEvidence(re: Search, text: string, x: string)
    requires Word(text) && Word(x) && |text| == |x|
    ensures HitIn(re, text, Compiled("rule", Forbids("", [Term(x)]))).Some? <==> text == x
  {
    WordIsNormalized(text);
    WordIsNormalized(x);
    ForbiddenWord(re, text, "rule", "", x);
    if text != x { OtherWordDiffers(text, x); } else { assert OccursAt(text, x, 0); }
  }

  // What the engine is given when u is heard before v.
  function HeardInput(asset: DocumentBuilder.Asset, p: string, u: string, q: string, v: string): Input {
    EngineInput(asset, [Speech(p, u), Speech(q, v)], true)
  }

  lemma DocumentCleared(re: Search, t: Tables, asset: DocumentBuilder.Asset, p: string, u: string, q: string, v: string,
                        x: string, vs: seq<Violation>)
    requires DocumentBuilder.AssetModality(asset) != DocumentBuilder.TextModality
    requires Word(u) && Word(v) && Word(x) && |u| == |v| == |x| && p != "" && q != ""
    requires multiset(vs)
          == multiset(Expected(re, t, [Compiled("rule", Forbids("", [Term(x)]))], HeardInput(asset, p, u, q, v), None))
    ensures ReviewStateForVerdict(Schedule.Stored([Heard(p, u), Heard(q, v)], vs, true, None)) == None <==> u != x
  {
    var e := Compiled("rule", Forbids("", [Term(x)]));
    FirstTranscriptWins(asset, p, u, q, v);
    WordEvidence(re, u, x);
    OneRuleEvidence(re, e, HeardInput(asset, p, u, q, v));
    HeardCleared(re, t, [e], HeardInput(asset, p, u, q, v), None, p, u, q, v, vs);
  }

  // In document mode, with retrieval off, the order in which two equally long transcripts
  // arrive can decide whether the run is cleared without a human.
  lemma DocumentModeDependsOnOrder(re: Search, t: Tables, asset: DocumentBuilder.Asset, x: string, y: string,
                                   vs1: seq<Violation>, vs2: seq<Violation>)
    requires DocumentBuilder.AssetModality(asset) != DocumentBuilder.TextModality
    requires Word(x) && Word(y) && |x| == |y| && x != y
    requires var pack := [Compiled("rule", Forbids("", [Term(x)]))];
             && multiset(vs1) == multiset(Expected(re, t, pack, HeardInput(asset, "1", x, "2", y), None))
             && multiset(vs2) == multiset(Expected(re, t, pack, HeardInput(asset, "2", y, "1", x), None))
    ensures ReviewStateForVerdict(Schedule.Stored([Heard("1", x), Heard("2", y)], vs1, true, None)) != None
    ensures ReviewStateForVerdict(Schedule.Stored([Heard("2", y), Heard("1", x)], vs2, true, None)) == None
  {
    DocumentCleared(re, t, asset, "1", x, "2", y, x, vs1);
    DocumentCleared(re, t, asset, "2", y, "1", x, x, vs2);
  }

  /******* Fragment mode with retrieval on *******/

  // The rules as the index sees them: the first forbids x, the second is named y.
  function TwoRules(x: string, y: string): Retriever.Pack {
    Retriever.Pack([], [Retriever.PackRule("first", "", "", [x], None), Retriever.PackRule("second", y, "", [], None)])
  }

  // The same rules as the engine sees them.
  function TwoEntries(x: string, y: string): seq<Entry> {
    [Compiled("first", Forbids("", [Term(x)])), Compiled("second", Forbids(y, []))]
  }

  const OneRule := Retriever.Settings(true, 1, true)

  lemma WordIsOneToken(s: string)
    requires Word(s)
    ensures Bm25.Tokenize(s) == [s]
  {
    Bm25Laws.WordIsToken(s);
    WordIsNormalized(s);
  }

  lemma OneFilled(a: string, b: string, c: string, w: string)
    requires w != "" && ([a, b, c] == ["", "", w] || [a, b, c] == [w, "", ""])
    ensures Retriever.JoinBlank(Retriever.Filled([a, b, c] + [])) == w
  {
    var parts := [a, b, c];
    assert parts[0] == a && parts[1] == b && parts[2] == c;
    assert parts + [] == parts && parts[1..] == [b, c] && [b, c][1..] == [c] && [c][1..] == [];
    var k := Retriever.Nonempty;
    assert Keep([c], k) == if c != "" then [c] else [];
    assert Keep([b, c], k) == (if b != "" then [b] else []) + Keep([c], k);
    assert Keep(parts, k) == (if a != "" then [a] else []) + Keep([b, c], k);
    assert Keep(parts, k) == [w];
  }

  lemma OneRuleText(r: Retriever.PackRule, w: string)
    requires w != "" && r.description == "" && r.matchShown == None
    requires (r.name == "" && r.prohibitedTerms == [w]) || (r.name == w && r.prohibitedTerms == [])
    ensures Retriever.RuleText(r) == w
  {
    OneFilled(r.name, "", Retriever.JoinBlank(r.prohibitedTerms), w);
  }

  lemma TwoDocuments(r1: Retriever.PackRule, r2: Retriever.PackRule)
    requires r1.id != r2.id
    ensures Retriever.WithRules([], [r1, r2])
         == [Bm25.Doc(Retriever.RuleDoc(r1.id), Retriever.RuleText(r1)),
             Bm25.Doc(Retriever.RuleDoc(r2.id), Retriever.RuleText(r2))]
  {
    var d1 := Bm25.Doc(Retriever.RuleDoc(r1.id), Retriever.RuleText(r1));
    assert [r1, r2][..1] == [r1] && [r1][..0] == [];
    assert Retriever.WithRules([], [r1]) == Retriever.PutDoc([], d1) == [d1];
    var d2 := Bm25.Doc(Retriever.RuleDoc(r2.id), Retriever.RuleText(r2));
    assert d1.id != d2.id && [d1][1..] == [];
    assert Retriever.PutDoc([], d2) == [d2];
    assert Retriever.PutDoc([d1], d2) == [d1] + [d2];
    assert Retriever.WithRules([], [r1, r2]) == Retriever.PutDoc(Retriever.WithRules([], [r1, r2][..1]), d2);
  }

  lemma RuleTexts(x: string, y: string)
    requires x != "" && y != ""
    ensures Retriever.Documents(TwoRules(x, y))
         == [Bm25.Doc(Retriever.RuleDoc("first"), x), Bm25.Doc(Retriever.RuleDoc("second"), y)]
  {
    var rules := TwoRules(x, y).rules;
    OneRuleText(rules[0], x);
    OneRuleText(rules[1], y);
    assert "first"[0] != "second"[0];
    TwoDocuments(rules[0], rules[1]);
    assert rules == [rules[0], rules[1]];
  }

  // The text of a document is a query of one word.
  lemma WordScores(log: Bm25.Log, docs: seq<Bm25.Doc<Retriever.DocId>>, query: string, k: nat)
    requires k < |docs| && Word(query) && Word(docs[k].text)
    ensures Bm25.Score(log, docs, query, docs[k].text) > 0.0 <==> docs[k].text == query
    ensures docs[k].text != query ==> Bm25.Score(log, docs, query, docs[k].text) == 0.0
  {
    Bm25.ScoreZeroIffNothingShared(log, docs, query, k);
    WordIsOneToken(query);
    WordIsOneToken(docs[k].text);
    assert query in Bm25.Tokenize(query);
  }

  lemma RankedTwo(log: Bm25.Log, docs: seq<Bm25.Doc<Retriever.DocId>>, query: string)
    requires |docs| == 2
    ensures var all := Bm25.Ranking(log, docs, query);
            && |all| == 2
            && (forall d :: d in all <==>
                  exists k :: 0 <= k < 2 && d == Bm25.Scored(docs[k].id, Bm25.Score(log, docs, query, docs[k].text)))
  {
    var scores := Bm25.Scores(log, docs, docs, query);
    RetrieverMeaning.RankingSorted(log, docs, query);
    SameElements(Bm25.Ranking(log, docs, query), scores);
    assert scores == [scores[0], scores[1]];
  }

  // The ranking of the two rules for a word: both are in it, with these scores.
  lemma TwoRanked(log: Bm25.Log, x: string, y: string, query: string)
    requires Word(x) && Word(y) && x != y && Word(query)
    ensures var docs := Retriever.Documents(TwoRules(x, y));
            var all := Bm25.Ranking(log, docs, query);
            && |all| == 2
            && (forall d :: d in all <==>
                  || d == Bm25.Scored(Retriever.RuleDoc("first"), Bm25.Score(log, docs, query, x))
                  || d == Bm25.Scored(Retriever.RuleDoc("second"), Bm25.Score(log, docs, query, y)))
  {
    var docs := Retriever.Documents(TwoRules(x, y));
    RuleTexts(x, y);
    RankedTwo(log, docs, query);
    assert docs[0].text == x && docs[1].text == y;
  }

  // Of two rules that only their own documents speak for, the one that scores comes first.
  lemma TopOfTwo(p: Retriever.Pack, all: seq<Bm25.Scored<Retriever.DocId>>, a: string, b: string, score: real,
                 w: Bm25.Scored<string>)
    requires a != b && score > 0.0 && |all| == 2 && Sorted(all, Bm25.HighestFirst)
    requires forall d :: d in all <==>
               d == Bm25.Scored(Retriever.RuleDoc(a), score) || d == Bm25.Scored(Retriever.RuleDoc(b), 0.0)
    requires w in Retriever.TopRules(p, Bm25.Take(all, 2), 1)
    ensures w.id == a
  {
    var top := Retriever.TopRules(p, Bm25.Take(all, 2), 1);
    assert Bm25.Take(all, 2) == all;
    RetrieverMeaning.TopRuleScore(p, all, 1, w);
    RetrieverMeaning.LiftedIsBest(p, all, w.id);
    if w.id != a {
      assert |top| <= 1 && forall y :: y in top ==> y == w;
      RetrieverMeaning.LeftOutScoresLower(p, all, 2, 1, w, a, Bm25.Scored(Retriever.RuleDoc(a), score));
    }
  }

  // With one rule to retrieve, the rule whose word was heard first is retrieved alone.
  lemma HeardRuleIsTop(log: Bm25.Log, x: string, y: string, query: string, id: string, w: Bm25.Scored<string>)
    requires Word(x) && Word(y) && x != y
    requires (id == "first" && query == x) || (id == "second" && query == y)
    requires var p := TwoRules(x, y);
             w in Retriever.TopRules(p, Bm25.Take(Bm25.Ranking(log, Retriever.Documents(p), query), 2), 1)
    ensures w.id == id
  {
    var p := TwoRules(x, y);
    var docs := Retriever.Documents(p);
    var all := Bm25.Ranking(log, docs, query);
    RuleTexts(x, y);
    TwoRanked(log, x, y, query);
    WordScores(log, docs, query, 0);
    WordScores(log, docs, query, 1);
    RetrieverMeaning.RankingSorted(log, docs, query);
    var a, b := Bm25.Score(log, docs, query, x), Bm25.Score(log, docs, query, y);
    assert "first"[0] != "second"[0];
    if query == x {
      TopOfTwo(p, all, "first", "second", a, w);
    } else {
      TopOfTwo(p, all, "second", "first", b, w);
    }
  }

  lemma OneOnTop(p: Retriever.Pack, all: seq<Bm25.Scored<Retriever.DocId>>, a: string, score: real)
    requires |all| == 2 && RetrieverMeaning.Nonnegative(all) && Bm25.Scored(Retriever.RuleDoc(a), score) in all
    ensures |Retriever.TopRules(p, Bm25.Take(all, 2), 1)| == 1
  {
    var d := Bm25.Scored(Retriever.RuleDoc(a), score);
    assert Bm25.Take(all, 2) == all;
    RetrieverMeaning.RankedCount(p, all, 1);
    RetrieverMeaning.LiftedIsBest(p, all, a);
    assert a in Retriever.Lifts(p, d.id);
  }

  lemma FirstRanked(log: Bm25.Log, x: string, y: string, query: string)
    requires Word(x) && Word(y) && x != y && Word(query)
    ensures var docs := Retriever.Documents(TwoRules(x, y));
            var all := Bm25.Ranking(log, docs, query);
            && |all| == 2 && RetrieverMeaning.Nonnegative(all)
            && Bm25.Scored(Retriever.RuleDoc("first"), Bm25.Score(log, docs, query, x)) in all
  {
    var docs := Retriever.Documents(TwoRules(x, y));
    RuleTexts(x, y);
    RankedTwo(log, docs, query);
    RetrieverMeaning.RankingSorted(log, docs, query);
    var d := Bm25.Scored(docs[0].id, Bm25.Score(log, docs, query, docs[0].text));
    assert d in Bm25.Ranking(log, docs, query);
  }

  lemma SomeRuleOnTop(log: Bm25.Log, x: string, y: string, query: string)
    requires Word(x) && Word(y) && x != y && Word(query)
    ensures var p := TwoRules(x, y);
            |Retriever.TopRules(p, Bm25.Take(Bm25.Ranking(log, Retriever.Documents(p), query), 2), 1)| == 1
  {
    var p := TwoRules(x, y);
    FirstRanked(log, x, y, query);
    OneOnTop(p, Bm25.Ranking(log, Retriever.Documents(p), query), "first",
             Bm25.Score(log, Retriever.Documents(p), query, x));
  }

  lemma NoVisionRules(x: string, y: string)
    ensures VisionPrimaryIds(TwoEntries(x, y)) == {}
  {
  }

  lemma DrawnAlone(log: Bm25.Log, p: Retriever.Pack, text: string, id: string)
    requires Retriever.Documents(p) != []
    requires var all := Bm25.Ranking(log, Retriever.Documents(p), text);
             Retriever.IdsOf(Retriever.TopRules(p, Bm25.Take(all, 2), 1)) == [id]
    ensures Drawn(log, p, text, {}, OneRule) == Some({id})
  {
    assert IdSet([id]) + {} == {id};
    assert OneRule.topK * 2 == 2;
  }

  // The shortlist drawn for the word that was heard first.
  lemma HeardShortlist(log: Bm25.Log, x: string, y: string, query: string, id: string)
    requires Word(x) && Word(y) && x != y
    requires (id == "first" && query == x) || (id == "second" && query == y)
    ensures DrawnFor(log, Some(TwoRules(x, y)), query, TwoEntries(x, y), OneRule) == Some({id})
  {
    var p := TwoRules(x, y);
    var top := Retriever.TopRules(p, Bm25.Take(Bm25.Ranking(log, Retriever.Documents(p), query), 2), 1);
    NoVisionRules(x, y);
    RuleTexts(x, y);
    SomeRuleOnTop(log, x, y, query);
    HeardRuleIsTop(log, x, y, query, id, top[0]);
    assert Retriever.IdsOf(top) == [id];
    DrawnAlone(log, p, query, id);
  }

  lemma HeardEvidence(re: Search, x: string, e: Entry, i: Input)
    requires Word(x) && i.document.None? && exists id :: Speech(id, x) in i.signals
    requires e == Compiled("first", Forbids("", [Term(x)]))
    ensures EngineMeaning.Evidence(re, e, i)
  {
    var id :| Speech(id, x) in i.signals;
    WordIsNormalized(x);
    ForbiddenWord(re, x, "first", "", x);
    ContainsItself(x);
    SpeechIsAsr(id, x);
  }

  lemma NoEvidence(re: Search, name: string, e: Entry, i: Input)
    requires i.document.None? && e == Compiled("second", Forbids(name, []))
    ensures !EngineMeaning.Evidence(re, e, i)
  {
    forall text: string ensures HitIn(re, text, e) == None {
      NothingForbidden(re, text, "second", name);
    }
  }

  lemma OneOfTwoActive(re: Search, a: Entry, b: Entry, i: Input, id: string)
    requires a.id != b.id && (id == a.id || id == b.id)
    requires EngineMeaning.Evidence(re, a, i) && !EngineMeaning.Evidence(re, b, i)
    ensures SomeEvidence(re, [a, b], i, Some({id})) <==> id == a.id
  {
    assert a in [a, b] && forall e :: e in [a, b] ==> e == a || e == b;
  }

  // Both words are heard in either order, so only the shortlist can keep the first rule out.
  lemma FragmentEvidence(re: Search, x: string, y: string, i: Input, id: string)
    requires Word(x) && i.document.None? && exists id :: Speech(id, x) in i.signals
    requires id == "first" || id == "second"
    ensures SomeEvidence(re, TwoEntries(x, y), i, Some({id})) <==> id == "first"
  {
    assert "first"[0] != "second"[0];
    var a, b := Compiled("first", Forbids("", [Term(x)])), Compiled("second", Forbids(y, []));
    HeardEvidence(re, x, a, i);
    NoEvidence(re, y, b, i);
    OneOfTwoActive(re, a, b, i, id);
  }

  // The shortlist drawn for an order of arrival.
  function HeardActive(log: Bm25.Log, asset: DocumentBuilder.Asset, order: seq<Run>, x: string, y: string)
    : Option<set<string>>
  {
    DrawnFor(log, Some(TwoRules(x, y)), Schedule.TextOfOrder(asset, order), TwoEntries(x, y), OneRule)
  }

  lemma FragmentCleared(re: Search, log: Bm25.Log, t: Tables, asset: DocumentBuilder.Asset, x: string, y: string,
                        p: string, u: string, q: string, v: string, id: string, vs: seq<Violation>)
    requires DocumentBuilder.AssetModality(asset) != DocumentBuilder.TextModality
    requires Word(x) && Word(y) && |x| == |y| && x != y && p != "" && q != ""
    requires (id == "first" && u == x && v == y) || (id == "second" && u == y && v == x)
    requires var order := [Heard(p, u), Heard(q, v)];
             multiset(vs) == multiset(Expected(re, t, TwoEntries(x, y), Schedule.FragmentInput(order),
                               HeardActive(log, asset, order, x, y)))
    ensures ReviewStateForVerdict(Schedule.Stored([Heard(p, u), Heard(q, v)], vs, true, None)) == None
       <==> id == "second"
  {
    var order := [Heard(p, u), Heard(q, v)];
    var i := Schedule.FragmentInput(order);
    TwoArrivals(p, u, q, v);
    FirstTranscriptWins(asset, p, u, q, v);
    HeardShortlist(log, x, y, u, id);
    assert Speech(if id == "first" then p else q, x) in i.signals;
    FragmentEvidence(re, x, y, i, id);
    HeardCleared(re, t, TwoEntries(x, y), i, Some({id}), p, u, q, v, vs);
    assert "first"[0] != "second"[0];
  }

  // Main theorem: with retrieval on, fragment mode is not free of the schedule either. The
  // same two transcripts, heard in two orders: in one the run is cleared without a human,
  // in the other it goes to review.
  lemma ShortlistDependsOnOrder(re: Search, log: Bm25.Log, t: Tables, asset: DocumentBuilder.Asset,
                                x: string, y: string, vs1: seq<Violation>, vs2: seq<Violation>)
    requires DocumentBuilder.AssetModality(asset) != DocumentBuilder.TextModality
    requires Word(x) && Word(y) && |x| == |y| && x != y
    requires var order := [Heard("1", x), Heard("2", y)];
             multiset(vs1) == multiset(Expected(re, t, TwoEntries(x, y), Schedule.FragmentInput(order),
                                HeardActive(log, asset, order, x, y)))
    requires var order := [Heard("2", y), Heard("1", x)];
             multiset(vs2) == multiset(Expected(re, t, TwoEntries(x, y), Schedule.FragmentInput(order),
                                HeardActive(log, asset, order, x, y)))
    ensures ReviewStateForVerdict(Schedule.Stored([Heard("1", x), Heard("2", y)], vs1, true, None)) != None
    ensures ReviewStateForVerdict(Schedule.Stored([Heard("2", y), Heard("1", x)], vs2, true, None)) == None
  {
    FragmentCleared(re, log, t, asset, x, y, "1", x, "2", y, "first", vs1);
    FragmentCleared(re, log, t, asset, x, y, "2", y, "1", x, "second", vs2);
    assert "first"[0] != "second"[0];
  }
}
