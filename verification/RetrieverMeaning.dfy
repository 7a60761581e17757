/**
  Truncating the ranking loses no better rule
  (src/zataone/policy_engine/retrieval/retriever.py, lines 67-104).
 */
module RetrieverMeaning {
  import opened Options
  import opened Sequences
  import opened StableSort
  import opened Bm25
  import opened Retriever
  import Bm25Laws

  /******* Lifted scores are best scores *******/

  ghost predicate Nonnegative<Id>(ranked: seq<Scored<Id>>) {
    forall d :: d in ranked ==> d.score >= 0.0
  }

  // s is the best score among the documents that speak for a rule.
  ghost predicate IsBest(p: Pack, ranked: seq<Scored<DocId>>, id: string, s: real) {
    && (exists d :: d in ranked && id in Lifts(p, d.id) && d.score == s)
    && (forall d :: d in ranked && id in Lifts(p, d.id) ==> d.score <= s)
  }

  ghost predicate SpokenFor(p: Pack, ranked: seq<Scored<DocId>>, id: string) {
    exists d :: d in ranked && id in Lifts(p, d.id)
  }

  lemma {:induction false} RaiseGet(rs: RuleScores, id: string, score: real, other: string)
    ensures ScoreGet(Raise(rs, id, score), other)
         == if other != id then ScoreGet(rs, other)
            else Some(AtLeast(score, ScoreGet(rs, id).GetOr(0.0)))
  {
    if rs != [] && rs[0].id != id { RaiseGet(rs[1..], id, score, other); }
  }

  lemma {:induction false} RaiseAllGet(rs: RuleScores, ids: seq<string>, score: real, other: string)
    ensures ScoreGet(RaiseAll(rs, ids, score), other)
         == if other in ids then Some(AtLeast(score, ScoreGet(rs, other).GetOr(0.0))) else ScoreGet(rs, other)
  {
    if ids != [] {
      var n := |ids| - 1;
      RaiseAllGet(rs, ids[..n], score, other);
      RaiseGet(RaiseAll(rs, ids[..n], score), ids[n], score, other);
      assert ids == ids[..n] + [ids[n]];
    }
  }

  lemma {:induction false} LiftedIsBest(p: Pack, ranked: seq<Scored<DocId>>, id: string)
    requires Nonnegative(ranked)
    ensures var s := ScoreGet(LiftAll(p, ranked), id);
            if s.Some? then IsBest(p, ranked, id, s.value) else !SpokenFor(p, ranked, id)
  {
    if ranked != [] {
      var n := |ranked| - 1;
      var d, before := ranked[n], ranked[..n];
      assert ranked == before + [d];
      assert d in ranked;
      assert Nonnegative(before);
      LiftedIsBest(p, before, id);
      RaiseAllGet(LiftAll(p, before), Lifts(p, d.id), d.score, id);
      var s, t := ScoreGet(LiftAll(p, before), id), ScoreGet(LiftAll(p, ranked), id);
      if s.Some? {
        var x :| x in before && id in Lifts(p, x.id) && x.score == s.value;
        assert x in ranked;
      }
    }
  }

  /******* rule_scores has each rule once *******/

  ghost predicate DistinctRules(rs: RuleScores) {
    forall i, j :: 0 <= i < j < |rs| ==> rs[i].id != rs[j].id
  }

  lemma {:induction false} GetIffMember(rs: RuleScores, id: string)
    ensures ScoreGet(rs, id).Some? <==> exists x :: x in rs && x.id == id
    ensures ScoreGet(rs, id).Some? ==> Scored(id, ScoreGet(rs, id).value) in rs
  {
    if rs != [] {
      GetIffMember(rs[1..], id);
      assert rs == [rs[0]] + rs[1..];
    }
  }

  lemma {:induction false} MemberGet(rs: RuleScores, x: Scored<string>)
    requires DistinctRules(rs) && x in rs
    ensures ScoreGet(rs, x.id) == Some(x.score)
  {
    if rs[0] != x {
      var k :| 0 <= k < |rs| && rs[k] == x;
      assert rs[1..][k - 1] == x;
      assert forall i :: 0 <= i < |rs[1..]| ==> rs[1..][i] == rs[i + 1];
      MemberGet(rs[1..], x);
    }
  }

  lemma {:induction false} RaiseDistinct(rs: RuleScores, id: string, score: real)
    requires DistinctRules(rs)
    ensures DistinctRules(Raise(rs, id, score))
  {
    if rs != [] {
      var rest := rs[1..];
      assert forall i :: 0 <= i < |rest| ==> rest[i] == rs[i + 1];
      if rs[0].id != id {
        RaiseDistinct(rest, id, score);
        var r := Raise(rest, id, score);
        forall k | 0 <= k < |r| ensures r[k].id != rs[0].id {
          RaiseGet(rest, id, score, rs[0].id);
          GetIffMember(rest, rs[0].id);
          GetIffMember(r, rs[0].id);
          assert r[k] in r;
        }
      }
    }
  }

  lemma {:induction false} RaiseAllDistinct(rs: RuleScores, ids: seq<string>, score: real)
    requires DistinctRules(rs)
    ensures DistinctRules(RaiseAll(rs, ids, score))
  {
    if ids != [] {
      RaiseAllDistinct(rs, ids[..|ids| - 1], score);
      RaiseDistinct(RaiseAll(rs, ids[..|ids| - 1], score), ids[|ids| - 1], score);
    }
  }

  lemma {:induction false} LiftedDistinct(p: Pack, ranked: seq<Scored<DocId>>)
    ensures DistinctRules(LiftAll(p, ranked))
  {
    if ranked != [] {
      var n := |ranked| - 1;
      LiftedDistinct(p, ranked[..n]);
      RaiseAllDistinct(LiftAll(p, ranked[..n]), Lifts(p, ranked[n].id), ranked[n].score);
    }
  }

  /******* The ranking *******/

  lemma HighestFirstPreorder<Id(!new)>()
    ensures TotalPreorder<Scored<Id>>(HighestFirst)
  {
  }

  lemma RankingSorted(log: Log, docs: seq<Doc<DocId>>, query: string)
    ensures var r := Ranking(log, docs, query);
            Sorted(r, HighestFirst) && Nonnegative(r) && multiset(r) == multiset(Scores(log, docs, docs, query))
  {
    var s := Scores(log, docs, docs, query);
    HighestFirstPreorder<DocId>();
    SortSorted(s, HighestFirst);
    SortPermutes(s, HighestFirst);
    SameElements(Ranking(log, docs, query), s);
    forall d | d in s ensures d.score >= 0.0 {
      var k :| 0 <= k < |s| && s[k] == d;
      ScoreZeroIffNothingShared(log, docs, query, k);
    }
  }

  // In a sorted ranking nothing after the cut scores above anything before it.
  lemma CutSplits<Id>(ranked: seq<Scored<Id>>, m: nat, x: Scored<Id>, y: Scored<Id>)
    requires Sorted(ranked, HighestFirst) && x in Take(ranked, m) && y in ranked && y !in Take(ranked, m)
    ensures x.score >= y.score
  {
    var cut := Take(ranked, m);
    forall k | 0 <= k < |cut| ensures ranked[k] in cut {
      assert ranked[k] == cut[k];
    }
    var i :| 0 <= i < |cut| && cut[i] == x;
    var j :| 0 <= j < |ranked| && ranked[j] == y;
    assert i < j;
  }

  /******* Truncation *******/

  // Any cut of a sorted ranking leaves the lifted scores of the rules it reaches exact,
  // and at least as good as everything that speaks for a rule it does not reach.
  lemma CutKeepsBest(p: Pack, ranked: seq<Scored<DocId>>, m: nat, id: string, s: real)
    requires Sorted(ranked, HighestFirst) && Nonnegative(ranked)
    requires ScoreGet(LiftAll(p, Take(ranked, m)), id) == Some(s)
    ensures IsBest(p, ranked, id, s)
    ensures forall d :: d in ranked && d !in Take(ranked, m) ==> d.score <= s
  {
    var cut := Take(ranked, m);
    assert forall d :: d in cut ==> d in ranked;
    LiftedIsBest(p, cut, id);
    var x :| x in cut && id in Lifts(p, x.id) && x.score == s;
    forall d | d in ranked && d !in cut ensures d.score <= s {
      CutSplits(ranked, m, x, d);
    }
  }

  lemma TopRuleScore(p: Pack, ranked: seq<Scored<DocId>>, topK: nat, x: Scored<string>)
    requires x in TopRules(p, ranked, topK)
    ensures ScoreGet(LiftAll(p, ranked), x.id) == Some(x.score)
  {
    var lifted := LiftAll(p, ranked);
    LiftedDistinct(p, ranked);
    SortPermutes(lifted, HighestFirst);
    SameElements(Sort(lifted, HighestFirst), lifted);
    assert x in Sort(lifted, HighestFirst);
    MemberGet(lifted, x);
  }

  lemma OmittedRuleScore(p: Pack, ranked: seq<Scored<DocId>>, topK: nat, x: Scored<string>, other: string, s: real)
    requires x in TopRules(p, ranked, topK) && ScoreGet(LiftAll(p, ranked), other) == Some(s)
    requires forall y :: y in TopRules(p, ranked, topK) ==> y.id != other
    ensures s <= x.score
  {
    var lifted := LiftAll(p, ranked);
    var sorted := Sort(lifted, HighestFirst);
    HighestFirstPreorder<string>();
    SortSorted(lifted, HighestFirst);
    SortPermutes(lifted, HighestFirst);
    SameElements(sorted, lifted);
    GetIffMember(lifted, other);
    CutSplits(sorted, topK, x, Scored(other, s));
  }

  // Main theorem: for every rule kept by rank, the recorded score is its best score over
  // the whole index, and no document of a rule that was left out scores higher.
  lemma TruncationLosesNothing(log: Log, p: Pack, query: string, topK: nat, x: Scored<string>)
    requires x in TopRules(p, Take(Ranking(log, Documents(p), query), topK * 2), topK)
    ensures var all := Ranking(log, Documents(p), query);
            var cut := Take(all, topK * 2);
            && RecordedScore(LiftAll(p, cut), x.id) == x.score
            && IsBest(p, all, x.id, x.score)
            && forall other, d :: d in all && other in Lifts(p, d.id)
                                  && (forall y :: y in TopRules(p, cut, topK) ==> y.id != other) ==>
                 d.score <= x.score
  {
    var all := Ranking(log, Documents(p), query);
    var m := topK * 2;
    var cut := Take(all, m);
    RankingSorted(log, Documents(p), query);
    TopRuleScore(p, cut, topK, x);
    CutKeepsBest(p, all, m, x.id, x.score);
    forall other, d | d in all && other in Lifts(p, d.id)
                      && (forall y :: y in TopRules(p, cut, topK) ==> y.id != other)
      ensures d.score <= x.score
    {
      LeftOutScoresLower(p, all, m, topK, x, other, d);
    }
  }

  lemma LeftOutScoresLower(p: Pack, all: seq<Scored<DocId>>, m: nat, topK: nat, x: Scored<string>, other: string,
                           d: Scored<DocId>)
    requires Sorted(all, HighestFirst) && Nonnegative(all)
    requires x in TopRules(p, Take(all, m), topK)
    requires d in all && other in Lifts(p, d.id)
    requires forall y :: y in TopRules(p, Take(all, m), topK) ==> y.id != other
    ensures d.score <= x.score
  {
    var cut := Take(all, m);
    TopRuleScore(p, cut, topK, x);
    CutKeepsBest(p, all, m, x.id, x.score);
    if d in cut {
      assert forall e :: e in cut ==> e in all;
      LiftedIsBest(p, cut, other);
      var s := ScoreGet(LiftAll(p, cut), other);
      OmittedRuleScore(p, cut, topK, x, other, s.value);
    }
  }

  /******* Recorded scores of the other rules *******/

  // Main theorem: a rule that some document speaks for, however it got on the shortlist,
  // is recorded with its best score over the whole index exactly when the cut reached it
  // or it scores zero anyway.
  lemma RecordedScoreIsBestIff(log: Log, p: Pack, query: string, m: nat, id: string)
    requires SpokenFor(p, Ranking(log, Documents(p), query), id)
    ensures var all := Ranking(log, Documents(p), query);
            var cut := Take(all, m);
            IsBest(p, all, id, RecordedScore(LiftAll(p, cut), id))
            <==> SpokenFor(p, cut, id) || forall d :: d in all && id in Lifts(p, d.id) ==> d.score == 0.0
  {
    var all := Ranking(log, Documents(p), query);
    var cut := Take(all, m);
    RankingSorted(log, Documents(p), query);
    assert forall d :: d in cut ==> d in all;
    LiftedIsBest(p, cut, id);
    var s := ScoreGet(LiftAll(p, cut), id);
    if s.Some? {
      CutKeepsBest(p, all, m, id, s.value);
      assert SpokenFor(p, cut, id);
    }
  }

  lemma {:induction false} RuleHasDocument(docs: seq<Doc<DocId>>, rules: seq<PackRule>, id: string)
    requires exists r :: r in rules && r.id == id
    ensures HasId(WithRules(docs, rules), RuleDoc(id))
  {
    var n := |rules| - 1;
    assert rules == rules[..n] + [rules[n]];
    if rules[n].id != id { RuleHasDocument(docs, rules[..n], id); }
    PutDocIds(WithRules(docs, rules[..n]), Doc(RuleDoc(rules[n].id), RuleText(rules[n])), RuleDoc(id));
  }

  lemma RankedDocument(log: Log, docs: seq<Doc<DocId>>, query: string, k: nat)
    requires k < |docs|
    ensures exists d :: d in Ranking(log, docs, query) && d.id == docs[k].id
  {
    var scores := Scores(log, docs, docs, query);
    RankingSorted(log, docs, query);
    SameElements(Ranking(log, docs, query), scores);
    assert scores[k] in scores;
  }

  // Every rule of the pack is spoken for, by its own document at least.
  lemma PackRuleSpokenFor(log: Log, p: Pack, query: string, id: string)
    requires id in PackIds(p.rules)
    ensures SpokenFor(p, Ranking(log, Documents(p), query), id)
  {
    var i :| 0 <= i < |p.rules| && p.rules[i].id == id;
    assert p.rules[i] in p.rules;
    RuleHasDocument(ClauseDocs(p.clauses), p.rules, id);
    var k :| 0 <= k < |Documents(p)| && Documents(p)[k].id == RuleDoc(id);
    RankedDocument(log, Documents(p), query, k);
    var d :| d in Ranking(log, Documents(p), query) && d.id == RuleDoc(id);
    assert id in Lifts(p, d.id);
  }

  // The fallback to the whole pack records zero for every rule, which is right exactly for
  // the rules that no document matches.
  lemma FallbackScoresIff(log: Log, p: Pack, query: string, s: Settings, r: Retrieval, id: string)
    requires IsShortlist(p, Take(Ranking(log, Documents(p), query), s.topK * 2), {}, s, r)
    requires LiftAll(p, Take(Ranking(log, Documents(p), query), s.topK * 2)) == [] && s.fallbackAll
    requires id in PackIds(p.rules)
    ensures id in r.scores && r.scores[id] == 0.0
    ensures var all := Ranking(log, Documents(p), query);
            IsBest(p, all, id, r.scores[id]) <==> forall d :: d in all && id in Lifts(p, d.id) ==> d.score == 0.0
  {
    var cut := Take(Ranking(log, Documents(p), query), s.topK * 2);
    assert TopRules(p, cut, s.topK) == [];
    PackRuleSpokenFor(log, p, query, id);
    RecordedScoreIsBestIff(log, p, query, s.topK * 2, id);
    RankingSorted(log, Documents(p), query);
    assert forall d :: d in cut ==> d in Ranking(log, Documents(p), query);
    LiftedIsBest(p, cut, id);
  }

  /******* Clauses *******/

  // The clauses of a ranking, in its order.
  function ClausesOf(ranked: seq<Scored<DocId>>): RuleScores {
    if ranked == [] then []
    else
      var d := ranked[|ranked| - 1];
      ClausesOf(ranked[..|ranked| - 1]) + if d.id.ClauseDoc? then [Scored(d.id.clauseId, d.score)] else []
  }

  const DocOf: Scored<DocId> -> DocId := (d: Scored<DocId>) => d.id

  lemma {:induction false} PutNewScore(rs: RuleScores, id: string, score: real)
    requires forall x :: x in rs ==> x.id != id
    ensures PutScore(rs, id, score) == rs + [Scored(id, score)]
  {
    if rs != [] { PutNewScore(rs[1..], id, score); }
  }

  lemma {:induction false} ClausesFrom(ranked: seq<Scored<DocId>>)
    ensures forall x :: x in ClausesOf(ranked) ==> Scored(ClauseDoc(x.id), x.score) in ranked
  {
    if ranked != [] {
      ClausesFrom(ranked[..|ranked| - 1]);
      assert ranked == ranked[..|ranked| - 1] + [ranked[|ranked| - 1]];
    }
  }

  // A clause met earlier in a sorted ranking without repetitions is another one, and
  // scores no less.
  lemma EarlierClause(ranked: seq<Scored<DocId>>, x: Scored<string>)
    requires ranked != [] && DistinctBy(ranked, DocOf) && Sorted(ranked, HighestFirst)
    requires x in ClausesOf(ranked[..|ranked| - 1])
    ensures x.score >= ranked[|ranked| - 1].score && ClauseDoc(x.id) != ranked[|ranked| - 1].id
  {
    var n := |ranked| - 1;
    ClausesFrom(ranked[..n]);
    var doc := Scored(ClauseDoc(x.id), x.score);
    var k :| 0 <= k < n && ranked[..n][k] == doc;
    assert DocOf(ranked[k]) != DocOf(ranked[n]) && HighestFirst(ranked[k], ranked[n]);
  }

  lemma SortedSnoc(rs: RuleScores, x: Scored<string>)
    requires Sorted(rs, HighestFirst) && forall y :: y in rs ==> y.score >= x.score
    ensures Sorted(rs + [x], HighestFirst)
  {
  }

  // In such a ranking the collected clause scores already stand in order, so sorting them
  // again changes nothing.
  lemma {:induction false} ClausesInOrder(ranked: seq<Scored<DocId>>)
    requires DistinctBy(ranked, DocOf) && Sorted(ranked, HighestFirst)
    ensures ClauseScores(ranked) == ClausesOf(ranked) && Sorted(ClausesOf(ranked), HighestFirst)
  {
    if ranked != [] {
      var n := |ranked| - 1;
      var before, d := ClausesOf(ranked[..n]), ranked[n];
      ClausesInOrder(ranked[..n]);
      if d.id.ClauseDoc? {
        forall x | x in before ensures x.id != d.id.clauseId && x.score >= d.score {
          EarlierClause(ranked, x);
        }
        PutNewScore(before, d.id.clauseId, d.score);
        SortedSnoc(before, Scored(d.id.clauseId, d.score));
      }
    }
  }

  lemma {:induction false} ClausesPrefix(ranked: seq<Scored<DocId>>, m: nat)
    requires m <= |ranked|
    ensures ClausesOf(ranked[..m]) <= ClausesOf(ranked)
    decreases |ranked|
  {
    if m < |ranked| {
      assert ranked[..|ranked| - 1][..m] == ranked[..m];
      ClausesPrefix(ranked[..|ranked| - 1], m);
    } else {
      assert ranked[..m] == ranked;
    }
  }

  lemma RankingDistinct(log: Log, docs: seq<Doc<DocId>>, query: string)
    requires DistinctDocs(docs)
    ensures DistinctBy(Ranking(log, docs, query), DocOf)
  {
    var scores := Scores(log, docs, docs, query);
    RankingSorted(log, docs, query);
    DistinctPermute(scores, Ranking(log, docs, query), DocOf);
  }

  lemma ClausesOfCut(all: seq<Scored<DocId>>, m: nat, topK: nat)
    requires DistinctBy(all, DocOf) && Sorted(all, HighestFirst)
    ensures TopClauses(Take(all, m), topK) == IdsOf(Take(ClausesOf(Take(all, m)), topK))
    ensures ClausesOf(Take(all, m)) <= ClausesOf(all)
  {
    var cut := Take(all, m);
    ClausesInOrder(cut);
    HighestFirstPreorder<string>();
    SortFixed(ClausesOf(cut), HighestFirst);
    ClausesPrefix(all, |cut|);
  }

  // Main theorem: the retrieved clauses are the best clauses of the whole index, in order:
  // as many as fit into top_k and were reached by the cut.
  lemma RetrievedClausesAreBest(log: Log, p: Pack, query: string, topK: nat)
    ensures var all := Ranking(log, Documents(p), query);
            var cut := Take(all, topK * 2);
            && TopClauses(cut, topK) == IdsOf(Take(ClausesOf(cut), topK))
            && ClausesOf(cut) <= ClausesOf(all)
            && Sorted(ClausesOf(all), HighestFirst)
  {
    var all := Ranking(log, Documents(p), query);
    ClauseDocsDistinct(p.clauses);
    DocumentsDistinct(ClauseDocs(p.clauses), p.rules);
    RankingSorted(log, Documents(p), query);
    RankingDistinct(log, Documents(p), query);
    ClausesInOrder(all);
    ClausesOfCut(all, topK * 2, topK);
  }

  // Ranking by documents can yield fewer than top_k rules: as many as the cut speaks for.
  lemma RankedCount(p: Pack, ranked: seq<Scored<DocId>>, topK: nat)
    ensures |TopRules(p, ranked, topK)| == if topK <= |LiftAll(p, ranked)| then topK else |LiftAll(p, ranked)|
  {
    SortPermutes(LiftAll(p, ranked), HighestFirst);
  }

  /******* What the documents say *******/

  function TokensOf(): string -> seq<string> {
    (s: string) => Tokenize(s)
  }

  lemma {:induction false} JoinedTokens(parts: seq<string>)
    ensures Tokenize(JoinBlank(parts)) == FlatMap(parts, TokensOf())
  {
    if |parts| == 1 {
      FlatMapOne(parts, TokensOf());
    } else if parts != [] {
      FlatMapHead(parts, TokensOf());
      JoinedTokens(parts[1..]);
      Bm25Laws.TokensSplit(parts[0], ' ', JoinBlank(parts[1..]));
    }
  }

  lemma FilledTokens(parts: seq<string>)
    ensures FlatMap(Filled(parts), TokensOf()) == FlatMap(parts, TokensOf())
  {
    FlatMapKept(parts, Nonempty, TokensOf(), TokensOf());
  }

  lemma ThreeTokens(a: string, b: string, c: string)
    ensures FlatMap([a, b, c], TokensOf()) == Tokenize(a) + Tokenize(b) + Tokenize(c)
  {
    assert [a, b, c] == [a] + [b] + [c];
    FlatMapConcat([a] + [b], [c], TokensOf());
    FlatMapConcat([a], [b], TokensOf());
    FlatMapOne([a], TokensOf());
    FlatMapOne([b], TokensOf());
    FlatMapOne([c], TokensOf());
  }

  // A rule is found by the words of its name, its description, its prohibited terms and its
  // `match:` block, in this order.
  lemma RuleTokens(r: PackRule)
    ensures Tokenize(RuleText(r))
         == Tokenize(r.name) + Tokenize(r.description) + FlatMap(r.prohibitedTerms, TokensOf())
            + (if r.matchShown.Some? then Tokenize(r.matchShown.value) else [])
  {
    var first := [r.name, r.description, JoinBlank(r.prohibitedTerms)];
    var last := if r.matchShown.Some? then [r.matchShown.value] else [];
    JoinedTokens(Filled(first + last));
    FilledTokens(first + last);
    FlatMapConcat(first, last, TokensOf());
    ThreeTokens(r.name, r.description, JoinBlank(r.prohibitedTerms));
    JoinedTokens(r.prohibitedTerms);
    if last != [] { FlatMapOne(last, TokensOf()); }
  }

  lemma {:induction false} PutNew(docs: seq<Doc<DocId>>, d: Doc<DocId>)
    requires forall e :: e in docs ==> e.id != d.id
    ensures PutDoc(docs, d) == docs + [d]
  {
    if docs != [] {
      assert docs[0] in docs;
      PutNew(docs[1..], d);
      assert docs == [docs[0]] + docs[1..];
    }
  }

  function ClauseDocuments(clauses: seq<Clause>): seq<Doc<DocId>> {
    seq(|clauses|, k requires 0 <= k < |clauses| => Doc(ClauseDoc(clauses[k].id), clauses[k].text))
  }

  function RuleDocuments(rules: seq<PackRule>): seq<Doc<DocId>> {
    seq(|rules|, k requires 0 <= k < |rules| => Doc(RuleDoc(rules[k].id), RuleText(rules[k])))
  }

  lemma LastClause(clauses: seq<Clause>)
    requires clauses != []
    ensures var n := |clauses| - 1;
            ClauseDocuments(clauses)
            == ClauseDocuments(clauses[..n]) + [Doc(ClauseDoc(clauses[n].id), clauses[n].text)]
  {
  }

  lemma OtherClauses(clauses: seq<Clause>, d: Doc<DocId>)
    requires d.id.ClauseDoc? && forall c :: c in clauses ==> c.id != d.id.clauseId
    ensures forall e :: e in ClauseDocuments(clauses) ==> e.id != d.id
  {
    forall e | e in ClauseDocuments(clauses) ensures e.id != d.id {
      var k :| 0 <= k < |clauses| && e.id == ClauseDoc(clauses[k].id);
      assert clauses[k] in clauses;
    }
  }

  lemma {:induction false} ClausesListed(clauses: seq<Clause>)
    requires forall i, j :: 0 <= i < j < |clauses| ==> clauses[i].id != clauses[j].id
    ensures ClauseDocs(clauses) == ClauseDocuments(clauses)
  {
    if clauses != [] {
      var n := |clauses| - 1;
      var d := Doc(ClauseDoc(clauses[n].id), clauses[n].text);
      ClausesListed(clauses[..n]);
      LastClause(clauses);
      OtherClauses(clauses[..n], d);
      PutNew(ClauseDocuments(clauses[..n]), d);
    }
  }

  lemma OtherRules(clauses: seq<Clause>, rules: seq<PackRule>, d: Doc<DocId>)
    requires d.id.RuleDoc? && forall r :: r in rules ==> r.id != d.id.ruleId
    ensures forall e :: e in ClauseDocuments(clauses) + RuleDocuments(rules) ==> e.id != d.id
  {
    forall e | e in RuleDocuments(rules) ensures e.id != d.id {
      var k :| 0 <= k < |rules| && e.id == RuleDoc(rules[k].id);
      assert rules[k] in rules;
    }
  }

  lemma LastRule(docs: seq<Doc<DocId>>, rules: seq<PackRule>)
    requires rules != []
    ensures var n := |rules| - 1;
            var d := Doc(RuleDoc(rules[n].id), RuleText(rules[n]));
            && WithRules(docs, rules) == PutDoc(WithRules(docs, rules[..n]), d)
            && RuleDocuments(rules) == RuleDocuments(rules[..n]) + [d]
  {
  }

  lemma {:induction false} RulesListed(clauses: seq<Clause>, rules: seq<PackRule>)
    requires forall i, j :: 0 <= i < j < |rules| ==> rules[i].id != rules[j].id
    ensures WithRules(ClauseDocuments(clauses), rules) == ClauseDocuments(clauses) + RuleDocuments(rules)
  {
    var docs := ClauseDocuments(clauses);
    if rules == [] {
      assert RuleDocuments(rules) == [];
    } else {
      var n := |rules| - 1;
      var d := Doc(RuleDoc(rules[n].id), RuleText(rules[n]));
      RulesListed(clauses, rules[..n]);
      LastRule(docs, rules);
      OtherRules(clauses, rules[..n], d);
      PutNew(docs + RuleDocuments(rules[..n]), d);
    }
  }

  // With distinct ids the index holds every clause's text and every rule's, in order.
  lemma DocumentsListed(p: Pack)
    requires forall i, j :: 0 <= i < j < |p.clauses| ==> p.clauses[i].id != p.clauses[j].id
    requires forall i, j :: 0 <= i < j < |p.rules| ==> p.rules[i].id != p.rules[j].id
    ensures Documents(p) == ClauseDocuments(p.clauses) + RuleDocuments(p.rules)
  {
    ClausesListed(p.clauses);
    RulesListed(p.clauses, p.rules);
  }

  // Which rules a document speaks for: its own, or those that clauses of its id name.
  lemma {:induction false} NamedByClause(clauses: seq<Clause>, clauseId: string, id: string)
    ensures id in ClauseRules(clauses, clauseId) <==> exists c :: c in clauses && c.id == clauseId && id in c.ruleIds
  {
    if clauses != [] {
      NamedByClause(clauses[1..], clauseId, id);
      assert clauses == [clauses[0]] + clauses[1..];
    }
  }

  lemma SpeaksFor(p: Pack, d: DocId, id: string)
    ensures id in Lifts(p, d)
       <==> match d
            case RuleDoc(own) => id == own
            case ClauseDoc(clauseId) => exists c :: c in p.clauses && c.id == clauseId && id in c.ruleIds
  {
    if d.ClauseDoc? { NamedByClause(p.clauses, d.clauseId, id); }
  }

  // A key that is known keeps its place and gets the new text; any other goes to the end.
  lemma {:induction false} PutPlaces(docs: seq<Doc<DocId>>, d: Doc<DocId>)
    requires DistinctDocs(docs)
    ensures (forall e :: e in docs ==> e.id != d.id) ==> PutDoc(docs, d) == docs + [d]
    ensures forall k :: 0 <= k < |docs| && docs[k].id == d.id ==> PutDoc(docs, d) == docs[k := d]
  {
    if docs != [] {
      var rest := docs[1..];
      PutPlaces(rest, d);
      assert docs == [docs[0]] + rest;
      forall k | 0 <= k < |docs| && docs[k].id == d.id ensures PutDoc(docs, d) == docs[k := d] {
        if k > 0 { assert rest[k - 1] == docs[k] && docs[0].id != d.id; }
      }
    }
  }

  // The whole pack, as it is kept without a ranking and by the fallback: every rule once, in order.
  lemma WholePack(rules: seq<PackRule>)
    ensures |PackIds(rules)| == |rules| && forall k :: 0 <= k < |rules| ==> PackIds(rules)[k] == rules[k].id
  {
  }
}
