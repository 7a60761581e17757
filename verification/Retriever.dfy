/**
  The policy shortlist (src/zataone/policy_engine/retrieval/retriever.py): rank the
  clauses and rules of a pack, lift document scores to rules, keep the best rules.
 */
module Retriever {
  import opened Options
  import opened Sequences
  import opened StableSort
  import opened Bm25

  /******* Packs and their documents *******/

  datatype Clause = Clause(id: string, text: string, ruleIds: seq<string>)

  // A rule's searchable fields; `matchShown` is str() of its `match:` dictionary.
  datatype PackRule = PackRule(
    id: string, name: string, description: string, prohibitedTerms: seq<string>, matchShown: Option<string>)

  datatype Pack = Pack(clauses: seq<Clause>, rules: seq<PackRule>)

  // "clause:<id>" and "rule:<id>".
  datatype DocId = ClauseDoc(clauseId: string) | RuleDoc(ruleId: string)

  // d[key] = value on an ordered dictionary: a known key keeps its place.
  function PutDoc(docs: seq<Doc<DocId>>, d: Doc<DocId>): seq<Doc<DocId>> {
    if docs == [] then [d]
    else if docs[0].id == d.id then [d] + docs[1..]
    else [docs[0]] + PutDoc(docs[1..], d)
  }

  function JoinBlank(parts: seq<string>): string {
    if parts == [] then ""
    else if |parts| == 1 then parts[0]
    else parts[0] + " " + JoinBlank(parts[1..])
  }

  const Nonempty: string -> bool := (p: string) => p != ""

  function Filled(parts: seq<string>): seq<string> {
    Keep(parts, Nonempty)
  }

  function RuleText(r: PackRule): string {
    JoinBlank(Filled([r.name, r.description, JoinBlank(r.prohibitedTerms)]
                     + if r.matchShown.Some? then [r.matchShown.value] else []))
  }

  function ClauseDocs(clauses: seq<Clause>): seq<Doc<DocId>> {
    if clauses == [] then []
    else
      var c := clauses[|clauses| - 1];
      PutDoc(ClauseDocs(clauses[..|clauses| - 1]), Doc(ClauseDoc(c.id), c.text))
  }

  function WithRules(docs: seq<Doc<DocId>>, rules: seq<PackRule>): seq<Doc<DocId>> {
    if rules == [] then docs
    else
      var r := rules[|rules| - 1];
      PutDoc(WithRules(docs, rules[..|rules| - 1]), Doc(RuleDoc(r.id), RuleText(r)))
  }

  function Documents(p: Pack): seq<Doc<DocId>> {
    WithRules(ClauseDocs(p.clauses), p.rules)
  }

  lemma DocumentsSnoc(p: Pack, k: nat)
    ensures k < |p.clauses| ==>
              ClauseDocs(p.clauses[..k + 1])
              == PutDoc(ClauseDocs(p.clauses[..k]), Doc(ClauseDoc(p.clauses[k].id), p.clauses[k].text))
    ensures k < |p.rules| ==>
              WithRules(ClauseDocs(p.clauses), p.rules[..k + 1])
              == PutDoc(WithRules(ClauseDocs(p.clauses), p.rules[..k]),
                        Doc(RuleDoc(p.rules[k].id), RuleText(p.rules[k])))
  {
    if k < |p.clauses| { assert p.clauses[..k + 1][..k] == p.clauses[..k]; }
    if k < |p.rules| { assert p.rules[..k + 1][..k] == p.rules[..k]; }
  }

  method AddClauseDocuments(p: Pack) returns (docs: seq<Doc<DocId>>)
    ensures docs == ClauseDocs(p.clauses)
  {
    docs := [];
    for k := 0 to |p.clauses|
      invariant docs == ClauseDocs(p.clauses[..k])
    {
      DocumentsSnoc(p, k);
      docs := PutDoc(docs, Doc(ClauseDoc(p.clauses[k].id), p.clauses[k].text));
    }
    assert p.clauses[..|p.clauses|] == p.clauses;
  }

  // _build_documents
  method BuildDocuments(p: Pack) returns (docs: seq<Doc<DocId>>)
    ensures docs == Documents(p)
  {
    docs := AddClauseDocuments(p);
    for k := 0 to |p.rules|
      invariant docs == WithRules(ClauseDocs(p.clauses), p.rules[..k])
    {
      DocumentsSnoc(p, k);
      docs := PutDoc(docs, Doc(RuleDoc(p.rules[k].id), RuleText(p.rules[k])));
    }
    assert p.rules[..|p.rules|] == p.rules;
  }

  ghost predicate HasId(docs: seq<Doc<DocId>>, id: DocId) {
    exists k :: 0 <= k < |docs| && docs[k].id == id
  }

  lemma {:induction false} PutDocIds(docs: seq<Doc<DocId>>, d: Doc<DocId>, id: DocId)
    ensures HasId(PutDoc(docs, d), id) <==> id == d.id || HasId(docs, id)
  {
    var r := PutDoc(docs, d);
    if docs == [] {
      assert r[0] == d;
    } else {
      var rest, tail := docs[1..], r[1..];
      assert forall k :: 0 < k < |docs| ==> docs[k] == rest[k - 1];
      assert forall k :: 0 < k < |r| ==> r[k] == tail[k - 1];
      assert HasId(docs, id) <==> docs[0].id == id || HasId(rest, id) by {
        if k :| 0 <= k < |rest| && rest[k].id == id { assert docs[k + 1].id == id; }
      }
      assert HasId(r, id) <==> r[0].id == id || HasId(tail, id) by {
        if k :| 0 <= k < |tail| && tail[k].id == id { assert r[k + 1].id == id; }
      }
      if docs[0].id == d.id {
        assert tail == rest;
      } else {
        assert tail == PutDoc(rest, d);
        PutDocIds(rest, d, id);
      }
    }
  }

  lemma {:induction false} PutDocKeys(docs: seq<Doc<DocId>>, d: Doc<DocId>)
    requires DistinctDocs(docs)
    ensures DistinctDocs(PutDoc(docs, d))
  {
    if docs != [] && docs[0].id != d.id {
      var rest := docs[1..];
      PutDocKeys(rest, d);
      PutDocIds(rest, d, docs[0].id);
      assert !HasId(rest, docs[0].id) by {
        assert forall k :: 0 <= k < |rest| ==> rest[k] == docs[k + 1];
      }
      assert forall k :: 0 <= k < |PutDoc(rest, d)| ==> PutDoc(rest, d)[k].id != docs[0].id;
    }
  }

  lemma {:induction false} ClauseDocsDistinct(clauses: seq<Clause>)
    ensures DistinctDocs(ClauseDocs(clauses))
  {
    if clauses != [] {
      var c := clauses[|clauses| - 1];
      ClauseDocsDistinct(clauses[..|clauses| - 1]);
      PutDocKeys(ClauseDocs(clauses[..|clauses| - 1]), Doc(ClauseDoc(c.id), c.text));
    }
  }

  lemma {:induction false} DocumentsDistinct(docs: seq<Doc<DocId>>, rules: seq<PackRule>)
    requires DistinctDocs(docs)
    ensures DistinctDocs(WithRules(docs, rules))
  {
    if rules != [] {
      var r := rules[|rules| - 1];
      DocumentsDistinct(docs, rules[..|rules| - 1]);
      PutDocKeys(WithRules(docs, rules[..|rules| - 1]), Doc(RuleDoc(r.id), RuleText(r)));
    }
  }

  /******* Clauses by rule *******/

  // A clause, once for every time it names the rule.
  function Naming(id: string): Clause -> seq<string> {
    (c: Clause) => Times(c.id, CountIn(c.ruleIds, id))
  }

  function Times(s: string, n: nat): seq<string> {
    if n == 0 then [] else Times(s, n - 1) + [s]
  }

  function NamedBy(table: map<string, seq<string>>, id: string): seq<string> {
    if id in table then table[id] else []
  }

  function CountIn(ids: seq<string>, id: string): nat {
    multiset(ids)[id]
  }

  lemma CountSnoc(ids: seq<string>, j: nat, id: string)
    requires j < |ids|
    ensures CountIn(ids[..j + 1], id) == CountIn(ids[..j], id) + if id == ids[j] then 1 else 0
  {
    var before := ids[..j];
    assert ids[..j + 1] == before + [ids[j]];
    assert multiset(before + [ids[j]]) == multiset(before) + multiset{ids[j]};
  }

  ghost predicate NamedSoFar(table: map<string, seq<string>>, before: map<string, seq<string>>, c: Clause, j: nat,
                             id: string)
    requires j <= |c.ruleIds|
  {
    NamedBy(table, id) == NamedBy(before, id) + Times(c.id, CountIn(c.ruleIds[..j], id))
  }

  lemma AppendOnce(names: seq<string>, s: string, n: nat)
    ensures names + Times(s, n) + [s] == names + Times(s, n + 1)
  {
    assert Times(s, n + 1) == Times(s, n) + [s];
  }

  lemma NamesUpdated(table: map<string, seq<string>>, key: string, names: seq<string>, id: string)
    ensures NamedBy(table[key := names], id) == if id == key then names else NamedBy(table, id)
  {
  }

  lemma NameOnceMore(table: map<string, seq<string>>, next: map<string, seq<string>>, before: map<string, seq<string>>,
                     c: Clause, j: nat, id: string)
    requires j < |c.ruleIds| && NamedSoFar(table, before, c, j, id)
    requires next == table[c.ruleIds[j] := NamedBy(table, c.ruleIds[j]) + [c.id]]
    ensures NamedSoFar(next, before, c, j + 1, id)
  {
    CountSnoc(c.ruleIds, j, id);
    var n := CountIn(c.ruleIds[..j], id);
    NamesUpdated(table, c.ruleIds[j], NamedBy(table, c.ruleIds[j]) + [c.id], id);
    if id == c.ruleIds[j] { AppendOnce(NamedBy(before, id), c.id, n); }
  }

  ghost predicate AllNamedSoFar(table: map<string, seq<string>>, before: map<string, seq<string>>, c: Clause, j: nat)
    requires j <= |c.ruleIds|
  {
    forall id :: NamedSoFar(table, before, c, j, id)
  }

  lemma NamedAtFirst(before: map<string, seq<string>>, c: Clause)
    ensures AllNamedSoFar(before, before, c, 0)
  {
    forall id ensures NamedSoFar(before, before, c, 0, id) {
      assert CountIn(c.ruleIds[..0], id) == 0;
    }
  }

  lemma NameOneMore(table: map<string, seq<string>>, before: map<string, seq<string>>, c: Clause, j: nat)
    requires j < |c.ruleIds| && AllNamedSoFar(table, before, c, j)
    ensures AllNamedSoFar(table[c.ruleIds[j] := NamedBy(table, c.ruleIds[j]) + [c.id]], before, c, j + 1)
  {
    var next, m := table[c.ruleIds[j] := NamedBy(table, c.ruleIds[j]) + [c.id]], j + 1;
    forall id ensures NamedSoFar(next, before, c, m, id) {
      NameOnceMore(table, next, before, c, j, id);
    }
  }

  method AddClause(before: map<string, seq<string>>, c: Clause) returns (table: map<string, seq<string>>)
    ensures AllNamedSoFar(table, before, c, |c.ruleIds|)
  {
    table := before;
    NamedAtFirst(before, c);
    for j := 0 to |c.ruleIds|
      invariant AllNamedSoFar(table, before, c, j)
    {
      NameOneMore(table, before, c, j);
      table := table[c.ruleIds[j] := NamedBy(table, c.ruleIds[j]) + [c.id]];
    }
  }

  // The _clause_by_rule table.
  method ClausesByRule(clauses: seq<Clause>) returns (table: map<string, seq<string>>)
    ensures forall id :: NamedBy(table, id) == FlatMap(clauses, Naming(id))
  {
    table := map[];
    for k := 0 to |clauses|
      invariant forall id :: NamedBy(table, id) == FlatMap(clauses[..k], Naming(id))
    {
      var before := table;
      table := AddClause(table, clauses[k]);
      forall id ensures NamedBy(table, id) == FlatMap(clauses[..k + 1], Naming(id)) {
        FlatMapSnoc(clauses, k, Naming(id));
        assert NamedSoFar(table, before, clauses[k], |clauses[k].ruleIds|, id);
        assert clauses[k].ruleIds[..|clauses[k].ruleIds|] == clauses[k].ruleIds;
      }
    }
    assert clauses[..|clauses|] == clauses;
  }

  /******* Lifting documents to rules *******/

  function ClauseRules(clauses: seq<Clause>, clauseId: string): seq<string> {
    if clauses == [] then []
    else (if clauses[0].id == clauseId then clauses[0].ruleIds else []) + ClauseRules(clauses[1..], clauseId)
  }

  // The rules a document speaks for. A clause may name rules the pack does not have.
  function Lifts(p: Pack, d: DocId): seq<string> {
    match d
    case RuleDoc(id) => [id]
    case ClauseDoc(id) => ClauseRules(p.clauses, id)
  }

  // rule_scores is an ordered dictionary.
  type RuleScores = seq<Scored<string>>

  function ScoreGet(rs: RuleScores, id: string): Option<real> {
    if rs == [] then None else if rs[0].id == id then Some(rs[0].score) else ScoreGet(rs[1..], id)
  }

  // rule_scores[id] = max(rule_scores.get(id, 0.0), score)
  function Raise(rs: RuleScores, id: string, score: real): RuleScores {
    if rs == [] then [Scored(id, AtLeast(score, 0.0))]
    else if rs[0].id == id then [Scored(id, AtLeast(score, rs[0].score))] + rs[1..]
    else [rs[0]] + Raise(rs[1..], id, score)
  }

  function RaiseAll(rs: RuleScores, ids: seq<string>, score: real): RuleScores {
    if ids == [] then rs
    else Raise(RaiseAll(rs, ids[..|ids| - 1], score), ids[|ids| - 1], score)
  }

  function LiftAll(p: Pack, ranked: seq<Scored<DocId>>): RuleScores {
    if ranked == [] then []
    else
      var d := ranked[|ranked| - 1];
      RaiseAll(LiftAll(p, ranked[..|ranked| - 1]), Lifts(p, d.id), d.score)
  }

  function IdsOf(rs: RuleScores): seq<string> {
    seq(|rs|, i requires 0 <= i < |rs| => rs[i].id)
  }

  // The best rules by lifted score.
  function TopRules(p: Pack, ranked: seq<Scored<DocId>>, topK: nat): RuleScores {
    Take(Sort(LiftAll(p, ranked), HighestFirst), topK)
  }

  // clause_scores[id] = score on an ordered dictionary.
  function PutScore(rs: RuleScores, id: string, score: real): RuleScores {
    if rs == [] then [Scored(id, score)]
    else if rs[0].id == id then [Scored(id, score)] + rs[1..]
    else [rs[0]] + PutScore(rs[1..], id, score)
  }

  function ClauseScores(ranked: seq<Scored<DocId>>): RuleScores {
    if ranked == [] then []
    else
      var d, before := ranked[|ranked| - 1], ClauseScores(ranked[..|ranked| - 1]);
      if d.id.ClauseDoc? then PutScore(before, d.id.clauseId, d.score) else before
  }

  // The best clauses by score.
  function TopClauses(ranked: seq<Scored<DocId>>, topK: nat): seq<string> {
    IdsOf(Take(Sort(ClauseScores(ranked), HighestFirst), topK))
  }

  lemma LiftedSnoc(p: Pack, ranked: seq<Scored<DocId>>, k: nat)
    requires k < |ranked|
    ensures LiftAll(p, ranked[..k + 1]) == RaiseAll(LiftAll(p, ranked[..k]), Lifts(p, ranked[k].id), ranked[k].score)
  {
    var next := ranked[..k + 1];
    assert next[..k] == ranked[..k] && next[k] == ranked[k];
  }

  lemma ClauseScoresSnoc(ranked: seq<Scored<DocId>>, k: nat)
    requires k < |ranked|
    ensures ClauseScores(ranked[..k + 1])
         == if ranked[k].id.ClauseDoc?
            then PutScore(ClauseScores(ranked[..k]), ranked[k].id.clauseId, ranked[k].score)
            else ClauseScores(ranked[..k])
  {
    var next := ranked[..k + 1];
    assert next[..k] == ranked[..k] && next[k] == ranked[k];
  }

  method RaiseRules(before: RuleScores, ids: seq<string>, score: real) returns (rs: RuleScores)
    ensures rs == RaiseAll(before, ids, score)
  {
    rs := before;
    for j := 0 to |ids|
      invariant rs == RaiseAll(before, ids[..j], score)
    {
      ghost var next := ids[..j + 1];
      assert next[..j] == ids[..j] && next[j] == ids[j];
      rs := Raise(rs, ids[j], score);
    }
    assert ids[..|ids|] == ids;
  }

  method LiftScores(p: Pack, ranked: seq<Scored<DocId>>) returns (rs: RuleScores, cs: RuleScores)
    ensures rs == LiftAll(p, ranked) && cs == ClauseScores(ranked)
  {
    rs, cs := [], [];
    for k := 0 to |ranked|
      invariant rs == LiftAll(p, ranked[..k])
      invariant cs == ClauseScores(ranked[..k])
    {
      LiftedSnoc(p, ranked, k);
      ClauseScoresSnoc(ranked, k);
      if ranked[k].id.ClauseDoc? { cs := PutScore(cs, ranked[k].id.clauseId, ranked[k].score); }
      rs := RaiseRules(rs, Lifts(p, ranked[k].id), ranked[k].score);
    }
    assert ranked[..|ranked|] == ranked;
  }

  /******* Retrieval *******/

  datatype Settings = Settings(enabled: bool, topK: nat, fallbackAll: bool)

  datatype Retrieval = Retrieval(ruleIds: seq<string>, clauseIds: seq<string>, scores: map<string, real>, ranked: bool)

  function RecordedScore(rs: RuleScores, id: string): real {
    ScoreGet(rs, id).GetOr(0.0)
  }

  // The rules that are asked for regardless of rank, appended in any order.
  method AppendMissing(ids: seq<string>, extra: set<string>) returns (all: seq<string>)
    ensures ids <= all
    ensures forall id :: id in all <==> id in ids || id in extra
    ensures forall k :: |ids| <= k < |all| ==> all[k] in extra && all[k] !in ids
  {
    all := ids;
    var todo := extra;
    while todo != {}
      invariant todo <= extra && ids <= all
      invariant forall id :: id in all <==> id in ids || id in extra - todo
      invariant forall k :: |ids| <= k < |all| ==> all[k] in extra && all[k] !in ids
      decreases |todo|
    {
      var id :| id in todo;
      if id !in all { all := all + [id]; }
      todo := todo - {id};
    }
  }

  function PackIds(rules: seq<PackRule>): seq<string> {
    seq(|rules|, i requires 0 <= i < |rules| => rules[i].id)
  }

  // The shortlist drawn from a ranking: the best rules first, then the rules asked for;
  // the whole pack when that leaves nothing and the fallback is on.
  ghost predicate IsShortlist(p: Pack, ranked: seq<Scored<DocId>>, visionRuleIds: set<string>, s: Settings,
                              r: Retrieval)
  {
    var top := IdsOf(TopRules(p, ranked, s.topK));
    && r.clauseIds == TopClauses(ranked, s.topK)
    && (forall id :: id in r.scores <==> id in r.ruleIds)
    && (forall id :: id in r.scores ==> r.scores[id] == RecordedScore(LiftAll(p, ranked), id))
    && if top == [] && visionRuleIds == {} && s.fallbackAll then r.ruleIds == PackIds(p.rules)
       else top <= r.ruleIds && forall id :: id in r.ruleIds <==> id in top || id in visionRuleIds
  }

  // The part of `retrieve` after the ranking.
  method DrawShortlist(p: Pack, ranked: seq<Scored<DocId>>, visionRuleIds: set<string>, s: Settings)
    returns (r: Retrieval)
    ensures r.ranked && IsShortlist(p, ranked, visionRuleIds, s, r)
  {
    var lifted, clauses := LiftScores(p, ranked);
    var top := IdsOf(Take(Sort(lifted, HighestFirst), s.topK));
    var ids := AppendMissing(top, visionRuleIds);
    assert ids == [] <==> top == [] && visionRuleIds == {} by {
      if ids == [] {
        assert forall id :: id in visionRuleIds ==> id in ids;
      } else {
        assert ids[0] in ids;
      }
    }
    if ids == [] && s.fallbackAll {
      ids := PackIds(p.rules);
    }
    var clauseIds := IdsOf(Take(Sort(clauses, HighestFirst), s.topK));
    r := Retrieval(ids, clauseIds, map id | id in ids :: RecordedScore(lifted, id), true);
  }

  class PolicyRetriever {
    const pack: Pack
    const index: Index<DocId>
    const clauseByRule: map<string, seq<string>>

    ghost predicate Valid()
      reads this, index
    {
      && index.Valid() && index.docs == Documents(pack)
      && (forall id :: NamedBy(clauseByRule, id) == FlatMap(pack.clauses, Naming(id)))
    }

    constructor (p: Pack)
      ensures Valid() && pack == p && fresh(index)
    {
      ClauseDocsDistinct(p.clauses);
      DocumentsDistinct(ClauseDocs(p.clauses), p.rules);
      var docs := BuildDocuments(p);
      var built := new Index(docs);
      var naming := ClausesByRule(p.clauses);
      pack, index, clauseByRule := p, built, naming;
    }

    // retrieve
    method Retrieve(log: Log, query: string, visionRuleIds: set<string>, s: Settings) returns (r: Retrieval)
      requires Valid() && s.topK >= 1
      ensures r.ranked <==> s.enabled && Documents(pack) != []
      ensures !r.ranked ==> r.ruleIds == PackIds(pack.rules) && r.clauseIds == [] && r.scores == map[]
      ensures r.ranked ==>
                IsShortlist(pack, Take(Ranking(log, Documents(pack), query), s.topK * 2), visionRuleIds, s, r)
    {
      if !s.enabled || index.docs == [] {
        return Retrieval(PackIds(pack.rules), [], map[], false);
      }
      var ranked := index.Query(log, query, s.topK * 2);
      r := DrawShortlist(pack, ranked, visionRuleIds, s);
    }
  }
}
