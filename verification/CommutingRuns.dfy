/**
  Runs that commute leave the whole outcome free of the schedule, in both modes and with
  retrieval on or off (src/zataone/core/pipeline_run.py, lines 46-86;
  src/zataone/core/pipeline.py, lines 349-452). The repository's own extractors commute.
 */
module CommutingRuns {
  import opened Options
  import opened Sequences
  import opened StableSort
  import opened Signals
  import opened Dsl
  import opened Violations
  import opened Engine
  import opened Extraction
  import opened Pipeline
  import opened RunParts
  import opened Verdict
  import Bm25
  import DocumentBuilder
  import DocumentMode
  import EngineMeaning
  import Retriever
  import Schedule
  import Scoring

  /******* Violations apart from the signals they name *******/

  function Unnamed(): Violation -> seq<Violation> {
    (v: Violation) => [v.(signalId := "")]
  }

  function AllUnnamed(vs: seq<Violation>): seq<Violation> {
    FlatMap(vs, Unnamed())
  }

  // The same violations in some order, apart from the signals they name.
  ghost predicate SameFindings(vs: seq<Violation>, ws: seq<Violation>) {
    multiset(AllUnnamed(vs)) == multiset(AllUnnamed(ws))
  }

  lemma PermutedFindings(vs: seq<Violation>, ws: seq<Violation>)
    requires multiset(vs) == multiset(ws)
    ensures SameFindings(vs, ws)
  {
    FlatMapPermutes(vs, ws, Unnamed());
  }

  lemma FindingsConcat(a: seq<Violation>, b: seq<Violation>, c: seq<Violation>, d: seq<Violation>)
    requires SameFindings(a, c) && SameFindings(b, d)
    ensures SameFindings(a + b, c + d)
  {
    FlatMapConcat(a, b, Unnamed());
    FlatMapConcat(c, d, Unnamed());
  }

  lemma {:induction false} FindingsOfAll<T>(s: seq<T>, f: T -> seq<Violation>, g: T -> seq<Violation>)
    requires forall x :: x in s ==> SameFindings(f(x), g(x))
    ensures SameFindings(FlatMap(s, f), FlatMap(s, g))
  {
    if s != [] {
      var n := |s| - 1;
      FindingsOfAll(s[..n], f, g);
      assert s[n] in s;
      FindingsConcat(FlatMap(s[..n], f), f(s[n]), FlatMap(s[..n], g), g(s[n]));
    }
  }

  // The score asks for neither the order nor the signals.
  lemma {:induction false} TotalUnnamed(vs: seq<Violation>)
    ensures Scoring.Total(AllUnnamed(vs)) == Scoring.Total(vs)
  {
    if vs != [] {
      var n := |vs| - 1;
      TotalUnnamed(vs[..n]);
      Scoring.TotalConcat(AllUnnamed(vs[..n]), [vs[n].(signalId := "")]);
      OneTotal(vs[n].(signalId := ""));
    }
  }

  lemma OneTotal(v: Violation)
    ensures Scoring.Total([v]) == Scoring.Contribution(v)
  {
    assert [v][..0] == [];
  }

  lemma SameFindingsSameScore(vs: seq<Violation>, ws: seq<Violation>)
    requires SameFindings(vs, ws)
    ensures Scoring.RiskScore(vs) == Scoring.RiskScore(ws)
  {
    TotalUnnamed(vs);
    TotalUnnamed(ws);
    Scoring.TotalOrderFree(AllUnnamed(vs), AllUnnamed(ws));
  }

  lemma SameScoreSameState(i: RunInput, j: RunInput)
    requires j == i.(violations := j.violations)
    requires Scoring.RiskScore(i.violations) == Scoring.RiskScore(j.violations)
    ensures RunState(i) == RunState(j)
  {
  }

  /******* Two inputs that say the same *******/

  // The same signals in some order, with the same document text and places of spans.
  ghost predicate SaysTheSame(i: Input, j: Input) {
    && EngineMeaning.SameSignals(i, j)
    && (i.document.Some? ==>
          && i.document.value.text == j.document.value.text
          && SamePlaces(i.document.value.spans, j.document.value.spans))
  }

  lemma {:induction false} SameBox(a: seq<Span>, b: seq<Span>, start: nat)
    requires SamePlaces(a, b)
    ensures BoxAt(a, start) == BoxAt(b, start)
  {
    if a != [] {
      assert a[0].(signalId := "") == b[0].(signalId := "");
      forall k | 0 <= k < |a[1..]| ensures a[1..][k].(signalId := "") == b[1..][k].(signalId := "") {
        assert a[k + 1].(signalId := "") == b[k + 1].(signalId := "");
      }
      SameBox(a[1..], b[1..], start);
    }
  }

  lemma SameMatchViolation(e: Entry, i: Input, j: Input, m: Match)
    requires SaysTheSame(i, j) && i.document.Some?
    ensures SameFindings(MatchViolation(e, i)(m), MatchViolation(e, j)(m))
  {
    SameBox(i.document.value.spans, j.document.value.spans, m.hit.span.start);
    FlatMapOne(MatchViolation(e, i)(m), Unnamed());
    FlatMapOne(MatchViolation(e, j)(m), Unnamed());
  }

  lemma FragmentFindings(re: Search, e: Entry, i: Input, j: Input)
    requires SaysTheSame(i, j) && i.document.None?
    ensures SameFindings(FlatMap(TextMatches(re, e, i), MatchViolation(e, i)),
                         FlatMap(TextMatches(re, e, j), MatchViolation(e, j)))
    ensures TextMatches(re, e, i) == [] <==> TextMatches(re, e, j) == []
  {
    assert i == Input(i.signals, None) && j == Input(j.signals, None);
    EngineMeaning.MatchesPermute(re, e, i.signals, j.signals);
    PermutedFindings(FlatMap(TextMatches(re, e, i), MatchViolation(e, i)),
                     FlatMap(TextMatches(re, e, j), MatchViolation(e, j)));
    EngineMeaning.TextMatchesPermute(re, e, i.signals, j.signals);
    EngineMeaning.EmptyPermutes(TextMatches(re, e, i), TextMatches(re, e, j));
  }

  lemma DocumentFindings(e: Entry, i: Input, j: Input, ms: seq<Match>)
    requires SaysTheSame(i, j) && i.document.Some?
    ensures SameFindings(FlatMap(ms, MatchViolation(e, i)), FlatMap(ms, MatchViolation(e, j)))
  {
    forall m | m in ms ensures SameFindings(MatchViolation(e, i)(m), MatchViolation(e, j)(m)) {
      SameMatchViolation(e, i, j, m);
    }
    FindingsOfAll(ms, MatchViolation(e, i), MatchViolation(e, j));
  }

  lemma MatchFindings(re: Search, e: Entry, i: Input, j: Input)
    requires SaysTheSame(i, j)
    ensures SameFindings(FlatMap(TextMatches(re, e, i), MatchViolation(e, i)),
                         FlatMap(TextMatches(re, e, j), MatchViolation(e, j)))
    ensures TextMatches(re, e, i) == [] <==> TextMatches(re, e, j) == []
  {
    if i.document.None? {
      FragmentFindings(re, e, i, j);
    } else {
      assert TextMatches(re, e, i) == TextMatches(re, e, j);
      DocumentFindings(e, i, j, TextMatches(re, e, i));
    }
  }

  lemma OtherFindings(t: Tables, e: Entry, i: Input, j: Input)
    requires SaysTheSame(i, j)
    ensures SameFindings(FlatMap(VisionMatches(e, i), ObjectViolation(e, i)),
                         FlatMap(VisionMatches(e, j), ObjectViolation(e, j)))
    ensures SameFindings(EmbeddingPart(t, e, i), EmbeddingPart(t, e, j))
    ensures SameFindings(SupportPart(t, e, i), SupportPart(t, e, j))
    ensures VisionMatches(e, i) == [] <==> VisionMatches(e, j) == []
  {
    EngineMeaning.VisionMatchesPermute(e, i, j);
    EngineMeaning.EmptyPermutes(VisionMatches(e, i), VisionMatches(e, j));
    EngineMeaning.ObjectsPermute(e, i, j, VisionMatches(e, i), VisionMatches(e, j));
    EngineMeaning.EvidencePartsPermute(t, e, i, j);
    PermutedFindings(FlatMap(VisionMatches(e, i), ObjectViolation(e, i)),
                     FlatMap(VisionMatches(e, j), ObjectViolation(e, j)));
    PermutedFindings(EmbeddingPart(t, e, i), EmbeddingPart(t, e, j));
    PermutedFindings(SupportPart(t, e, i), SupportPart(t, e, j));
  }

  lemma FourFindings(a: seq<Violation>, b: seq<Violation>, c: seq<Violation>, d: seq<Violation>,
                     a': seq<Violation>, b': seq<Violation>, c': seq<Violation>, d': seq<Violation>)
    requires SameFindings(a, a') && SameFindings(b, b') && SameFindings(c, c') && SameFindings(d, d')
    ensures SameFindings(a + b + c + d, a' + b' + c' + d')
  {
    FindingsConcat(a, b, a', b');
    FindingsConcat(a + b, c, a' + b', c');
    FindingsConcat(a + b + c, d, a' + b' + c', d');
  }

  lemma AssembledFindings(re: Search, t: Tables, e: Entry, i: Input, j: Input)
    requires SaysTheSame(i, j)
    ensures SameFindings(Assembled(re, t, e, i), Assembled(re, t, e, j))
    ensures Triggered(re, e, i) <==> Triggered(re, e, j)
  {
    MatchFindings(re, e, i, j);
    OtherFindings(t, e, i, j);
    EngineMeaning.FourParts(re, t, e, i);
    EngineMeaning.FourParts(re, t, e, j);
    FourFindings(FlatMap(TextMatches(re, e, i), MatchViolation(e, i)),
                 FlatMap(VisionMatches(e, i), ObjectViolation(e, i)), EmbeddingPart(t, e, i), SupportPart(t, e, i),
                 FlatMap(TextMatches(re, e, j), MatchViolation(e, j)),
                 FlatMap(VisionMatches(e, j), ObjectViolation(e, j)), EmbeddingPart(t, e, j), SupportPart(t, e, j));
  }

  // A pack finds the same in two inputs that say the same, in both modes.
  lemma ExpectedFindings(re: Search, t: Tables, pack: seq<Entry>, i: Input, j: Input, active: Option<set<string>>)
    requires SaysTheSame(i, j)
    ensures SameFindings(Expected(re, t, pack, i, active), Expected(re, t, pack, j, active))
  {
    var f, g := Output(re, t, i, active), Output(re, t, j, active);
    forall e | e in pack ensures SameFindings(f(e), g(e)) {
      AssembledFindings(re, t, e, i, j);
    }
    FindingsOfAll(pack, f, g);
  }

  lemma SameTextsRaise(re: Search, pack: seq<Entry>, i: Input, j: Input, active: Option<set<string>>)
    requires SaysTheSame(i, j)
    ensures Raises(re, pack, i, active) <==> Raises(re, pack, j, active)
  {
    if i.document.None? {
      KeepPermutes(i.signals, j.signals, IsTextSignal);
      SameElements(Keep(i.signals, IsTextSignal), Keep(j.signals, IsTextSignal));
      FragmentRaisesIff(re, pack, Keep(i.signals, IsTextSignal), active);
      FragmentRaisesIff(re, pack, Keep(j.signals, IsTextSignal), active);
    }
  }

  /******* The whole run *******/

  // What a run hands to the engine, given an order of completion.
  function InputOf(asset: DocumentBuilder.Asset, order: seq<Run>, documentCentric: bool): Input {
    EngineInput(asset, MergeAll(order).signals, documentCentric)
  }

  lemma CommutingRunsSaySame(asset: DocumentBuilder.Asset, runs: seq<Run>, order1: seq<Run>, order2: seq<Run>,
                             documentCentric: bool)
    requires RunsCommute(runs) && multiset(order1) == multiset(runs) && multiset(order2) == multiset(runs)
    ensures Schedule.TextOfOrder(asset, order1) == Schedule.TextOfOrder(asset, order2)
    ensures SaysTheSame(InputOf(asset, order1, documentCentric), InputOf(asset, order2, documentCentric))
  {
    CommutingRunsSameParts(runs, order1);
    CommutingRunsSameParts(runs, order2);
    SamePartsSameText(asset, MergeAll(order1).signals, MergeAll(order2).signals);
    DocumentMode.OrderedSignals(order1, order2);
  }

  // The violations of a run are those of the pack under the shortlist drawn from its document.
  ghost predicate FoundBy(re: Search, log: Bm25.Log, t: Tables, pack: seq<Entry>, p: Option<Retriever.Pack>,
                          s: Retriever.Settings, asset: DocumentBuilder.Asset, order: seq<Run>, documentCentric: bool,
                          vs: seq<Violation>)
  {
    var active := DrawnFor(log, p, Schedule.TextOfOrder(asset, order), pack, s);
    multiset(vs) == multiset(Expected(re, t, pack, InputOf(asset, order, documentCentric), active))
  }

  lemma CommutingRunsFindSame(re: Search, log: Bm25.Log, t: Tables, pack: seq<Entry>, p: Option<Retriever.Pack>,
                              s: Retriever.Settings, asset: DocumentBuilder.Asset, runs: seq<Run>, order1: seq<Run>,
                              order2: seq<Run>, documentCentric: bool, vs1: seq<Violation>, vs2: seq<Violation>)
    requires RunsCommute(runs) && multiset(order1) == multiset(runs) && multiset(order2) == multiset(runs)
    requires FoundBy(re, log, t, pack, p, s, asset, order1, documentCentric, vs1)
    requires FoundBy(re, log, t, pack, p, s, asset, order2, documentCentric, vs2)
    ensures SameFindings(vs1, vs2)
    ensures !documentCentric ==> multiset(vs1) == multiset(vs2)
  {
    var i, j := InputOf(asset, order1, documentCentric), InputOf(asset, order2, documentCentric);
    var active := DrawnFor(log, p, Schedule.TextOfOrder(asset, order1), pack, s);
    CommutingRunsSaySame(asset, runs, order1, order2, documentCentric);
    ExpectedFindings(re, t, pack, i, j, active);
    PermutedFindings(vs1, Expected(re, t, pack, i, active));
    PermutedFindings(vs2, Expected(re, t, pack, j, active));
    if !documentCentric { EngineMeaning.SignalOrderFree(re, t, pack, active, i.signals, j.signals); }
  }

  // Main theorem: when the runs commute, which can be told before they are merged, no
  // schedule shows in the outcome, in either mode and with retrieval on or off. The text,
  // the raising, the stored state and the review state are the same; so are the violations,
  // except that in document mode a text may be laid to another of the signals.
  lemma CommutingRunsScheduleFree(re: Search, log: Bm25.Log, t: Tables, pack: seq<Entry>, p: Option<Retriever.Pack>,
                                  s: Retriever.Settings, asset: DocumentBuilder.Asset, runs: seq<Run>,
                                  order1: seq<Run>, order2: seq<Run>, documentCentric: bool,
                                  vs1: seq<Violation>, vs2: seq<Violation>, engineOn: bool, review: Option<Review>)
    requires AgreeById(runs) && RunsCommute(runs)
    requires multiset(order1) == multiset(runs) && multiset(order2) == multiset(runs)
    requires FoundBy(re, log, t, pack, p, s, asset, order1, documentCentric, vs1)
    requires FoundBy(re, log, t, pack, p, s, asset, order2, documentCentric, vs2)
    ensures var active := DrawnFor(log, p, Schedule.TextOfOrder(asset, order1), pack, s);
            && active == DrawnFor(log, p, Schedule.TextOfOrder(asset, order2), pack, s)
            && (Raises(re, pack, InputOf(asset, order1, documentCentric), active)
                <==> Raises(re, pack, InputOf(asset, order2, documentCentric), active))
    ensures SameFindings(vs1, vs2)
    ensures !documentCentric ==> multiset(vs1) == multiset(vs2)
    ensures Schedule.Stored(order1, vs1, engineOn, review) == Schedule.Stored(order2, vs2, engineOn, review)
  {
    var active := DrawnFor(log, p, Schedule.TextOfOrder(asset, order1), pack, s);
    CommutingRunsSaySame(asset, runs, order1, order2, documentCentric);
    SameTextsRaise(re, pack, InputOf(asset, order1, documentCentric), InputOf(asset, order2, documentCentric), active);
    CommutingRunsFindSame(re, log, t, pack, p, s, asset, runs, order1, order2, documentCentric, vs1, vs2);
    SameFindingsSameOutcome(runs, order1, order2, vs1, vs2, engineOn, review);
  }

  lemma SameFindingsSameOutcome(runs: seq<Run>, order1: seq<Run>, order2: seq<Run>, vs1: seq<Violation>,
                                vs2: seq<Violation>, engineOn: bool, review: Option<Review>)
    requires AgreeById(runs) && multiset(order1) == multiset(runs) && multiset(order2) == multiset(runs)
    requires SameFindings(vs1, vs2)
    ensures Schedule.Stored(order1, vs1, engineOn, review) == Schedule.Stored(order2, vs2, engineOn, review)
  {
    AgreeingRunsOrderFree(runs, order1);
    AgreeingRunsOrderFree(runs, order2);
    SameElements(MergeAll(order1).signals, MergeAll(order2).signals);
    SameFindingsSameScore(vs1, vs2);
    var i := RunInput(Full, engineOn, MergeAll(order1).failed, |MergeAll(order1).signals|, vs1, review);
    SameScoreSameState(i, i.(violations := vs2));
  }

  // The repository's own extractors commute, so no run of theirs depends on the schedule.
  lemma OwnExtractorsScheduleFree(re: Search, log: Bm25.Log, t: Tables, pack: seq<Entry>, p: Option<Retriever.Pack>,
                                  s: Retriever.Settings, asset: DocumentBuilder.Asset, runs: seq<Run>,
                                  order1: seq<Run>, order2: seq<Run>, documentCentric: bool,
                                  vs1: seq<Violation>, vs2: seq<Violation>, engineOn: bool, review: Option<Review>)
    requires forall i, j :: 0 <= i < j < |runs| ==> runs[i].id != runs[j].id
    requires forall run :: run in runs ==> OwnRun(asset.kind, run)
    requires multiset(order1) == multiset(runs) && multiset(order2) == multiset(runs)
    requires FoundBy(re, log, t, pack, p, s, asset, order1, documentCentric, vs1)
    requires FoundBy(re, log, t, pack, p, s, asset, order2, documentCentric, vs2)
    ensures SameFindings(vs1, vs2)
    ensures Schedule.Stored(order1, vs1, engineOn, review) == Schedule.Stored(order2, vs2, engineOn, review)
  {
    DistinctIdsAgree(runs);
    OwnRunsOneSource(asset.kind, runs);
    OneSourceCommutes(runs);
    CommutingRunsScheduleFree(re, log, t, pack, p, s, asset, runs, order1, order2, documentCentric, vs1, vs2,
                              engineOn, review);
  }
}
