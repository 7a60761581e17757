/**
  What each extractor run adds to the document, and when the order in which the runs
  complete cannot show in it (src/zataone/core/pipeline_run.py, lines 46-76;
  src/zataone/document/builder.py, lines 200-296).
 */
module RunParts {
  import opened Options
  import opened Signals
  import opened Sequences
  import opened StableSort
  import opened Extraction
  import opened DocumentBuilder

  // The parts that signals are sorted into. A document is built from these alone, except
  // that it also lists the ids of its signals.
  datatype Parts = Parts(ocr: seq<Signal>, asr: seq<Transcript>, vision: seq<Signal>, timeline: seq<Signal>)

  function AsParts(d: Buckets): Parts {
    Parts(d.ocr, d.asr, d.vision, d.timeline)
  }

  function PartsOf(signals: seq<Signal>): Parts {
    AsParts(SortOut(signals))
  }

  function Then(p: Parts, q: Parts): Parts {
    Parts(p.ocr + q.ocr, p.asr + q.asr, p.vision + q.vision, p.timeline + q.timeline)
  }

  predicate Commute(p: Parts, q: Parts) {
    Then(p, q) == Then(q, p)
  }

  lemma ThenAssociates(p: Parts, q: Parts, r: Parts)
    ensures Then(Then(p, q), r) == Then(p, Then(q, r))
  {
  }

  lemma SortOutSnoc(signals: seq<Signal>, s: Signal)
    ensures SortOut(signals + [s]) == AddSignal(SortOut(signals), s)
  {
    assert (signals + [s])[..|signals|] == signals;
  }

  lemma AddedPart(d: Buckets, s: Signal)
    ensures AsParts(AddSignal(d, s)) == Then(AsParts(d), AsParts(AddSignal(Buckets([], [], [], [], []), s)))
  {
    if IsOcr(s) {
    } else if IsAsr(s) {
    } else if IsVisionObject(s) {
    }
  }

  lemma PartsSnoc(signals: seq<Signal>, s: Signal)
    ensures PartsOf(signals + [s]) == Then(PartsOf(signals), PartsOf([s]))
  {
    SortOutSnoc(signals, s);
    SortOutSnoc([], s);
    assert [] + [s] == [s];
    AddedPart(SortOut(signals), s);
  }

  lemma {:induction false} PartsConcat(a: seq<Signal>, b: seq<Signal>)
    ensures PartsOf(a + b) == Then(PartsOf(a), PartsOf(b))
  {
    if b == [] {
      assert a + b == a;
    } else {
      var n := |b| - 1;
      var before, x := b[..n], PartsOf([b[n]]);
      assert b == before + [b[n]] && a + b == (a + before) + [b[n]];
      PartsConcat(a, before);
      PartsSnoc(a + before, b[n]);
      PartsSnoc(before, b[n]);
      ThenAssociates(PartsOf(a), PartsOf(before), x);
    }
  }

  function RunPart(run: Run): Parts {
    PartsOf(run.signals)
  }

  function PartsOfOrder(order: seq<Run>): Parts {
    PartsOf(MergeAll(order).signals)
  }

  lemma OrderConcat(a: seq<Run>, b: seq<Run>)
    ensures PartsOfOrder(a + b) == Then(PartsOfOrder(a), PartsOfOrder(b))
  {
    MergedSignals(a);
    MergedSignals(b);
    MergedSignals(a + b);
    FlatMapConcat(a, b, SignalsOf());
    PartsConcat(MergeAll(a).signals, MergeAll(b).signals);
  }

  lemma OneRun(run: Run)
    ensures PartsOfOrder([run]) == RunPart(run)
  {
    assert [run][..0] == [];
    assert MergeAll([run]).signals == run.signals;
  }

  lemma OrderSnoc(order: seq<Run>, run: Run)
    ensures PartsOfOrder(order + [run]) == Then(PartsOfOrder(order), RunPart(run))
  {
    OrderConcat(order, [run]);
    OneRun(run);
  }

  /******* When the order of completion does not show *******/

  // Whatever order any two runs complete in, they fill the parts alike.
  ghost predicate RunsCommute(runs: seq<Run>) {
    forall a, b :: a in runs && b in runs ==> Commute(RunPart(a), RunPart(b))
  }

  lemma CommuteThen(p: Parts, q: Parts, x: Parts)
    requires Commute(p, x) && Commute(q, x)
    ensures Commute(Then(p, q), x)
  {
    ThenAssociates(p, q, x);
    ThenAssociates(p, x, q);
    ThenAssociates(x, p, q);
  }

  lemma {:induction false} CommuteWithAll(order: seq<Run>, x: Run)
    requires forall y :: y in order ==> Commute(RunPart(y), RunPart(x))
    ensures Commute(PartsOfOrder(order), RunPart(x))
  {
    if order != [] {
      var n := |order| - 1;
      CommuteWithAll(order[..n], x);
      assert order == order[..n] + [order[n]];
      OrderSnoc(order[..n], order[n]);
      CommuteThen(PartsOfOrder(order[..n]), RunPart(order[n]), RunPart(x));
    }
  }

  // A run that commutes with those after it may as well complete last.
  lemma MoveLast(order: seq<Run>, i: nat)
    requires i < |order|
    requires forall y :: y in order[i + 1..] ==> Commute(RunPart(y), RunPart(order[i]))
    ensures PartsOfOrder(order) == Then(PartsOfOrder(order[..i] + order[i + 1..]), RunPart(order[i]))
  {
    var before, x, after := order[..i], order[i], order[i + 1..];
    assert order == (before + [x]) + after;
    OrderConcat(before + [x], after);
    OrderSnoc(before, x);
    OrderConcat(before, after);
    CommuteWithAll(after, x);
    ThenAssociates(PartsOfOrder(before), RunPart(x), PartsOfOrder(after));
    ThenAssociates(PartsOfOrder(before), PartsOfOrder(after), RunPart(x));
  }

  lemma {:induction false} CommutingRunsSameParts(runs: seq<Run>, order: seq<Run>)
    requires RunsCommute(runs) && multiset(order) == multiset(runs)
    ensures PartsOfOrder(order) == PartsOfOrder(runs)
    decreases |runs|
  {
    if runs == [] {
      assert |multiset(order)| == |order| && |multiset(runs)| == 0;
    } else {
      var n := |runs| - 1;
      var x := runs[n];
      var i := MatchLast(runs, order);
      SameMembers(order, runs);
      CommutingRunsSameParts(runs[..n], order[..i] + order[i + 1..]);
      MoveLast(order, i);
      assert runs == runs[..n] + [x];
      OrderSnoc(runs[..n], x);
    }
  }

  lemma WithoutOne(runs: seq<Run>, a: Run) returns (rest: seq<Run>)
    requires a in runs
    ensures multiset(runs) == multiset(rest) + multiset{a}
  {
    var k :| 0 <= k < |runs| && runs[k] == a;
    rest := runs[..k] + runs[k + 1..];
    RemoveFromMultiset(runs, k);
  }

  // A schedule in which two given runs complete last.
  lemma TwoLast(runs: seq<Run>, a: Run, b: Run) returns (rest: seq<Run>)
    requires a in runs && b in runs && a != b
    ensures multiset(rest + [a] + [b]) == multiset(runs) == multiset(rest + [b] + [a])
  {
    var others := WithoutOne(runs, a);
    assert b in multiset(runs) && b in multiset(others);
    rest := WithoutOne(others, b);
    AddLast(rest, a, b, multiset(runs));
    AddLast(rest, b, a, multiset(runs));
  }

  lemma AddLast(rest: seq<Run>, a: Run, b: Run, all: multiset<Run>)
    requires multiset(rest) + multiset{a} + multiset{b} == all
    ensures multiset(rest + [a] + [b]) == all
  {
  }

  lemma SamePrefix<T>(a: seq<T>, b: seq<T>, c: seq<T>)
    requires a + b == a + c
    ensures b == c
  {
    assert (a + b)[|a|..] == b && (a + c)[|a|..] == c;
  }

  lemma ThenCancels(p: Parts, q: Parts, r: Parts)
    requires Then(p, q) == Then(p, r)
    ensures q == r
  {
    SamePrefix(p.ocr, q.ocr, r.ocr);
    SamePrefix(p.asr, q.asr, r.asr);
    SamePrefix(p.vision, q.vision, r.vision);
    SamePrefix(p.timeline, q.timeline, r.timeline);
  }

  lemma TwoOrdersCommute(rest: seq<Run>, a: Run, b: Run)
    requires PartsOfOrder(rest + [a] + [b]) == PartsOfOrder(rest + [b] + [a])
    ensures Commute(RunPart(a), RunPart(b))
  {
    var p, x, y := PartsOfOrder(rest), RunPart(a), RunPart(b);
    OrderSnoc(rest, a);
    OrderSnoc(rest + [a], b);
    OrderSnoc(rest, b);
    OrderSnoc(rest + [b], a);
    ThenAssociates(p, x, y);
    ThenAssociates(p, y, x);
    ThenCancels(p, Then(x, y), Then(y, x));
  }

  ghost predicate PartsFree(runs: seq<Run>) {
    forall order: seq<Run> :: multiset(order) == multiset(runs) ==> PartsOfOrder(order) == PartsOfOrder(runs)
  }

  lemma FreePartsCommute(runs: seq<Run>, a: Run, b: Run)
    requires PartsFree(runs) && a in runs && b in runs
    ensures Commute(RunPart(a), RunPart(b))
  {
    if a != b {
      var rest := TwoLast(runs, a, b);
      TwoOrdersCommute(rest, a, b);
    }
  }

  // Main theorem: every order of completion sorts the signals into the same parts exactly
  // when any two of the runs commute.
  lemma PartsFreeIff(runs: seq<Run>)
    ensures PartsFree(runs) <==> RunsCommute(runs)
  {
    if RunsCommute(runs) {
      forall order: seq<Run> | multiset(order) == multiset(runs)
        ensures PartsOfOrder(order) == PartsOfOrder(runs)
      {
        CommutingRunsSameParts(runs, order);
      }
    }
    if PartsFree(runs) {
      forall a, b | a in runs && b in runs ensures Commute(RunPart(a), RunPart(b)) {
        FreePartsCommute(runs, a, b);
      }
    }
  }

  /******* One source for each part *******/

  predicate Apart(p: Parts, q: Parts) {
    && (p.ocr == [] || q.ocr == [])
    && (p.asr == [] || q.asr == [])
    && (p.vision == [] || q.vision == [])
    && (p.timeline == [] || q.timeline == [])
  }

  // No two runs fill the same part.
  ghost predicate OneSource(runs: seq<Run>) {
    forall i, j :: 0 <= i < j < |runs| ==> Apart(RunPart(runs[i]), RunPart(runs[j]))
  }

  lemma ApartCommute(p: Parts, q: Parts)
    requires Apart(p, q)
    ensures Commute(p, q) && Commute(q, p)
  {
  }

  lemma OneSourceCommutes(runs: seq<Run>)
    requires OneSource(runs)
    ensures RunsCommute(runs)
  {
    forall a, b | a in runs && b in runs ensures Commute(RunPart(a), RunPart(b)) {
      var i :| 0 <= i < |runs| && runs[i] == a;
      var j :| 0 <= j < |runs| && runs[j] == b;
      if i < j {
        ApartCommute(RunPart(runs[i]), RunPart(runs[j]));
      } else if j < i {
        ApartCommute(RunPart(runs[j]), RunPart(runs[i]));
      }
    }
  }

  // What the repository's own extractors report for an asset of a given kind: one of them
  // the words of an image, one its objects, one the speech of an audio file and one that
  // of a video; none a timeline.
  predicate OwnSignal(id: string, kind: Option<string>, s: Signal) {
    && (IsOcr(s) ==> id == "ad_compliance_ocr")
    && (IsVisionObject(s) ==> id == "ad_compliance_vision")
    && (IsAsr(s) ==> (kind == Some("audio") && id == "ad_compliance_asr")
                     || (kind == Some("video") && id == "video_extractor"))
    && !IsTimeline(s)
  }

  ghost predicate OwnRun(kind: Option<string>, run: Run) {
    forall s :: s in run.signals ==> OwnSignal(run.id, kind, s)
  }

  // Only signals of its kind fill a part.
  predicate FilledBy(p: Parts, s: Signal) {
    && (p.ocr != [] ==> IsOcr(s))
    && (p.asr != [] ==> IsAsr(s))
    && (p.vision != [] ==> IsVisionObject(s))
    && (p.timeline != [] ==> IsTimeline(s))
  }

  lemma FilledByOne(s: Signal)
    ensures FilledBy(PartsOf([s]), s)
  {
    SortOutSnoc([], s);
    assert [] + [s] == [s];
  }

  lemma {:induction false} FilledBySome(signals: seq<Signal>)
    ensures var p := PartsOf(signals);
            && (p.ocr != [] ==> exists s :: s in signals && IsOcr(s))
            && (p.asr != [] ==> exists s :: s in signals && IsAsr(s))
            && (p.vision != [] ==> exists s :: s in signals && IsVisionObject(s))
            && (p.timeline != [] ==> exists s :: s in signals && IsTimeline(s))
  {
    if signals != [] {
      var n := |signals| - 1;
      FilledBySome(signals[..n]);
      FilledByOne(signals[n]);
      PartsSnoc(signals[..n], signals[n]);
      assert signals == signals[..n] + [signals[n]];
    }
  }

  lemma OwnRunsApart(kind: Option<string>, a: Run, b: Run)
    requires OwnRun(kind, a) && OwnRun(kind, b) && a.id != b.id
    ensures Apart(RunPart(a), RunPart(b))
  {
    FilledBySome(a.signals);
    FilledBySome(b.signals);
  }

  // Under distinct ids, as the registry keys them, the repository's own extractors are
  // one source each.
  lemma OwnRunsOneSource(kind: Option<string>, runs: seq<Run>)
    requires forall i, j :: 0 <= i < j < |runs| ==> runs[i].id != runs[j].id
    requires forall run :: run in runs ==> OwnRun(kind, run)
    ensures OneSource(runs)
  {
    forall i, j | 0 <= i < j < |runs| ensures Apart(RunPart(runs[i]), RunPart(runs[j])) {
      OwnRunsApart(kind, runs[i], runs[j]);
    }
  }

  /******* The document built from the parts *******/

  // Spans that differ at most in the signals they name.
  predicate SamePlaces(a: seq<Span>, b: seq<Span>) {
    |a| == |b| && forall k :: 0 <= k < |a| ==> a[k].(signalId := "") == b[k].(signalId := "")
  }

  lemma SamePlacesAdded(b1: Page, b2: Page, s1: Page, s2: Page)
    requires b1.text == b2.text && SamePlaces(b1.spans, b2.spans)
    requires s1.text == s2.text && SamePlaces(s1.spans, s2.spans)
    ensures var r1, r2 := AddSection(b1, s1), AddSection(b2, s2);
            r1.text == r2.text && SamePlaces(r1.spans, r2.spans)
  {
  }

  // The text and the places of the spans depend on the parts alone.
  lemma SamePartsSameText(a: Asset, s1: seq<Signal>, s2: seq<Signal>)
    requires PartsOf(s1) == PartsOf(s2)
    ensures BuiltDocument(a, s1).text == BuiltDocument(a, s2).text
    ensures SamePlaces(BuiltDocument(a, s1).spans, BuiltDocument(a, s2).spans)
  {
    var d, e := SortOut(s1), SortOut(s2);
    var none := Page("", []);
    var c1, c2 := AddSection(none, TextSection(a, d.ids)), AddSection(none, TextSection(a, e.ids));
    SamePlacesAdded(none, none, TextSection(a, d.ids), TextSection(a, e.ids));
    SamePlacesAdded(c1, c2, OcrPage(d.ocr), OcrPage(e.ocr));
    var o1, o2 := AddSection(c1, OcrPage(d.ocr)), AddSection(c2, OcrPage(e.ocr));
    SamePlacesAdded(o1, o2, AsrSection(d.asr), AsrSection(e.asr));
    var t := TimelineSection(Sort(TimelineEntries(d.timeline), ByTime));
    SamePlacesAdded(AddSection(o1, AsrSection(d.asr)), AddSection(o2, AsrSection(e.asr)), t, t);
  }
}
