/** What regenerating the timeline keeps: its order, its manual events, and itself. */
module TimelineMeaning {
  import opened Options
  import opened Sequences
  import opened StableSort
  import opened Timeline

  /******* Stable sorting and parts of a list *******/

  lemma {:induction false} KeepSorted<T(!new)>(s: seq<T>, p: T -> bool, le: (T, T) -> bool)
    requires Sorted(s, le)
    ensures Sorted(Keep(s, p), le)
  {
    if s != [] {
      var rest := s[1..];
      SortedTail(s, le);
      KeepSorted(rest, p, le);
      KeepMembers(rest, p);
      if p(s[0]) { SortedCons(s[0], Keep(rest, p), le); }
    }
  }

  // Filtering commutes with a stable sort.
  lemma KeepOfSort<T(!new)>(s: seq<T>, p: T -> bool, le: (T, T) -> bool)
    requires TotalPreorder(le)
    ensures Keep(Sort(s, le), p) == Sort(Keep(s, p), le)
  {
    SortSorted(s, le);
    KeepSorted(Sort(s, le), p, le);
    SortSorted(Keep(s, p), le);
    forall x ensures Equals(Keep(Sort(s, le), p), x, le) == Equals(Sort(Keep(s, p), le), x, le) {
      KeepEquals(Sort(s, le), p, x, le);
      SortStable(s, x, le);
      KeepEquals(s, p, x, le);
      SortStable(Keep(s, p), x, le);
    }
    SortedUnique(Keep(Sort(s, le), p), Sort(Keep(s, p), le), le);
  }

  // Sorting part of a list first makes no difference.
  lemma SortAgain<T(!new)>(s: seq<T>, t: seq<T>, le: (T, T) -> bool)
    requires TotalPreorder(le)
    ensures Sort(s + Sort(t, le), le) == Sort(s + t, le)
  {
    var a, b := s + Sort(t, le), s + t;
    SortSorted(a, le);
    SortSorted(b, le);
    forall x ensures Equals(Sort(a, le), x, le) == Equals(Sort(b, le), x, le) {
      SortStable(a, x, le);
      SortStable(b, x, le);
      EqualsConcat(s, Sort(t, le), x, le);
      EqualsConcat(s, t, x, le);
      SortStable(t, x, le);
    }
    SortedUnique(Sort(a, le), Sort(b, le), le);
  }

  /******* The order of dates *******/

  // Python's order of strings: nothing comes before something, then the first characters
  // decide, then the rest.
  lemma StringsInOrder(c: char, d: char, s: string, t: string)
    ensures StringLe("", t) && !StringLe([c] + s, "")
    ensures c < d ==> StringLe([c] + s, [d] + t) && !StringLe([d] + t, [c] + s)
    ensures StringLe([c] + s, [c] + t) <==> StringLe(s, t)
  {
    assert ([c] + s)[1..] == s && ([c] + t)[1..] == t && ([d] + t)[1..] == t;
  }

  // Events without a date come first, the others in the order of their dates.
  lemma DatesInOrder(e: Event, f: Event)
    ensures e.date == None ==> DateLe(e, f)
    ensures e.date.Some? && f.date.Some? ==> (DateLe(e, f) <==> StringLe(e.date.value, f.date.value))
    ensures f.date == None && e.date.Some? && e.date.value != "" ==> !DateLe(e, f)
  {
  }

  /******* One entry *******/

  lemma {:induction false} ManualOfIsManual(existing: seq<Entry>, id: Option<string>)
    ensures forall e :: e in ManualOf(existing, id) ==> e.manual
  {
    if existing != [] {
      KeepMembers(existing[|existing| - 1].events, IsManual);
      ManualOfIsManual(existing[..|existing| - 1], id);
    }
  }

  lemma {:induction false} AutoEventsAreAuto(c: Clause, policies: seq<Policy>)
    ensures forall e :: e in AutoEvents(c, policies) ==> !e.manual
  {
    FlatMapMembers(policies, ChangesFor(c.sourceId));
  }

  // A rebuilt entry is in date order and holds, in a stable order, the seeded events of
  // its clause and the given manual events, each exactly once.
  lemma EntryIsExact(c: Clause, policies: seq<Policy>, manual: seq<Event>)
    requires forall e :: e in manual ==> e.manual
    ensures Sorted(EntryOf(c, policies, manual).events, DateLe)
    ensures Keep(EntryOf(c, policies, manual).events, IsManual) == Sort(manual, DateLe)
    ensures Keep(EntryOf(c, policies, manual).events, IsAuto) == Sort(AutoEvents(c, policies), DateLe)
  {
    var auto := AutoEvents(c, policies);
    OrdersAreTotal();
    SortSorted(auto + manual, DateLe);
    AutoEventsAreAuto(c, policies);
    KeepOfSort(auto + manual, IsManual, DateLe);
    KeepOfSort(auto + manual, IsAuto, DateLe);
    KeepConcat(auto, manual, IsManual);
    KeepConcat(auto, manual, IsAuto);
    KeepNone(auto, IsManual);
    KeepAll(manual, IsManual);
    KeepAll(auto, IsAuto);
    KeepNone(manual, IsAuto);
    assert [] + manual == manual && auto + [] == auto;
  }

  // The marker of a clause that was superseded by another, dated when it was last verified,
  // or else by its effective date.
  ghost predicate IsMarker(c: Clause, e: Event) {
    && c.status == Some(Some("superseded")) && c.supersededBy.Some? && c.supersededBy.value != ""
    && e.date == (if c.lastVerified.Some? then c.lastVerified.value else c.effectiveDate)
    && e.body == Superseded(if c.version.Some? then c.version.value else Some(""), c.supersededBy.value, c.url)
  }

  // The event of a clause's first appearance.
  ghost predicate IsIntroduction(c: Clause, e: Event) {
    && e.date == c.effectiveDate
    && e.body == Introduced(if c.version.Some? then c.version.value else Some(""), c.sourceId, c.url, c.section)
  }

  ghost predicate IsChangeAt(p: Policy, j: int, e: Event) {
    0 <= j < |p.history| && e.date == p.history[j].date && e.body == Modified(p.history[j], p.title)
  }

  // A published change of a policy of the clause's source.
  ghost predicate IsChange(c: Clause, policies: seq<Policy>, e: Event) {
    exists p, j :: p in policies && p.sourceId == Some(c.sourceId) && IsChangeAt(p, j, e)
  }

  lemma ChangeOf(p: Policy, e: Event)
    ensures e in ChangesOf(p) <==> !e.manual && exists j :: IsChangeAt(p, j, e)
  {
    if e in ChangesOf(p) {
      var j :| 0 <= j < |ChangesOf(p)| && ChangesOf(p)[j] == e;
      assert IsChangeAt(p, j, e);
    }
    if j :| IsChangeAt(p, j, e) && !e.manual {
      assert ChangesOf(p)[j] == e;
    }
  }

  lemma ChangesAre(c: Clause, policies: seq<Policy>, e: Event)
    ensures e in FlatMap(policies, ChangesFor(c.sourceId)) <==> !e.manual && IsChange(c, policies, e)
  {
    FlatMapMembers(policies, ChangesFor(c.sourceId));
    forall p ensures e in ChangesFor(c.sourceId)(p)
      <==> !e.manual && p.sourceId == Some(c.sourceId) && exists j :: IsChangeAt(p, j, e) {
      ChangeOf(p, e);
    }
  }

  lemma LifecycleEventsAre(c: Clause, e: Event)
    ensures e in LifecycleEvents(c) <==> !e.manual && (IsIntroduction(c, e) || IsMarker(c, e))
  {
  }

  lemma AutoEventsAre(c: Clause, policies: seq<Policy>, e: Event)
    ensures e in AutoEvents(c, policies)
       <==> !e.manual && (IsIntroduction(c, e) || IsMarker(c, e) || IsChange(c, policies, e))
  {
    LifecycleEventsAre(c, e);
    ChangesAre(c, policies, e);
  }

  lemma EntryEventsAre(c: Clause, policies: seq<Policy>, manual: seq<Event>, e: Event)
    ensures e in EntryOf(c, policies, manual).events <==> e in AutoEvents(c, policies) || e in manual
  {
    var all := AutoEvents(c, policies) + manual;
    SortPermutes(all, DateLe);
    SameElements(Sort(all, DateLe), all);
  }

  // What a rebuilt entry holds besides the manual events: the introduction, the marker of a
  // superseded clause, and the published changes of its source; its version and status are
  // the clause's, or "" and "active".
  lemma EventsOfEntry(c: Clause, policies: seq<Policy>, manual: seq<Event>, e: Event)
    requires forall m :: m in manual ==> m.manual
    ensures var entry := EntryOf(c, policies, manual);
            && (e in entry.events && !e.manual
                <==> !e.manual && (IsIntroduction(c, e) || IsMarker(c, e) || IsChange(c, policies, e)))
            && (e in entry.events && e.manual <==> e in manual)
            && entry.clauseId == Some(c.id) && entry.sourceId == c.sourceId && entry.categoryId == c.categoryId
            && entry.version == (if c.version.Some? then c.version.value else Some(""))
            && entry.status == (if c.status.Some? then c.status.value else Some("active"))
  {
    AutoEventsAre(c, policies, e);
    EntryEventsAre(c, policies, manual, e);
  }

  /******* Which clauses, in which order *******/

  ghost predicate Distinct(ids: seq<string>) {
    forall i, j :: 0 <= i < j < |ids| ==> ids[i] != ids[j]
  }

  lemma {:induction false} FirstSeenDistinct(clauses: seq<Clause>)
    ensures Distinct(FirstSeen(clauses))
  {
    if clauses != [] {
      FirstSeenDistinct(clauses[..|clauses| - 1]);
      var seen := FirstSeen(clauses[..|clauses| - 1]);
      assert FirstSeen(clauses) == seen || FirstSeen(clauses) == seen + [clauses[|clauses| - 1].sourceId];
    }
  }

  lemma GroupCount(clauses: seq<Clause>, id: string, c: Clause)
    ensures multiset(SortedOfSource(clauses)(id))[c] == if c.sourceId == id then multiset(clauses)[c] else 0
  {
    SortPermutes(Keep(clauses, FromSource(id)), IdLe);
    KeepCount(clauses, FromSource(id), c);
  }

  lemma {:induction false} OrderedCount(clauses: seq<Clause>, ids: seq<string>, c: Clause)
    requires Distinct(ids)
    ensures multiset(FlatMap(ids, SortedOfSource(clauses)))[c] == if c.sourceId in ids then multiset(clauses)[c] else 0
  {
    if ids != [] {
      var n := |ids| - 1;
      OrderedCount(clauses, ids[..n], c);
      GroupCount(clauses, ids[n], c);
      FlatMapLast(ids, SortedOfSource(clauses));
      assert ids == ids[..n] + [ids[n]];
    }
  }

  lemma SourceSeen(clauses: seq<Clause>, c: Clause)
    requires c in clauses
    ensures c.sourceId in FirstSeen(clauses)
  {
    FirstSeenMembers(clauses, c.sourceId);
    KeepMembers(clauses, FromSource(c.sourceId));
    assert c in Keep(clauses, FromSource(c.sourceId));
  }

  lemma ListedOnce(clauses: seq<Clause>, c: Clause)
    ensures multiset(Ordered(clauses))[c] == multiset(clauses)[c]
  {
    FirstSeenDistinct(clauses);
    OrderedCount(clauses, FirstSeen(clauses), c);
    if c in clauses { SourceSeen(clauses, c); }
  }

  // The timeline lists every clause of the corpus exactly once.
  lemma OrderedPermutes(clauses: seq<Clause>)
    ensures multiset(Ordered(clauses)) == multiset(clauses)
  {
    var ordered := multiset(Ordered(clauses));
    assert forall c: Clause :: ordered[c] == multiset(clauses)[c] by {
      forall c: Clause ensures ordered[c] == multiset(clauses)[c] { ListedOnce(clauses, c); }
    }
  }

  predicate InCorpus(clauses: seq<Clause>, id: Option<string>) {
    exists c :: c in clauses && Some(c.id) == id
  }

  lemma OrderedIds(clauses: seq<Clause>, id: Option<string>)
    ensures InCorpus(Ordered(clauses), id) <==> InCorpus(clauses, id)
  {
    OrderedPermutes(clauses);
    SameElements(Ordered(clauses), clauses);
  }

  /******* Rebuilding again *******/

  lemma ManualOfSnoc(existing: seq<Entry>, e: Entry, id: Option<string>)
    ensures ManualOf(existing + [e], id) ==
            if e.clauseId == id && Keep(e.events, IsManual) != [] then Keep(e.events, IsManual)
            else ManualOf(existing, id)
  {
    assert (existing + [e])[..|existing|] == existing;
  }

  lemma CorpusSnoc(cs: seq<Clause>, n: nat, id: Option<string>)
    requires n == |cs| - 1
    ensures InCorpus(cs, id) <==> InCorpus(cs[..n], id) || Some(cs[n].id) == id
  {
    assert cs == cs[..n] + [cs[n]];
  }

  // What the next run will read back as manual.
  lemma {:induction false} ManualOfRebuilt(cs: seq<Clause>, policies: seq<Policy>, existing: seq<Entry>,
                                           id: Option<string>)
    ensures ManualOf(FlatMap(cs, EntryFor(policies, existing)), id) ==
            if InCorpus(cs, id) then Sort(ManualOf(existing, id), DateLe) else []
  {
    if cs != [] {
      var n, f := |cs| - 1, EntryFor(policies, existing);
      ManualOfRebuilt(cs[..n], policies, existing, id);
      CorpusSnoc(cs, n, id);
      EntryReadBack(cs[n], policies, existing);
      ManualOfSnoc(FlatMap(cs[..n], f), f(cs[n])[0], id);
      assert f(cs[n]) == [f(cs[n])[0]];
    }
  }

  lemma EntryReadBack(c: Clause, policies: seq<Policy>, existing: seq<Entry>)
    ensures var f := EntryFor(policies, existing);
            && f(c)[0].clauseId == Some(c.id)
            && Keep(f(c)[0].events, IsManual) == Sort(ManualOf(existing, Some(c.id)), DateLe)
  {
    ManualOfIsManual(existing, Some(c.id));
    EntryIsExact(c, policies, ManualOf(existing, Some(c.id)));
  }

  // Main theorem: regenerating from its own output, with the corpus and the published
  // history unchanged, gives the same entries in the same order.
  lemma RebuildIsIdempotent(clauses: seq<Clause>, policies: seq<Policy>, existing: seq<Entry>)
    ensures var once := Rebuilt(clauses, policies, existing); Rebuilt(clauses, policies, once) == once
  {
    var once := Rebuilt(clauses, policies, existing);
    forall c | c in Ordered(clauses)
      ensures EntryFor(policies, once)(c) == EntryFor(policies, existing)(c)
    {
      ManualOfRebuilt(Ordered(clauses), policies, existing, Some(c.id));
      assert InCorpus(Ordered(clauses), Some(c.id));
      OrdersAreTotal();
      SortAgain(AutoEvents(c, policies), ManualOf(existing, Some(c.id)), DateLe);
    }
    FlatMapSame(Ordered(clauses), EntryFor(policies, once), EntryFor(policies, existing));
  }

  /******* Manual events *******/

  function ManualIn(id: Option<string>): Entry -> seq<Event> {
    (e: Entry) => if e.clauseId == id then Keep(e.events, IsManual) else []
  }

  // All manual events that the file holds for a clause.
  function AllManual(existing: seq<Entry>, id: Option<string>): seq<Event> {
    FlatMap(existing, ManualIn(id))
  }

  // At most one of the clause's entries has manual events.
  ghost predicate SingleHolder(existing: seq<Entry>, id: Option<string>) {
    forall i, j :: 0 <= i < j < |existing| ==> ManualIn(id)(existing[i]) == [] || ManualIn(id)(existing[j]) == []
  }

  lemma HolderSnoc(existing: seq<Entry>, n: nat, id: Option<string>)
    requires n == |existing| - 1
    ensures SingleHolder(existing, id) <==>
            if ManualIn(id)(existing[n]) == [] then SingleHolder(existing[..n], id)
            else forall i :: 0 <= i < n ==> ManualIn(id)(existing[i]) == []
  {
    assert forall i :: 0 <= i < n ==> existing[..n][i] == existing[i];
    if SingleHolder(existing, id) && ManualIn(id)(existing[n]) != [] {
      forall i | 0 <= i < n ensures ManualIn(id)(existing[i]) == [] {
        assert 0 <= i < n < |existing|;
      }
    }
  }

  lemma NoHolder(existing: seq<Entry>, id: Option<string>)
    ensures AllManual(existing, id) == [] <==> forall i :: 0 <= i < |existing| ==> ManualIn(id)(existing[i]) == []
  {
    var f := ManualIn(id);
    if AllManual(existing, id) == [] {
      FlatMapNothing(existing, f);
      assert forall i :: 0 <= i < |existing| ==> existing[i] in existing;
    } else if forall i :: 0 <= i < |existing| ==> f(existing[i]) == [] {
      FlatMapEmpty(existing, f);
    }
  }

  // What the last entry contributes to the file's manual events, and to those read back.
  lemma LastEntry(existing: seq<Entry>, init: seq<Entry>, last: seq<Event>, id: Option<string>)
    requires existing != [] && init == existing[..|existing| - 1]
    requires last == ManualIn(id)(existing[|existing| - 1])
    ensures AllManual(existing, id) == AllManual(init, id) + last
    ensures ManualOf(existing, id) == if last != [] then last else ManualOf(init, id)
  {
  }

  // The part that is read back ends the whole, and is the whole exactly when one entry
  // holds it.
  lemma {:induction false} ReadBackIsSuffix(existing: seq<Entry>, id: Option<string>) returns (lost: seq<Event>)
    ensures AllManual(existing, id) == lost + ManualOf(existing, id)
    ensures lost == [] <==> SingleHolder(existing, id)
  {
    if existing == [] {
      lost := [];
    } else {
      var n := |existing| - 1;
      var init := existing[..n];
      HolderSnoc(existing, n, id);
      LastEntry(existing, init, ManualIn(id)(existing[n]), id);
      if ManualIn(id)(existing[n]) == [] {
        lost := ReadBackIsSuffix(init, id);
      } else {
        lost := AllManual(init, id);
        NoHolder(init, id);
        assert forall i :: 0 <= i < n ==> init[i] == existing[i];
      }
    }
  }

  lemma EntryHolds(c: Clause, policies: seq<Policy>, existing: seq<Entry>)
    ensures var e := EntryFor(policies, existing)(c)[0];
            multiset(Keep(e.events, IsManual)) == multiset(AllManual(existing, Some(c.id)))
            <==> SingleHolder(existing, Some(c.id))
  {
    var manual := ManualOf(existing, Some(c.id));
    EntryReadBack(c, policies, existing);
    SortPermutes(manual, DateLe);
    var lost := ReadBackIsSuffix(existing, Some(c.id));
    assert |multiset(lost)| == |lost|;
    assert multiset(AllManual(existing, Some(c.id))) == multiset(lost) + multiset(manual);
  }

  lemma EntryComesFrom(clauses: seq<Clause>, policies: seq<Policy>, existing: seq<Entry>, e: Entry) returns (c: Clause)
    requires e in Rebuilt(clauses, policies, existing)
    ensures c in Ordered(clauses) && [e] == EntryFor(policies, existing)(c)
  {
    var f := EntryFor(policies, existing);
    FlatMapMembers(Ordered(clauses), f);
    c :| c in Ordered(clauses) && e in f(c);
  }

  lemma EntryFound(clauses: seq<Clause>, policies: seq<Policy>, existing: seq<Entry>, c: Clause)
    requires c in Ordered(clauses)
    ensures EntryFor(policies, existing)(c)[0] in Rebuilt(clauses, policies, existing)
  {
    var f := EntryFor(policies, existing);
    FlatMapMembers(Ordered(clauses), f);
    assert f(c)[0] in f(c);
  }

  // The rebuilt timeline has an entry for a clause exactly when the corpus has the clause.
  lemma EntryIffInCorpus(clauses: seq<Clause>, policies: seq<Policy>, existing: seq<Entry>, id: Option<string>)
    ensures InCorpus(clauses, id) <==> exists e :: e in Rebuilt(clauses, policies, existing) && e.clauseId == id
  {
    OrderedIds(clauses, id);
    if InCorpus(clauses, id) {
      var c :| c in Ordered(clauses) && Some(c.id) == id;
      EntryFound(clauses, policies, existing, c);
      assert EntryFor(policies, existing)(c)[0].clauseId == id;
    }
    if e :| e in Rebuilt(clauses, policies, existing) && e.clauseId == id {
      var c := EntryComesFrom(clauses, policies, existing, e);
      assert EntryFor(policies, existing)(c)[0] == e;
    }
  }

  // Main theorem: an entry of the rebuilt timeline holds all of its clause's manual
  // events, none twice, exactly when at most one entry of the old file held any.
  lemma ManualEventsSurviveIff(clauses: seq<Clause>, policies: seq<Policy>, existing: seq<Entry>, e: Entry)
    requires e in Rebuilt(clauses, policies, existing)
    ensures multiset(Keep(e.events, IsManual)) == multiset(AllManual(existing, e.clauseId)) <==>
            SingleHolder(existing, e.clauseId)
  {
    var c := EntryComesFrom(clauses, policies, existing, e);
    EntryHolds(c, policies, existing);
    assert EntryFor(policies, existing)(c)[0] == e;
  }

  // When two hand-edited entries of one clause hold manual events, the first one's are lost.
  lemma SecondHolderReplacesFirst(c: Clause, policies: seq<Policy>, a: Entry, b: Entry)
    requires ManualIn(Some(c.id))(a) != [] && ManualIn(Some(c.id))(b) != []
    ensures AllManual([a, b], Some(c.id)) == ManualIn(Some(c.id))(a) + ManualIn(Some(c.id))(b)
    ensures Keep(EntryFor(policies, [a, b])(c)[0].events, IsManual) == Sort(ManualIn(Some(c.id))(b), DateLe)
  {
    FlatMapConcat([a], [b], ManualIn(Some(c.id)));
    assert [a] + [b] == [a, b] && [a][..0] == [];
    EntryReadBack(c, policies, [a, b]);
  }

  /******* Files the tool wrote itself *******/

  const ClauseId: Clause -> string := (c: Clause) => c.id

  // With distinct clause ids, the tool's own files lose no manual event, also when the
  // next run sees another corpus.
  lemma OwnFilesHaveSingleHolders(clauses: seq<Clause>, policies: seq<Policy>, existing: seq<Entry>, id: Option<string>)
    requires DistinctBy(clauses, ClauseId)
    ensures SingleHolder(Rebuilt(clauses, policies, existing), id)
  {
    OrderedPermutes(clauses);
    DistinctPermute(clauses, Ordered(clauses), ClauseId);
    EntriesMatch(Ordered(clauses), policies, existing);
  }

  lemma {:induction false} EntriesMatch(cs: seq<Clause>, policies: seq<Policy>, existing: seq<Entry>)
    ensures var entries := FlatMap(cs, EntryFor(policies, existing));
            |entries| == |cs| && forall k :: 0 <= k < |cs| ==> entries[k].clauseId == Some(cs[k].id)
  {
    if cs != [] { EntriesMatch(cs[..|cs| - 1], policies, existing); }
  }
}
