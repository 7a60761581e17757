/**
  Rebuilding the policy timeline from the corpus, the published change history and the
  timeline's own previous version (ontology/tools/build_policy_timeline.py, lines 29-121).
 */
module Timeline {
  import opened Options
  import opened Sequences
  import opened StableSort

  datatype Clause = Clause(
    id: string,
    sourceId: string,
    categoryId: Option<string>,
    version: Option<Option<string>>,       // None: no such key; Some(None): the key holds null
    effectiveDate: Option<string>,
    lastVerified: Option<Option<string>>,
    status: Option<Option<string>>,
    supersededBy: Option<string>,
    url: Option<string>,
    section: Option<string>)

  datatype Change = Change(date: Option<string>, version: Option<string>, summary: Option<string>, url: Option<string>)

  datatype Policy = Policy(sourceId: Option<string>, title: Option<string>, history: seq<Change>)

  datatype Body =
    | Introduced(version: Option<string>, sourceId: string, url: Option<string>, section: Option<string>)
    | Superseded(version: Option<string>, successor: string, url: Option<string>)
    | Modified(change: Change, title: Option<string>)
    | Written(text: string)

  datatype Event = Event(date: Option<string>, manual: bool, body: Body)

  datatype Entry = Entry(
    clauseId: Option<string>,
    sourceId: string,
    categoryId: Option<string>,
    version: Option<string>,
    status: Option<string>,
    events: seq<Event>)

  /******* Orders *******/

  // Python compares strings by their first different character.
  predicate StringLe(s: string, t: string) {
    s == [] || (t != [] && (s[0] < t[0] || (s[0] == t[0] && StringLe(s[1..], t[1..]))))
  }

  // str(e.get("date") or "")
  function DateKey(e: Event): string {
    e.date.GetOr("")
  }

  const DateLe: (Event, Event) -> bool := (e: Event, f: Event) => StringLe(DateKey(e), DateKey(f))

  const IdLe: (Clause, Clause) -> bool := (c: Clause, d: Clause) => StringLe(c.id, d.id)

  lemma {:induction false} StringLeTotal(s: string, t: string)
    ensures StringLe(s, t) || StringLe(t, s)
  {
    if s != [] && t != [] { StringLeTotal(s[1..], t[1..]); }
  }

  lemma {:induction false} StringLeTransitive(s: string, t: string, u: string)
    requires StringLe(s, t) && StringLe(t, u)
    ensures StringLe(s, u)
  {
    if s != [] && s[0] == t[0] && t[0] == u[0] { StringLeTransitive(s[1..], t[1..], u[1..]); }
  }

  lemma OrdersAreTotal()
    ensures TotalPreorder(DateLe) && TotalPreorder(IdLe)
  {
    forall e, f ensures DateLe(e, f) || DateLe(f, e) { StringLeTotal(DateKey(e), DateKey(f)); }
    forall e, f, g | DateLe(e, f) && DateLe(f, g) ensures DateLe(e, g) {
      StringLeTransitive(DateKey(e), DateKey(f), DateKey(g));
    }
    forall c, d ensures IdLe(c, d) || IdLe(d, c) { StringLeTotal(c.id, d.id); }
    forall c, d, e | IdLe(c, d) && IdLe(d, e) ensures IdLe(c, e) { StringLeTransitive(c.id, d.id, e.id); }
  }

  /******* Clauses by source *******/

  function FromSource(id: string): Clause -> bool {
    (c: Clause) => c.sourceId == id
  }

  // The sources in the order in which the corpus first mentions them.
  function FirstSeen(clauses: seq<Clause>): seq<string> {
    if clauses == [] then []
    else
      var n := |clauses| - 1;
      var seen := FirstSeen(clauses[..n]);
      if clauses[n].sourceId in seen then seen else seen + [clauses[n].sourceId]
  }

  lemma OneMore(clauses: seq<Clause>, k: nat, id: string)
    requires k < |clauses|
    ensures Keep(clauses[..k + 1], FromSource(id)) ==
            Keep(clauses[..k], FromSource(id)) + if id == clauses[k].sourceId then [clauses[k]] else []
  {
    KeepConcat(clauses[..k], [clauses[k]], FromSource(id));
    assert clauses[..k + 1] == clauses[..k] + [clauses[k]];
  }

  lemma {:induction false} FirstSeenMembers(clauses: seq<Clause>, id: string)
    ensures id in FirstSeen(clauses) <==> Keep(clauses, FromSource(id)) != []
  {
    if clauses != [] {
      var n := |clauses| - 1;
      FirstSeenMembers(clauses[..n], id);
      OneMore(clauses, n, id);
      assert clauses[..n + 1] == clauses;
    }
  }

  // clauses_by_source: a dictionary of lists, whose keys keep the order of insertion.
  method ClausesBySource(clauses: seq<Clause>) returns (sources: seq<string>, bySource: map<string, seq<Clause>>)
    ensures sources == FirstSeen(clauses)
    ensures forall id :: id in bySource <==> id in sources
    ensures forall id :: id in bySource ==> bySource[id] == Keep(clauses, FromSource(id))
  {
    sources, bySource := [], map[];
    for k := 0 to |clauses|
      invariant sources == FirstSeen(clauses[..k])
      invariant forall id :: id in bySource <==> id in sources
      invariant forall id :: id in bySource ==> bySource[id] == Keep(clauses[..k], FromSource(id))
    {
      var c := clauses[k];
      assert clauses[..k + 1][..k] == clauses[..k];
      FirstSeenMembers(clauses[..k], c.sourceId);
      ghost var was := bySource;
      var others := if c.sourceId in bySource then bySource[c.sourceId] else [];
      OneMore(clauses, k, c.sourceId);
      if c.sourceId !in bySource {
        sources := sources + [c.sourceId];
      }
      bySource := bySource[c.sourceId := others + [c]];
      forall id | id in bySource ensures bySource[id] == Keep(clauses[..k + 1], FromSource(id)) {
        OneMore(clauses, k, id);
        assert id != c.sourceId ==> id in was && bySource[id] == was[id];
      }
    }
    assert clauses[..|clauses|] == clauses;
  }

  function SortedOfSource(clauses: seq<Clause>): string -> seq<Clause> {
    (id: string) => Sort(Keep(clauses, FromSource(id)), IdLe)
  }

  // The clauses in the order in which the timeline lists them.
  function Ordered(clauses: seq<Clause>): seq<Clause> {
    FlatMap(FirstSeen(clauses), SortedOfSource(clauses))
  }

  /******* Manual events of the previous version *******/

  const IsManual: Event -> bool := (e: Event) => e.manual

  const IsAuto: Event -> bool := (e: Event) => !e.manual

  // The manual events of the last entry for the clause that has any.
  function ManualOf(existing: seq<Entry>, id: Option<string>): seq<Event> {
    if existing == [] then []
    else
      var last := existing[|existing| - 1];
      if last.clauseId == id && Keep(last.events, IsManual) != [] then Keep(last.events, IsManual)
      else ManualOf(existing[..|existing| - 1], id)
  }

  method ReadManual(existing: seq<Entry>) returns (manual: map<Option<string>, seq<Event>>)
    ensures forall id :: id in manual <==> ManualOf(existing, id) != []
    ensures forall id :: id in manual ==> manual[id] == ManualOf(existing, id)
  {
    manual := map[];
    for k := 0 to |existing|
      invariant forall id :: id in manual <==> ManualOf(existing[..k], id) != []
      invariant forall id :: id in manual ==> manual[id] == ManualOf(existing[..k], id)
    {
      var entry := existing[k];
      assert existing[..k + 1][..k] == existing[..k];
      var manualEvents := Keep(entry.events, IsManual);
      if manualEvents != [] {
        manual := manual[entry.clauseId := manualEvents];
      }
    }
    assert existing[..|existing|] == existing;
  }

  /******* The events of one clause *******/

  // cl.get("version", "") and cl.get("status", "active")
  function VersionOf(c: Clause): Option<string> {
    c.version.GetOr(Some(""))
  }

  function StatusOf(c: Clause): Option<string> {
    c.status.GetOr(Some("active"))
  }

  predicate IsSuperseded(c: Clause) {
    c.status == Some(Some("superseded")) && c.supersededBy.Some? && c.supersededBy != Some("")
  }

  function ChangesOf(p: Policy): seq<Event> {
    seq(|p.history|, i requires 0 <= i < |p.history| =>
      Event(p.history[i].date, false, Modified(p.history[i], p.title)))
  }

  function ChangesFor(id: string): Policy -> seq<Event> {
    (p: Policy) => if p.sourceId == Some(id) then ChangesOf(p) else []
  }

  function LifecycleEvents(c: Clause): seq<Event> {
    [Event(c.effectiveDate, false, Introduced(VersionOf(c), c.sourceId, c.url, c.section))] +
    if IsSuperseded(c) then
      [Event(c.lastVerified.GetOr(c.effectiveDate), false, Superseded(VersionOf(c), c.supersededBy.value, c.url))]
    else []
  }

  function AutoEvents(c: Clause, policies: seq<Policy>): seq<Event> {
    LifecycleEvents(c) + FlatMap(policies, ChangesFor(c.sourceId))
  }

  function EntryOf(c: Clause, policies: seq<Policy>, manual: seq<Event>): Entry {
    Entry(Some(c.id), c.sourceId, c.categoryId, VersionOf(c), StatusOf(c),
          Sort(AutoEvents(c, policies) + manual, DateLe))
  }

  method AppendChanges(events: seq<Event>, p: Policy) returns (r: seq<Event>)
    ensures r == events + ChangesOf(p)
  {
    r := events;
    for j := 0 to |p.history|
      invariant r == events + ChangesOf(p)[..j]
    {
      r := r + [Event(p.history[j].date, false, Modified(p.history[j], p.title))];
    }
  }

  method AppendHistory(events: seq<Event>, sourceId: string, policies: seq<Policy>) returns (r: seq<Event>)
    ensures r == events + FlatMap(policies, ChangesFor(sourceId))
  {
    var f := ChangesFor(sourceId);
    r := events;
    for i := 0 to |policies|
      invariant r == events + FlatMap(policies[..i], f)
    {
      FlatMapSnoc(policies, i, f);
      if policies[i].sourceId == Some(sourceId) {
        r := AppendChanges(r, policies[i]);
      }
    }
    assert policies[..|policies|] == policies;
  }

  method BuildEntry(c: Clause, policies: seq<Policy>, manual: map<Option<string>, seq<Event>>) returns (entry: Entry)
    ensures entry == EntryOf(c, policies, if Some(c.id) in manual then manual[Some(c.id)] else [])
  {
    var events := [Event(c.effectiveDate, false, Introduced(VersionOf(c), c.sourceId, c.url, c.section))];
    if IsSuperseded(c) {
      events := events +
        [Event(c.lastVerified.GetOr(c.effectiveDate), false, Superseded(VersionOf(c), c.supersededBy.value, c.url))];
    }
    events := AppendHistory(events, c.sourceId, policies);
    assert events == AutoEvents(c, policies);
    if Some(c.id) in manual {
      events := events + manual[Some(c.id)];
    } else {
      assert events == events + [];
    }
    events := Sort(events, DateLe);
    entry := Entry(Some(c.id), c.sourceId, c.categoryId, VersionOf(c), StatusOf(c), events);
  }

  /******* The whole file *******/

  function EntryFor(policies: seq<Policy>, existing: seq<Entry>): Clause -> seq<Entry> {
    (c: Clause) => [EntryOf(c, policies, ManualOf(existing, Some(c.id)))]
  }

  function Rebuilt(clauses: seq<Clause>, policies: seq<Policy>, existing: seq<Entry>): seq<Entry> {
    FlatMap(Ordered(clauses), EntryFor(policies, existing))
  }

  method AppendEntries(timeline: seq<Entry>, group: seq<Clause>, policies: seq<Policy>,
                       manual: map<Option<string>, seq<Event>>, ghost existing: seq<Entry>)
    returns (r: seq<Entry>)
    requires forall id :: id in manual <==> ManualOf(existing, id) != []
    requires forall id :: id in manual ==> manual[id] == ManualOf(existing, id)
    ensures r == timeline + FlatMap(group, EntryFor(policies, existing))
  {
    ghost var f := EntryFor(policies, existing);
    r := timeline;
    for j := 0 to |group|
      invariant r == timeline + FlatMap(group[..j], f)
    {
      FlatMapSnoc(group, j, f);
      var entry := BuildEntry(group[j], policies, manual);
      r := r + [entry];
    }
    assert group[..|group|] == group;
  }

  // main; a missing file is an empty one.
  method Rebuild(clauses: seq<Clause>, policies: seq<Policy>, existing: seq<Entry>) returns (timeline: seq<Entry>)
    ensures timeline == Rebuilt(clauses, policies, existing)
  {
    var sources, bySource := ClausesBySource(clauses);
    var manual := ReadManual(existing);
    ghost var f, g := EntryFor(policies, existing), SortedOfSource(clauses);
    timeline := [];
    for i := 0 to |sources|
      invariant timeline == FlatMap(FlatMap(sources[..i], g), f)
    {
      FlatMapSnoc(sources, i, g);
      FlatMapConcat(FlatMap(sources[..i], g), g(sources[i]), f);
      timeline := AppendEntries(timeline, Sort(bySource[sources[i]], IdLe), policies, manual, existing);
    }
    assert sources[..|sources|] == sources;
  }
}
