/**
  The double-checked pipeline cache (src/zataone/api/routes.py, lines 60-71) as a
  machine of threads. A dictionary test, a dictionary store and a lock operation are
  one step each; any number of threads interleave at every step.
 */
module PipelineCache {
  import opened Options
  import opened Text

  /******* Keys *******/

  const KNOWN_JURISDICTIONS := {"US", "EU", "UK", "CA", "AU", "SG", "IN", "BR"}

  // JurisdictionRouter.normalize
  function NormalizeJurisdiction(j: Option<string>): string {
    if j.GetOr("") == "" then "US"
    else if Upper(Strip(j.value)) in KNOWN_JURISDICTIONS then Upper(Strip(j.value))
    else "US"
  }

  function CacheKey(domain: string, jurisdiction: Option<string>): string {
    domain + ":" + NormalizeJurisdiction(jurisdiction)
  }

  // Eight codes are known, whatever their case and the blanks around them; a jurisdiction
  // that is missing, empty or unknown is read as US.
  lemma JurisdictionRead(j: Option<string>)
    ensures NormalizeJurisdiction(None) == NormalizeJurisdiction(Some("")) == "US"
    ensures NormalizeJurisdiction(j) in {"US", "EU", "UK", "CA", "AU", "SG", "IN", "BR"}
    ensures j.Some? && Upper(Strip(j.value)) in {"US", "EU", "UK", "CA", "AU", "SG", "IN", "BR"} ==>
              NormalizeJurisdiction(j) == Upper(Strip(j.value))
    ensures j.Some? && Upper(Strip(j.value)) !in {"US", "EU", "UK", "CA", "AU", "SG", "IN", "BR"} ==>
              NormalizeJurisdiction(j) == "US"
    ensures forall domain :: CacheKey(domain, None) == domain + ":US"
  {
    assert Strip("") == "" && Upper("") == "";
    assert |"US"| == 2 && |"EU"| == 2 && |"UK"| == 2 && |"CA"| == 2;
    assert |"AU"| == 2 && |"SG"| == 2 && |"IN"| == 2 && |"BR"| == 2;
  }

  // The key stands for exactly one domain and one normalised jurisdiction.
  lemma KeyIsInjective(d1: string, j1: Option<string>, d2: string, j2: Option<string>)
    ensures CacheKey(d1, j1) == CacheKey(d2, j2)
       <==> d1 == d2 && NormalizeJurisdiction(j1) == NormalizeJurisdiction(j2)
  {
    var n1, n2 := NormalizeJurisdiction(j1), NormalizeJurisdiction(j2);
    assert |n1| == |n2| == 2;
    var k1, k2 := CacheKey(d1, j1), CacheKey(d2, j2);
    if k1 == k2 {
      assert k1[..|k1| - 3] == d1 && k1[|k1| - 2..] == n1;
      assert k2[..|k2| - 3] == d2 && k2[|k2| - 2..] == n2;
    }
  }

  /******* The machine *******/

  type Thread = nat
  type Pipeline = nat  // the identity of a pipeline object

  datatype Phase =
    | Testing(key: string)      // before the unlocked test
    | Waiting(key: string)      // wants the lock
    | Retesting(key: string)    // holds the lock, before the second test
    | Building(key: string)     // holds the lock, in the constructor
    | Storing(key: string, built: Pipeline)
    | Unwinding(key: string)    // the constructor raised; leaving the `with` block
    | Leaving(key: string)      // leaving the `with` block normally
    | Reading(key: string)      // before `return _pipeline_cache[key]`
    | Returned(key: string, result: Pipeline)
    | Raised(key: string)

  datatype Log = Log(key: string, pipeline: Pipeline)

  datatype Machine = Machine(
    stored: map<string, Pipeline>,
    lock: Option<Thread>,
    threads: map<Thread, Phase>,
    created: seq<Log>,    // successful constructions, in order
    returned: seq<Log>)   // results handed to callers, in order

  const INITIAL := Machine(map[], None, map[], [], [])

  // A thread calls _get_pipeline, or takes its next step; a constructor may succeed or raise.
  datatype Action = Call(thread: Thread, key: string) | Advance(thread: Thread, succeeds: bool)

  predicate Ended(p: Phase) {
    p.Returned? || p.Raised?
  }

  function To(m: Machine, t: Thread, p: Phase): Machine {
    m.(threads := m.threads[t := p])
  }

  function Step(m: Machine, a: Action): Machine {
    match a
    case Call(t, key) => if t in m.threads && !Ended(m.threads[t]) then m else To(m, t, Testing(key))
    case Advance(t, succeeds) =>
      if t !in m.threads then m
      else
        match m.threads[t]
        case Testing(k) => To(m, t, if k in m.stored then Reading(k) else Waiting(k))
        case Waiting(k) => if m.lock.Some? then m else To(m, t, Retesting(k)).(lock := Some(t))
        case Retesting(k) => To(m, t, if k in m.stored then Leaving(k) else Building(k))
        case Building(k) =>
          if succeeds then To(m, t, Storing(k, |m.created|)).(created := m.created + [Log(k, |m.created|)])
          else To(m, t, Unwinding(k))
        case Storing(k, p) => To(m, t, Leaving(k)).(stored := m.stored[k := p])
        case Unwinding(k) => To(m, t, Raised(k)).(lock := None)
        case Leaving(k) => To(m, t, Reading(k)).(lock := None)
        case Reading(k) =>
          if k in m.stored then To(m, t, Returned(k, m.stored[k])).(returned := m.returned + [Log(k, m.stored[k])])
          else To(m, t, Raised(k))  // the KeyError that never comes
        case Returned(_, _) => m
        case Raised(_) => m
  }

  function Steps(actions: seq<Action>): Machine {
    if actions == [] then INITIAL else Step(Steps(actions[..|actions| - 1]), actions[|actions| - 1])
  }

  /******* The invariant *******/

  predicate HoldsLock(p: Phase) {
    p.Retesting? || p.Building? || p.Storing? || p.Unwinding? || p.Leaving?
  }

  ghost predicate LockOk(m: Machine) {
    forall t :: t in m.threads && HoldsLock(m.threads[t]) ==> m.lock == Some(t)
  }

  ghost predicate PhaseOk(m: Machine, p: Phase) {
    match p
    case Building(k) => k !in m.stored
    case Storing(k, b) => k !in m.stored && Log(k, b) in m.created
    case Leaving(k) => k in m.stored
    case Reading(k) => k in m.stored
    case Returned(k, b) => Log(k, b) in m.returned
    case _ => true
  }

  ghost predicate ThreadsOk(m: Machine) {
    forall t :: t in m.threads ==> PhaseOk(m, m.threads[t])
  }

  // A construction is in the cache or in the hands of the thread that is storing it.
  ghost predicate CreatedOk(m: Machine) {
    && (forall c :: c in m.created ==>
          || (c.key in m.stored && m.stored[c.key] == c.pipeline)
          || (exists t :: t in m.threads && m.threads[t] == Storing(c.key, c.pipeline)))
    && (forall i, j :: 0 <= i < j < |m.created| ==> m.created[i].key != m.created[j].key)
  }

  ghost predicate ReturnedOk(m: Machine) {
    forall r :: r in m.returned ==> r.key in m.stored && m.stored[r.key] == r.pipeline
  }

  ghost predicate Inv(m: Machine) {
    LockOk(m) && ThreadsOk(m) && CreatedOk(m) && ReturnedOk(m)
  }

  // Steps that leave the cache and the constructions alone.
  lemma MoveKeeps(m: Machine, t: Thread, p: Phase, lock: Option<Thread>)
    requires Inv(m) && !p.Storing? && (t in m.threads ==> !m.threads[t].Storing?)
    requires PhaseOk(m, p)
    requires HoldsLock(p) ==> lock == Some(t)
    requires lock == m.lock
             || (lock == Some(t) && m.lock.None?)
             || (lock.None? && m.lock == Some(t) && !HoldsLock(p))
    ensures Inv(To(m, t, p).(lock := lock))
  {
    var n := To(m, t, p).(lock := lock);
    forall u | u in n.threads && HoldsLock(n.threads[u]) ensures n.lock == Some(u) {
      if u != t { assert m.threads[u] == n.threads[u]; }
    }
    forall u | u in n.threads ensures PhaseOk(n, n.threads[u]) {
      if u != t { assert PhaseOk(m, m.threads[u]); }
    }
    forall c | c in n.created
      ensures || (c.key in n.stored && n.stored[c.key] == c.pipeline)
              || (exists u :: u in n.threads && n.threads[u] == Storing(c.key, c.pipeline))
    {
      if !(c.key in m.stored && m.stored[c.key] == c.pipeline) {
        var u :| u in m.threads && m.threads[u] == Storing(c.key, c.pipeline);
        assert u != t && n.threads[u] == Storing(c.key, c.pipeline);
      }
    }
  }

  // Under the lock, nothing else is being stored and the key was never built.
  lemma NobodyElseStores(m: Machine, t: Thread)
    requires Inv(m) && t in m.threads && m.threads[t].Building?
    ensures forall c :: c in m.created ==> c.key in m.stored && c.key != m.threads[t].key
  {
    assert PhaseOk(m, m.threads[t]);
    assert m.lock == Some(t);
    assert forall u :: u in m.threads && HoldsLock(m.threads[u]) ==> u == t;
  }

  lemma BuildKeeps(m: Machine, t: Thread)
    requires Inv(m) && t in m.threads && m.threads[t].Building?
    ensures Inv(Step(m, Advance(t, true)))
  {
    var n := Step(m, Advance(t, true));
    var k := m.threads[t].key;
    var c := Log(k, |m.created|);
    NobodyElseStores(m, t);
    assert n.created == m.created + [c] && n.threads[t] == Storing(k, |m.created|);
    assert PhaseOk(m, m.threads[t]);
    assert forall x :: x in n.created ==> x in m.created || x == c;
    forall i | 0 <= i < |m.created| ensures m.created[i].key != k {
      assert m.created[i] in m.created;
    }
    forall u | u in n.threads ensures PhaseOk(n, n.threads[u]) && (HoldsLock(n.threads[u]) ==> n.lock == Some(u)) {
      if u != t { assert PhaseOk(m, m.threads[u]); }
    }
    forall x | x in n.created
      ensures || (x.key in n.stored && n.stored[x.key] == x.pipeline)
              || (exists u :: u in n.threads && n.threads[u] == Storing(x.key, x.pipeline))
    {
      if x in m.created { assert x.key in m.stored; }
    }
  }

  lemma StoreKeeps(m: Machine, t: Thread)
    requires Inv(m) && t in m.threads && m.threads[t].Storing?
    ensures Inv(Step(m, Advance(t, true)))
  {
    var n := Step(m, Advance(t, true));
    var k, p := m.threads[t].key, m.threads[t].built;
    assert PhaseOk(m, m.threads[t]) && m.lock == Some(t);
    forall u | u in n.threads ensures PhaseOk(n, n.threads[u]) {
      if u != t {
        assert PhaseOk(m, m.threads[u]);
        assert HoldsLock(m.threads[u]) ==> m.lock == Some(u);
      }
    }
    forall c | c in n.created
      ensures || (c.key in n.stored && n.stored[c.key] == c.pipeline)
              || (exists u :: u in n.threads && n.threads[u] == Storing(c.key, c.pipeline))
    {
      if u :| u in m.threads && m.threads[u] == Storing(c.key, c.pipeline) {
        assert m.lock == Some(u);
        assert u == t;
      } else {
        assert c.key in m.stored && m.stored[c.key] == c.pipeline;
      }
    }
  }

  lemma ReadKeeps(m: Machine, t: Thread)
    requires Inv(m) && t in m.threads && m.threads[t].Reading?
    ensures Inv(Step(m, Advance(t, true)))
  {
    var k := m.threads[t].key;
    assert PhaseOk(m, m.threads[t]);
    var r := Log(k, m.stored[k]);
    var before := m.(returned := m.returned + [r]);
    assert forall x :: x in before.returned ==> x in m.returned || x == r;
    assert forall x :: x in m.returned ==> x in before.returned;
    forall u | u in before.threads ensures PhaseOk(before, before.threads[u]) {
      assert PhaseOk(m, m.threads[u]);
    }
    assert r in before.returned;
    MoveKeeps(before, t, Returned(k, m.stored[k]), m.lock);
    assert Step(m, Advance(t, true)) == To(before, t, Returned(k, m.stored[k])).(lock := m.lock);
  }

  lemma StepKeeps(m: Machine, a: Action)
    requires Inv(m)
    ensures Inv(Step(m, a))
  {
    var t := a.thread;
    if a.Call? {
      if !(t in m.threads && !Ended(m.threads[t])) { MoveKeeps(m, t, Testing(a.key), m.lock); }
    } else if t in m.threads {
      assert PhaseOk(m, m.threads[t]);
      match m.threads[t]
      case Testing(k) => MoveKeeps(m, t, if k in m.stored then Reading(k) else Waiting(k), m.lock);
      case Waiting(k) => if m.lock.None? { MoveKeeps(m, t, Retesting(k), Some(t)); }
      case Retesting(k) => MoveKeeps(m, t, if k in m.stored then Leaving(k) else Building(k), m.lock);
      case Building(k) =>
        if a.succeeds { BuildKeeps(m, t); } else { MoveKeeps(m, t, Unwinding(k), m.lock); }
      case Storing(k, p) => StoreKeeps(m, t);
      case Unwinding(k) => MoveKeeps(m, t, Phase.Raised(k), None);
      case Leaving(k) => MoveKeeps(m, t, Reading(k), None);
      case Reading(k) => ReadKeeps(m, t);
      case Returned(_, _) =>
      case Raised(_) =>
    }
  }

  lemma {:induction false} StepsKeep(actions: seq<Action>)
    ensures Inv(Steps(actions))
  {
    if actions != [] {
      StepsKeep(actions[..|actions| - 1]);
      StepKeeps(Steps(actions[..|actions| - 1]), actions[|actions| - 1]);
    }
  }

  /******* What callers may rely on *******/

  // Main theorem: in every interleaving each key is built successfully at most once, and
  // all callers that return for a key hold the one object stored under it.
  lemma OneObjectPerKey(actions: seq<Action>, a: Log, b: Log)
    ensures var m := Steps(actions);
            && (a in m.returned && b in m.returned && a.key == b.key ==> a.pipeline == b.pipeline)
            && (a in m.returned ==> a.key in m.stored && m.stored[a.key] == a.pipeline)
            && (forall i, j :: 0 <= i < j < |m.created| ==> m.created[i].key != m.created[j].key)
  {
    StepsKeep(actions);
  }

  // A stored pipeline is never replaced or dropped.
  lemma {:induction false} StoredForever(actions: seq<Action>, more: seq<Action>, key: string)
    requires key in Steps(actions).stored
    ensures key in Steps(actions + more).stored && Steps(actions + more).stored[key] == Steps(actions).stored[key]
  {
    if more == [] {
      assert actions + more == actions;
    } else {
      var n := |more| - 1;
      StoredForever(actions, more[..n], key);
      var all := actions + more;
      assert all[..|all| - 1] == actions + more[..n] && all[|all| - 1] == more[n];
      StepsKeep(actions + more[..n]);
      StoredKept(Steps(actions + more[..n]), more[n], key);
    }
  }

  lemma StoredKept(m: Machine, a: Action, key: string)
    requires Inv(m) && key in m.stored
    ensures key in Step(m, a).stored && Step(m, a).stored[key] == m.stored[key]
  {
    if a.thread in m.threads { assert PhaseOk(m, m.threads[a.thread]); }
  }

  // The final dictionary read always finds its key, so only a failing constructor raises.
  lemma ReadNeverFails(actions: seq<Action>, t: Thread)
    ensures var m := Steps(actions);
            t in m.threads && m.threads[t].Reading? ==> Step(m, Advance(t, true)).threads[t].Returned?
  {
    StepsKeep(actions);
    var m := Steps(actions);
    if t in m.threads { assert PhaseOk(m, m.threads[t]); }
  }

  // The lock is never held by a thread that has ended, so a waiting caller can go on
  // once the holder's steps are done, even after a constructor raised.
  lemma {:induction false} LockHolderActive(actions: seq<Action>)
    ensures var m := Steps(actions);
            m.lock.Some? ==> m.lock.value in m.threads && HoldsLock(m.threads[m.lock.value])
  {
    if actions != [] {
      var n := |actions| - 1;
      LockHolderActive(actions[..n]);
      StepsKeep(actions[..n]);
    }
  }
}
