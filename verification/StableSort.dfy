/**
  Python's `list.sort` and `sorted`: a stable sort by a key. `le(x, y)` says that
  x's key may stand before y's; with `reverse=True` it compares keys the other way.
 */
module StableSort {

  ghost predicate TotalPreorder<T(!new)>(le: (T, T) -> bool) {
    && (forall x, y :: le(x, y) || le(y, x))
    && (forall x, y, z :: le(x, y) && le(y, z) ==> le(x, z))
  }

  ghost predicate Sorted<T>(s: seq<T>, le: (T, T) -> bool) {
    forall i, j :: 0 <= i < j < |s| ==> le(s[i], s[j])
  }

  // Inserts x before the first element it may precede, so x stays ahead of its equals.
  function Insert<T>(x: T, s: seq<T>, le: (T, T) -> bool): seq<T> {
    if s == [] || le(x, s[0]) then [x] + s
    else [s[0]] + Insert(x, s[1..], le)
  }

  function Sort<T>(s: seq<T>, le: (T, T) -> bool): seq<T> {
    if s == [] then [] else Insert(s[0], Sort(s[1..], le), le)
  }

  // The elements of s whose keys equal x's, in the order they have in s.
  function Equals<T>(s: seq<T>, x: T, le: (T, T) -> bool): seq<T> {
    if s == [] then []
    else if le(s[0], x) && le(x, s[0]) then [s[0]] + Equals(s[1..], x, le)
    else Equals(s[1..], x, le)
  }

  /******* Sorted permutation *******/

  lemma {:induction false} InsertPermutes<T>(x: T, s: seq<T>, le: (T, T) -> bool)
    ensures multiset(Insert(x, s, le)) == multiset{x} + multiset(s)
    ensures |Insert(x, s, le)| == |s| + 1
  {
    if !(s == [] || le(x, s[0])) {
      InsertPermutes(x, s[1..], le);
      assert s == [s[0]] + s[1..];
    }
  }

  lemma {:induction false} SortPermutes<T>(s: seq<T>, le: (T, T) -> bool)
    ensures multiset(Sort(s, le)) == multiset(s)
    ensures |Sort(s, le)| == |s|
  {
    if s != [] {
      SortPermutes(s[1..], le);
      InsertPermutes(s[0], Sort(s[1..], le), le);
      assert s == [s[0]] + s[1..];
    }
  }

  lemma SameElements<T>(s: seq<T>, t: seq<T>)
    requires multiset(s) == multiset(t)
    ensures |s| == |t|
    ensures forall x :: x in s <==> x in t
  {
    assert |multiset(s)| == |s| && |multiset(t)| == |t|;
    forall x ensures x in s <==> x in t {
      assert x in s <==> x in multiset(s);
      assert x in t <==> x in multiset(t);
    }
  }

  lemma {:induction false} SortedCons<T>(x: T, s: seq<T>, le: (T, T) -> bool)
    requires Sorted(s, le) && forall y :: y in s ==> le(x, y)
    ensures Sorted([x] + s, le)
  {
  }

  lemma SortedTail<T>(s: seq<T>, le: (T, T) -> bool)
    requires Sorted(s, le) && s != []
    ensures Sorted(s[1..], le) && forall y :: y in s[1..] ==> le(s[0], y)
  {
    assert forall i :: 0 <= i < |s[1..]| ==> s[1..][i] == s[i + 1];
  }

  lemma {:induction false} InsertSorted<T(!new)>(x: T, s: seq<T>, le: (T, T) -> bool)
    requires TotalPreorder(le) && Sorted(s, le)
    ensures Sorted(Insert(x, s, le), le)
  {
    if s == [] {
    } else if le(x, s[0]) {
      SortedTail(s, le);
      forall y | y in s ensures le(x, y) {
        assert y == s[0] || y in s[1..];
      }
      SortedCons(x, s, le);
    } else {
      SortedTail(s, le);
      InsertSorted(x, s[1..], le);
      var r := Insert(x, s[1..], le);
      InsertPermutes(x, s[1..], le);
      forall y | y in r ensures le(s[0], y) {
        assert y in multiset(r);
        assert y == x || y in s[1..];
      }
      SortedCons(s[0], r, le);
    }
  }

  lemma {:induction false} SortSorted<T(!new)>(s: seq<T>, le: (T, T) -> bool)
    requires TotalPreorder(le)
    ensures Sorted(Sort(s, le), le)
  {
    if s != [] {
      SortSorted(s[1..], le);
      InsertSorted(s[0], Sort(s[1..], le), le);
    }
  }

  /******* Stability *******/

  lemma {:induction false} EqualsConcat<T>(s: seq<T>, t: seq<T>, x: T, le: (T, T) -> bool)
    ensures Equals(s + t, x, le) == Equals(s, x, le) + Equals(t, x, le)
  {
    if s == [] {
      assert s + t == t;
    } else {
      assert (s + t)[1..] == s[1..] + t;
      EqualsConcat(s[1..], t, x, le);
    }
  }

  lemma {:induction false} InsertStable<T(!new)>(y: T, s: seq<T>, x: T, le: (T, T) -> bool)
    requires TotalPreorder(le)
    ensures Equals(Insert(y, s, le), x, le) == Equals([y] + s, x, le)
  {
    if !(s == [] || le(y, s[0])) {
      InsertStable(y, s[1..], x, le);
      var r := Insert(y, s[1..], le);
      EqualsConcat([s[0]], r, x, le);
      EqualsConcat([y], s[1..], x, le);
      EqualsConcat([y], s, x, le);
      assert s == [s[0]] + s[1..];
      EqualsConcat([s[0]], s[1..], x, le);
      // y and s[0] have different keys, so at most one of them is kept
      assert Equals([y], x, le) == [] || Equals([s[0]], x, le) == [];
    }
  }

  // Elements with equal keys keep their order.
  lemma {:induction false} SortStable<T(!new)>(s: seq<T>, x: T, le: (T, T) -> bool)
    requires TotalPreorder(le)
    ensures Equals(Sort(s, le), x, le) == Equals(s, x, le)
  {
    if s != [] {
      SortStable(s[1..], x, le);
      InsertStable(s[0], Sort(s[1..], le), x, le);
      EqualsConcat([s[0]], Sort(s[1..], le), x, le);
      EqualsConcat([s[0]], s[1..], x, le);
      assert s == [s[0]] + s[1..];
    }
  }

  lemma {:induction false} EqualsNonempty<T>(s: seq<T>, x: T, le: (T, T) -> bool)
    ensures forall y :: y in Equals(s, x, le) <==> y in s && le(y, x) && le(x, y)
  {
    if s != [] {
      EqualsNonempty(s[1..], x, le);
      assert s == [s[0]] + s[1..];
    }
  }

  // A sorted sequence is determined by the order inside each class of equal keys:
  // a stable sort has only one possible result.
  lemma {:induction false} SortedUnique<T(!new)>(s: seq<T>, t: seq<T>, le: (T, T) -> bool)
    requires TotalPreorder(le) && Sorted(s, le) && Sorted(t, le)
    requires forall x :: Equals(s, x, le) == Equals(t, x, le)
    ensures s == t
    decreases |s|
  {
    if s != [] { assert Equals(s, s[0], le) == Equals(t, s[0], le); }
    if t != [] { assert Equals(s, t[0], le) == Equals(t, t[0], le); }
    if s != [] && t != [] {
      var x, y := s[0], t[0];
      SortedTail(s, le);
      SortedTail(t, le);
      EqualsNonempty(s, y, le);
      EqualsNonempty(t, x, le);
      EqualsNonempty(s, x, le);
      EqualsNonempty(t, y, le);
      assert x in Equals(t, x, le);
      assert y in Equals(s, y, le);
      assert le(x, y) && le(y, x);
      assert Equals(s, x, le)[0] == x && Equals(t, x, le)[0] == y;
      forall z ensures Equals(s[1..], z, le) == Equals(t[1..], z, le) {
        assert Equals(s, z, le) == Equals(t, z, le);
        if le(x, z) && le(z, x) {
          assert Equals(s, z, le)[1..] == Equals(s[1..], z, le);
          assert Equals(t, z, le)[1..] == Equals(t[1..], z, le);
        }
      }
      SortedUnique(s[1..], t[1..], le);
      assert s == [x] + s[1..] && t == [y] + t[1..];
    }
  }

  // Sorting what is already in order changes nothing.
  lemma SortFixed<T(!new)>(s: seq<T>, le: (T, T) -> bool)
    requires TotalPreorder(le) && Sorted(s, le)
    ensures Sort(s, le) == s
  {
    SortSorted(s, le);
    forall x ensures Equals(Sort(s, le), x, le) == Equals(s, x, le) {
      SortStable(s, x, le);
    }
    SortedUnique(Sort(s, le), s, le);
  }

  /******* Filtering *******/

  function Keep<T>(s: seq<T>, p: T -> bool): seq<T> {
    if s == [] then [] else (if p(s[0]) then [s[0]] else []) + Keep(s[1..], p)
  }

  lemma {:induction false} KeepConcat<T>(s: seq<T>, t: seq<T>, p: T -> bool)
    ensures Keep(s + t, p) == Keep(s, p) + Keep(t, p)
  {
    if s == [] {
      assert s + t == t;
    } else {
      var r := s + t;
      assert r[1..] == s[1..] + t && r[0] == s[0];
      KeepConcat(s[1..], t, p);
      var h := if p(s[0]) then [s[0]] else [];
      assert Keep(r, p) == h + (Keep(s[1..], p) + Keep(t, p));
      assert Keep(s, p) == h + Keep(s[1..], p);
    }
  }

  lemma {:induction false} KeepMembers<T>(s: seq<T>, p: T -> bool)
    ensures forall x :: x in Keep(s, p) <==> x in s && p(x)
  {
    if s != [] {
      KeepMembers(s[1..], p);
      assert s == [s[0]] + s[1..];
    }
  }

  lemma {:induction false} KeepAll<T>(s: seq<T>, p: T -> bool)
    requires forall x :: x in s ==> p(x)
    ensures Keep(s, p) == s
  {
    if s != [] { KeepAll(s[1..], p); assert s == [s[0]] + s[1..]; }
  }

  lemma {:induction false} KeepNone<T>(s: seq<T>, p: T -> bool)
    requires forall x :: x in s ==> !p(x)
    ensures Keep(s, p) == []
  {
    if s != [] { KeepNone(s[1..], p); }
  }

  lemma {:induction false} KeepCount<T>(s: seq<T>, p: T -> bool, x: T)
    ensures multiset(Keep(s, p))[x] == if p(x) then multiset(s)[x] else 0
  {
    if s != [] {
      KeepCount(s[1..], p, x);
      assert s == [s[0]] + s[1..];
    }
  }

  // Filtering commutes with permuting.
  lemma KeepPermutes<T(!new)>(s: seq<T>, t: seq<T>, p: T -> bool)
    requires multiset(s) == multiset(t)
    ensures multiset(Keep(s, p)) == multiset(Keep(t, p))
  {
    forall x ensures multiset(Keep(s, p))[x] == multiset(Keep(t, p))[x] {
      KeepCount(s, p, x);
      KeepCount(t, p, x);
    }
  }

  // Filtering commutes with selecting a class of equal keys.
  lemma {:induction false} KeepEquals<T>(s: seq<T>, p: T -> bool, x: T, le: (T, T) -> bool)
    ensures Equals(Keep(s, p), x, le) == Keep(Equals(s, x, le), p)
  {
    if s != [] {
      KeepEquals(s[1..], p, x, le);
      EqualsConcat(if p(s[0]) then [s[0]] else [], Keep(s[1..], p), x, le);
    }
  }

  lemma {:induction false} KeepKept<T>(s: seq<T>, p: T -> bool, q: T -> bool, r: T -> bool)
    requires forall x :: x in s ==> r(x) == (p(x) && q(x))
    ensures Keep(Keep(s, p), q) == Keep(s, r)
  {
    if s != [] {
      assert s[0] in s;
      KeepKept(s[1..], p, q, r);
      KeepConcat(if p(s[0]) then [s[0]] else [], Keep(s[1..], p), q);
    }
  }

  lemma {:induction false} KeepSame<T>(s: seq<T>, p: T -> bool, q: T -> bool)
    requires forall x :: x in s ==> p(x) == q(x)
    ensures Keep(s, p) == Keep(s, q)
  {
    if s != [] {
      assert s[0] in s;
      KeepSame(s[1..], p, q);
    }
  }
}
