/** Mapping each element of a sequence to several, and why the order of the elements
    only permutes the result. */
module Sequences {
  import opened StableSort

  function FlatMap<T, U>(s: seq<T>, f: T -> seq<U>): seq<U> {
    if s == [] then [] else FlatMap(s[..|s| - 1], f) + f(s[|s| - 1])
  }

  lemma FlatMapSnoc<T, U>(s: seq<T>, n: nat, f: T -> seq<U>)
    requires n < |s|
    ensures FlatMap(s[..n + 1], f) == FlatMap(s[..n], f) + f(s[n])
  {
    assert s[..n + 1][..n] == s[..n];
  }

  lemma {:induction false} FlatMapConcat<T, U>(s: seq<T>, t: seq<T>, f: T -> seq<U>)
    ensures FlatMap(s + t, f) == FlatMap(s, f) + FlatMap(t, f)
  {
    if t == [] {
      assert s + t == s;
    } else {
      var n := |t| - 1;
      var r := s + t;
      assert r[..|r| - 1] == s + t[..n] && r[|r| - 1] == t[n];
      FlatMapConcat(s, t[..n], f);
      assert FlatMap(r, f) == (FlatMap(s, f) + FlatMap(t[..n], f)) + f(t[n]);
    }
  }

  lemma FlatMapOf<T, U>(s: seq<T>, a: seq<T>, b: seq<T>, f: T -> seq<U>)
    requires s == a + b
    ensures FlatMap(s, f) == FlatMap(a, f) + FlatMap(b, f)
  {
    FlatMapConcat(a, b, f);
  }

  lemma SplitAt<T>(s: seq<T>, i: nat)
    requires i <= |s|
    ensures s == s[..i] + s[i..]
  {
  }

  lemma FlatMapSplit<T, U>(s: seq<T>, i: nat, f: T -> seq<U>)
    requires i < |s|
    ensures FlatMap(s, f) == FlatMap(s[..i], f) + f(s[i]) + FlatMap(s[i + 1..], f)
  {
    FlatMapSnoc(s, i, f);
    SplitAt(s, i + 1);
    FlatMapOf(s, s[..i + 1], s[i + 1..], f);
  }

  lemma FlatMapOne<T, U>(s: seq<T>, f: T -> seq<U>)
    requires |s| == 1
    ensures FlatMap(s, f) == f(s[0])
  {
    assert s[..0] == [];
  }

  lemma FlatMapHead<T, U>(s: seq<T>, f: T -> seq<U>)
    requires s != []
    ensures FlatMap(s, f) == f(s[0]) + FlatMap(s[1..], f)
  {
    SplitAt(s, 1);
    FlatMapOf(s, s[..1], s[1..], f);
    FlatMapOne(s[..1], f);
  }

  lemma FlatMapRemove<T, U>(s: seq<T>, i: nat, f: T -> seq<U>)
    requires i < |s|
    ensures multiset(FlatMap(s, f)) == multiset(FlatMap(s[..i] + s[i + 1..], f)) + multiset(f(s[i]))
  {
    FlatMapConcat(s[..i], s[i + 1..], f);
    FlatMapSplit(s, i, f);
  }

  lemma RemoveFromMultiset<T>(s: seq<T>, i: nat)
    requires i < |s|
    ensures multiset(s[..i] + s[i + 1..]) == multiset(s) - multiset{s[i]}
  {
    assert s == s[..i] + [s[i]] + s[i + 1..];
  }

  lemma FlatMapLast<T, U>(s: seq<T>, f: T -> seq<U>)
    requires s != []
    ensures multiset(FlatMap(s, f)) == multiset(FlatMap(s[..|s| - 1], f)) + multiset(f(s[|s| - 1]))
  {
  }

  // Wherever t holds the last element of s, removing both leaves a permutation.
  lemma MatchLast<T>(s: seq<T>, t: seq<T>) returns (i: nat)
    requires multiset(s) == multiset(t) && s != []
    ensures i < |t| && t[i] == s[|s| - 1]
    ensures multiset(t[..i] + t[i + 1..]) == multiset(s[..|s| - 1])
  {
    var n := |s| - 1;
    assert s[n] in multiset(t);
    i :| 0 <= i < |t| && t[i] == s[n];
    RemoveFromMultiset(t, i);
    RemoveFromMultiset(s, n);
    assert s[..n] + s[n + 1..] == s[..n];
  }

  // Permuting the elements permutes the result.
  lemma {:induction false} FlatMapPermutes<T, U>(s: seq<T>, t: seq<T>, f: T -> seq<U>)
    requires multiset(s) == multiset(t)
    ensures multiset(FlatMap(s, f)) == multiset(FlatMap(t, f))
    decreases |s|
  {
    if s == [] {
      assert |multiset(t)| == |t| && |multiset(s)| == 0;
    } else {
      var i := MatchLast(s, t);
      FlatMapPermutes(s[..|s| - 1], t[..i] + t[i + 1..], f);
      FlatMapLast(s, f);
      FlatMapRemove(t, i, f);
    }
  }

  lemma {:induction false} FlatMapMembers<T, U>(s: seq<T>, f: T -> seq<U>)
    ensures forall y :: y in FlatMap(s, f) <==> exists x :: x in s && y in f(x)
  {
    if s != [] {
      var n := |s| - 1;
      FlatMapMembers(s[..n], f);
      assert s == s[..n] + [s[n]];
    }
  }

  lemma {:induction false} FlatMapEmpty<T, U>(s: seq<T>, f: T -> seq<U>)
    requires forall x :: x in s ==> f(x) == []
    ensures FlatMap(s, f) == []
  {
    if s != [] { FlatMapEmpty(s[..|s| - 1], f); }
  }

  lemma {:induction false} FlatMapSame<T, U>(s: seq<T>, f: T -> seq<U>, g: T -> seq<U>)
    requires forall x :: x in s ==> f(x) == g(x)
    ensures FlatMap(s, f) == FlatMap(s, g)
  {
    if s != [] { FlatMapSame(s[..|s| - 1], f, g); }
  }

  lemma {:induction false} FlatMapNothing<T, U>(s: seq<T>, f: T -> seq<U>)
    requires FlatMap(s, f) == []
    ensures forall x :: x in s ==> f(x) == []
  {
    if s != [] {
      var n := |s| - 1;
      FlatMapNothing(s[..n], f);
      assert s == s[..n] + [s[n]];
    }
  }

  // Pointwise permutation gives permutation.
  lemma {:induction false} FlatMapPointwise<T, U>(s: seq<T>, f: T -> seq<U>, g: T -> seq<U>)
    requires forall x :: x in s ==> multiset(f(x)) == multiset(g(x))
    ensures multiset(FlatMap(s, f)) == multiset(FlatMap(s, g))
  {
    if s != [] {
      FlatMapPointwise(s[..|s| - 1], f, g);
      FlatMapLast(s, f);
      FlatMapLast(s, g);
    }
  }

  // No two elements have the same key.
  ghost predicate DistinctBy<T, K>(s: seq<T>, key: T -> K) {
    forall i, j :: 0 <= i < j < |s| ==> key(s[i]) != key(s[j])
  }

  lemma {:induction false} AtMostOnce<T, K>(s: seq<T>, key: T -> K, x: T)
    requires DistinctBy(s, key)
    ensures multiset(s)[x] <= 1
  {
    if s != [] {
      var n := |s| - 1;
      AtMostOnce(s[..n], key, x);
      assert s == s[..n] + [s[n]];
      assert x == s[n] ==> x !in s[..n];
    }
  }

  lemma DistinctPermute<T, K>(s: seq<T>, t: seq<T>, key: T -> K)
    requires multiset(s) == multiset(t) && DistinctBy(s, key)
    ensures DistinctBy(t, key)
  {
    forall i, j | 0 <= i < j < |t| ensures key(t[i]) != key(t[j]) {
      assert t[i] in multiset(s) && t[j] in multiset(s);
      AtMostOnce(s, key, t[j]);
      assert t == t[..j] + [t[j]] + t[j + 1..];
      assert t[i] in t[..j];
    }
  }

  /******* Mapping twice, and what was filtered *******/

  lemma {:induction false} FlatMapTwice<T, U, V>(s: seq<T>, f: T -> seq<U>, g: U -> seq<V>, h: T -> seq<V>)
    requires forall x :: x in s ==> h(x) == FlatMap(f(x), g)
    ensures FlatMap(FlatMap(s, f), g) == FlatMap(s, h)
  {
    if s != [] {
      var n := |s| - 1;
      FlatMapTwice(s[..n], f, g, h);
      assert s[n] in s;
      FlatMapConcat(FlatMap(s[..n], f), f(s[n]), g);
    }
  }

  // A map that drops what is filtered out.
  lemma {:induction false} FlatMapKept<T, V>(s: seq<T>, p: T -> bool, f: T -> seq<V>, h: T -> seq<V>)
    requires forall x :: x in s ==> h(x) == if p(x) then f(x) else []
    ensures FlatMap(Keep(s, p), f) == FlatMap(s, h)
  {
    if s != [] {
      FlatMapKept(s[1..], p, f, h);
      FlatMapHead(s, h);
      assert s[0] in s;
      if p(s[0]) {
        assert Keep(s, p) == [s[0]] + Keep(s[1..], p);
        FlatMapHead(Keep(s, p), f);
        assert Keep(s, p)[1..] == Keep(s[1..], p);
      } else {
        assert Keep(s, p) == Keep(s[1..], p);
      }
    }
  }

  lemma {:induction false} OneEach<T, U>(s: seq<T>, f: T -> seq<U>)
    requires forall x :: x in s ==> |f(x)| == 1
    ensures |FlatMap(s, f)| == |s|
  {
    if s != [] {
      OneEach(s[..|s| - 1], f);
      assert s[|s| - 1] in s;
    }
  }
}
