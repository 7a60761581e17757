/**
  What the document normaliser guarantees: its outputs are exactly its fixed
  points, it commutes with lower-casing, and it treats a normalised prefix
  followed by a paragraph break as a unit.
 */
module Normalizer {
  import opened Text

  /******* Normalised texts are the fixed points *******/

  lemma {:induction false} CrGone(s: string)
    ensures forall i :: 0 <= i < |ReplaceCr(s)| ==> ReplaceCr(s)[i] != '\r'
  {
    if s != [] { CrGone(s[1..]); }
  }

  lemma {:induction false} BlanksCollapsed(s: string)
    requires forall i :: 0 <= i < |s| ==> s[i] != '\r'
    ensures var r := CollapseBlanks(s);
            && (forall i :: 0 <= i < |r| ==> r[i] != '\r' && r[i] != '\t')
            && (forall i :: 0 <= i < |r| - 1 ==> !(r[i] == ' ' && r[i + 1] == ' '))
            && (r != [] && r[0] == ' ' ==> IsBlank(s[0]))
  {
    if s != [] { BlanksCollapsed(s[1..]); }
  }

  lemma {:induction false} NewlinesCollapsed(s: string)
    requires forall i :: 0 <= i < |s| ==> s[i] != '\r' && s[i] != '\t'
    requires forall i :: 0 <= i < |s| - 1 ==> !(s[i] == ' ' && s[i + 1] == ' ')
    ensures var r := CollapseNewlines(s);
            && Tidy(r)
            && (s != [] ==> r != [] && r[0] == s[0])
            && (|r| > 1 && r[0] == '\n' && r[1] == '\n' ==> |s| > 1 && s[1] == '\n')
  {
    if s != [] {
      NewlinesCollapsed(s[1..]);
      var r := CollapseNewlines(s);
      if !ThreeNewlinesAt(s, 0) {
        var t := CollapseNewlines(s[1..]);
        assert r == [s[0]] + t;
        forall i: nat | i < |r| ensures !ThreeNewlinesAt(r, i) {
          if i > 0 { assert !ThreeNewlinesAt(t, i - 1); }
        }
      }
    }
  }

  lemma TidySlice(s: string, lo: nat, hi: nat)
    requires Tidy(s) && lo <= hi <= |s|
    ensures Tidy(s[lo..hi])
  {
    var r := s[lo..hi];
    forall i: nat | i < |r| ensures !ThreeNewlinesAt(r, i) {
      assert !ThreeNewlinesAt(s, lo + i);
    }
  }

  lemma {:induction false} StripLeftIsSuffix(s: string) returns (n: nat)
    ensures n <= |s| && StripLeft(s) == s[n..]
    ensures forall i :: 0 <= i < n ==> IsSpace(s[i])
    ensures n < |s| ==> !IsSpace(s[n])
  {
    if s != [] && IsSpace(s[0]) {
      var m := StripLeftIsSuffix(s[1..]);
      n := m + 1;
    } else {
      n := 0;
    }
  }

  lemma {:induction false} StripRightIsPrefix(s: string) returns (n: nat)
    ensures n <= |s| && StripRight(s) == s[..n]
    ensures forall i :: n <= i < |s| ==> IsSpace(s[i])
    ensures n > 0 ==> !IsSpace(s[n - 1])
  {
    if s != [] && IsSpace(s[|s| - 1]) {
      n := StripRightIsPrefix(s[..|s| - 1]);
    } else {
      n := |s|;
    }
  }

  // Strip cuts out the part between the first and the last non-space character.
  lemma StripIsSlice(s: string) returns (lo: nat, hi: nat)
    ensures lo <= hi <= |s| && Strip(s) == s[lo..hi] && Trimmed(Strip(s))
    ensures forall i :: 0 <= i < |s| && (i < lo || hi <= i) ==> IsSpace(s[i])
  {
    lo := StripLeftIsSuffix(s);
    var n := StripRightIsPrefix(s[lo..]);
    hi := lo + n;
    if n > 0 {
      assert s[lo..][0] == s[lo] && s[lo..][n - 1] == s[hi - 1];
    }
    forall i | hi <= i < |s| ensures IsSpace(s[i]) {
      assert s[i] == s[lo..][i - lo];
    }
  }

  lemma NormalizeIsNormalized(s: string)
    ensures Normalized(Normalize(s))
  {
    var a := ReplaceCr(ReplaceCrLf(s));
    CrGone(ReplaceCrLf(s));
    BlanksCollapsed(a);
    NewlinesCollapsed(CollapseBlanks(a));
    var lo, hi := StripIsSlice(CollapseAll(s));
    TidySlice(CollapseAll(s), lo, hi);
  }

  lemma {:induction false} TidyIsFixed(s: string)
    requires Tidy(s)
    ensures ReplaceCrLf(s) == ReplaceCr(s) == CollapseBlanks(s) == CollapseNewlines(s) == CollapseAll(s) == s
  {
    if s != [] {
      TidySlice(s, 1, |s|);
      assert s[1..|s|] == s[1..];
      TidyIsFixed(s[1..]);
      assert !ThreeNewlinesAt(s, 0);
    }
  }

  // A text is left alone exactly when it is normalised.
  lemma FixedIffNormalized(s: string)
    ensures Normalize(s) == s <==> Normalized(s)
  {
    NormalizeIsNormalized(s);
    if Normalized(s) {
      TidyIsFixed(s);
      var lo, hi := StripIsSlice(s);
      assert s != [] ==> lo == 0 && hi == |s|;
    }
  }

  lemma NormalizeIdempotent(s: string)
    ensures Normalize(Normalize(s)) == Normalize(s)
  {
    NormalizeIsNormalized(s);
    FixedIffNormalized(Normalize(s));
  }

  /******* Lower-casing *******/

  lemma {:induction false} LowerTail(s: string)
    requires s != []
    ensures Lower(s) == [LowerChar(s[0])] + Lower(s[1..]) && Lower(s)[1..] == Lower(s[1..])
  {
  }

  lemma {:induction false} LowerReplaceCrLf(s: string)
    ensures Lower(ReplaceCrLf(s)) == ReplaceCrLf(Lower(s))
  {
    if s != [] {
      if |s| > 1 && s[0] == '\r' && s[1] == '\n' {
        LowerReplaceCrLf(s[2..]);
        assert Lower(s)[2..] == Lower(s[2..]);
        LowerConcat("\n", ReplaceCrLf(s[2..]));
        assert Lower("\n") == "\n";
      } else {
        LowerTail(s);
        LowerReplaceCrLf(s[1..]);
        LowerConcat([s[0]], ReplaceCrLf(s[1..]));
      }
    }
  }

  lemma {:induction false} LowerReplaceCr(s: string)
    ensures Lower(ReplaceCr(s)) == ReplaceCr(Lower(s))
  {
    if s != [] {
      LowerTail(s);
      LowerReplaceCr(s[1..]);
    }
  }

  lemma {:induction false} LowerCollapseBlanks(s: string)
    ensures Lower(CollapseBlanks(s)) == CollapseBlanks(Lower(s))
  {
    if s != [] {
      LowerTail(s);
      LowerCollapseBlanks(s[1..]);
      assert Lower(" ") == " ";
      LowerConcat([s[0]], CollapseBlanks(s[1..]));
      LowerConcat(" ", CollapseBlanks(s[1..]));
    }
  }

  lemma {:induction false} LowerCollapseNewlines(s: string)
    ensures Lower(CollapseNewlines(s)) == CollapseNewlines(Lower(s))
  {
    if s != [] {
      LowerTail(s);
      LowerCollapseNewlines(s[1..]);
      assert ThreeNewlinesAt(Lower(s), 0) == ThreeNewlinesAt(s, 0);
      LowerConcat([s[0]], CollapseNewlines(s[1..]));
    }
  }

  lemma {:induction false} LowerStripLeft(s: string)
    ensures Lower(StripLeft(s)) == StripLeft(Lower(s))
  {
    if s != [] {
      LowerTail(s);
      LowerStripLeft(s[1..]);
    }
  }

  lemma {:induction false} LowerStripRight(s: string)
    ensures Lower(StripRight(s)) == StripRight(Lower(s))
  {
    if s != [] {
      LowerSlice(s, 0, |s| - 1);
      LowerStripRight(s[..|s| - 1]);
    }
  }

  // The matcher's normaliser is the document's normaliser followed by lower-casing.
  lemma MatchingIsLowerOfNormalize(s: string)
    ensures NormalizeForMatching(s) == Lower(Normalize(s)) == Normalize(Lower(s))
  {
    var a := ReplaceCrLf(s);
    var b := ReplaceCr(a);
    var c := CollapseBlanks(b);
    var d := CollapseNewlines(c);
    LowerReplaceCrLf(s);
    LowerReplaceCr(a);
    LowerCollapseBlanks(b);
    LowerCollapseNewlines(c);
    LowerStripLeft(d);
    LowerStripRight(StripLeft(d));
  }

  lemma LowerNormalized(s: string)
    ensures Normalized(Lower(s)) <==> Normalized(s)
  {
    var t := Lower(s);
    assert forall i :: 0 <= i < |s| ==> (t[i] == '\r' <==> s[i] == '\r') && (t[i] == '\t' <==> s[i] == '\t');
    assert forall i :: 0 <= i < |s| ==> (t[i] == ' ' <==> s[i] == ' ') && (t[i] == '\n' <==> s[i] == '\n');
    assert forall i :: 0 <= i < |s| ==> IsSpace(t[i]) == IsSpace(s[i]);
    assert forall i: nat :: i < |s| ==> ThreeNewlinesAt(t, i) == ThreeNewlinesAt(s, i);
  }

  // Matching normalisation is plain lower-casing exactly on normalised texts.
  lemma MatchingIsLowerIffNormalized(s: string)
    ensures NormalizeForMatching(s) == Lower(s) <==> Normalized(s)
  {
    MatchingIsLowerOfNormalize(s);
    FixedIffNormalized(s);
    FixedIffNormalized(Lower(s));
    LowerNormalized(s);
  }

  lemma {:induction false} PassesShorten(s: string)
    ensures |ReplaceCrLf(s)| <= |s| && |ReplaceCr(s)| == |s|
    ensures |CollapseBlanks(s)| <= |s| && |CollapseNewlines(s)| <= |s|
  {
    if s != [] {
      PassesShorten(s[1..]);
      if |s| > 1 { PassesShorten(s[2..]); }
    }
  }

  lemma NormalizeForMatchingShortens(s: string)
    ensures |NormalizeForMatching(s)| <= |s|
  {
    var a := ReplaceCrLf(s);
    var b := ReplaceCr(a);
    var c := CollapseBlanks(b);
    PassesShorten(s);
    PassesShorten(a);
    PassesShorten(b);
    PassesShorten(c);
    var lo, hi := StripIsSlice(CollapseAll(s));
    MatchingIsLowerOfNormalize(s);
  }

  /******* Visible text is never normalised away *******/

  predicate AllSpace(s: string) {
    forall i :: 0 <= i < |s| ==> IsSpace(s[i])
  }

  lemma {:induction false} PassesKeepInk(s: string)
    ensures AllSpace(ReplaceCrLf(s)) ==> AllSpace(s)
    ensures AllSpace(ReplaceCr(s)) ==> AllSpace(s)
    ensures AllSpace(CollapseBlanks(s)) ==> AllSpace(s)
    ensures AllSpace(CollapseNewlines(s)) ==> AllSpace(s)
  {
    if s != [] {
      PassesKeepInk(s[1..]);
      AllSpaceCons(s);
      AllSpaceCons([s[0]] + ReplaceCrLf(s[1..]));
      AllSpaceCons(ReplaceCr(s));
      AllSpaceCons([s[0]] + CollapseBlanks(s[1..]));
      AllSpaceCons(" " + CollapseBlanks(s[1..]));
      AllSpaceCons([s[0]] + CollapseNewlines(s[1..]));
      if |s| > 1 && s[0] == '\r' && s[1] == '\n' {
        PassesKeepInk(s[2..]);
        AllSpaceCons("\n" + ReplaceCrLf(s[2..]));
        AllSpaceCons(s[1..]);
        assert s[1..][1..] == s[2..];
      }
    }
  }

  lemma {:induction false} AllSpaceCons(s: string)
    requires s != []
    ensures AllSpace(s) <==> IsSpace(s[0]) && AllSpace(s[1..])
  {
    assert s == [s[0]] + s[1..];
    if AllSpace(s) {
      forall i | 0 <= i < |s[1..]| ensures IsSpace(s[1..][i]) { assert s[1..][i] == s[i + 1]; }
    }
  }

  // Only text made of whitespace normalises to nothing.
  lemma EmptyOnlyFromSpaces(s: string)
    ensures Normalize(s) == [] ==> AllSpace(s)
  {
    var a := ReplaceCrLf(s);
    var b := ReplaceCr(a);
    var c := CollapseBlanks(b);
    var lo, hi := StripIsSlice(CollapseNewlines(c));
    PassesKeepInk(s);
    PassesKeepInk(a);
    PassesKeepInk(b);
    PassesKeepInk(c);
  }

  /******* Joining *******/

  lemma TidyConcat(x: string, y: string)
    requires Tidy(x) && Tidy(y) && x != [] && y != []
    requires !IsSpace(x[|x| - 1]) || !IsSpace(y[0])
    ensures Tidy(x + y)
  {
    var r := x + y;
    forall i | 0 <= i < |r| - 1 ensures !(r[i] == ' ' && r[i + 1] == ' ') {
      if i >= |x| { assert r[i] == y[i - |x|] && r[i + 1] == y[i - |x| + 1]; }
    }
    forall i: nat | i < |r| ensures !ThreeNewlinesAt(r, i) {
      if i >= |x| {
        assert !ThreeNewlinesAt(y, i - |x|);
      } else {
        assert !ThreeNewlinesAt(x, i);
      }
    }
  }

  // Normalised, non-empty pieces joined by one of the builder's separators stay normalised.
  lemma JoinNormalized(a: string, sep: string, b: string)
    requires Normalized(a) && Normalized(b) && a != [] && b != []
    requires sep == " " || sep == "\n" || sep == "\n\n"
    ensures Normalized(a + sep + b)
  {
    TidyConcat(a, sep);
    TidyConcat(a + sep, b);
    var r := a + sep + b;
    assert r[0] == a[0] && r[|r| - 1] == b[|b| - 1];
  }

  lemma {:induction false} CrLfConcat(x: string, y: string)
    requires x == [] || x[|x| - 1] != '\r'
    ensures ReplaceCrLf(x + y) == ReplaceCrLf(x) + ReplaceCrLf(y)
  {
    if x == [] {
      assert x + y == y;
    } else {
      assert (x + y)[1..] == x[1..] + y;
      if |x| > 1 && x[0] == '\r' && x[1] == '\n' {
        assert (x + y)[2..] == x[2..] + y;
        CrLfConcat(x[2..], y);
      } else {
        CrLfConcat(x[1..], y);
      }
    }
  }

  lemma {:induction false} CrConcat(x: string, y: string)
    ensures ReplaceCr(x + y) == ReplaceCr(x) + ReplaceCr(y)
  {
    if x == [] {
      assert x + y == y;
    } else {
      assert (x + y)[1..] == x[1..] + y;
      CrConcat(x[1..], y);
    }
  }

  lemma {:induction false} BlanksConcat(x: string, y: string)
    requires x == [] || !IsBlank(x[|x| - 1])
    ensures CollapseBlanks(x + y) == CollapseBlanks(x) + CollapseBlanks(y)
  {
    if x == [] {
      assert x + y == y;
    } else {
      assert (x + y)[1..] == x[1..] + y;
      BlanksConcat(x[1..], y);
    }
  }

  lemma NoTripleAcross(x: string, y: string)
    requires x != [] && (y == [] || x[|x| - 1] != '\n' || y[0] != '\n')
    ensures ThreeNewlinesAt(x + y, 0) == ThreeNewlinesAt(x, 0)
  {
    var r := x + y;
    assert forall i :: 0 <= i < |x| ==> r[i] == x[i];
    assert y != [] ==> r[|x|] == y[0];
  }

  lemma {:induction false} NewlinesConcat(x: string, y: string)
    requires x == [] || y == [] || x[|x| - 1] != '\n' || y[0] != '\n'
    ensures CollapseNewlines(x + y) == CollapseNewlines(x) + CollapseNewlines(y)
  {
    if x == [] {
      assert x + y == y;
    } else {
      var r, x1 := x + y, x[1..];
      assert r[1..] == x1 + y && r[0] == x[0];
      NoTripleAcross(x, y);
      NewlinesConcat(x1, y);
      if !ThreeNewlinesAt(x, 0) {
        assert CollapseNewlines(r) == [x[0]] + (CollapseNewlines(x1) + CollapseNewlines(y));
        assert CollapseNewlines(x) == [x[0]] + CollapseNewlines(x1);
      }
    }
  }

  lemma {:induction false} PassesKeepFirst(s: string)
    requires s != [] && !IsSpace(s[0])
    ensures var r := CollapseAll(s); r != [] && r[0] == s[0]
  {
    assert ReplaceCrLf(s)[0] == s[0];
    assert ReplaceCr(ReplaceCrLf(s))[0] == s[0];
    assert CollapseBlanks(ReplaceCr(ReplaceCrLf(s)))[0] == s[0];
  }

  // Normalising "<normalised text>\n\n<more>" leaves the first part and the break alone.
  lemma NormalizeAfterBreak(a: string, b: string)
    requires Normalized(a) && a != [] && b != [] && !IsSpace(b[0])
    ensures Normalize(a + "\n\n" + b) == a + "\n\n" + Normalize(b)
    ensures Normalize(b) != []
  {
    var h := a + "\n\n";
    assert Tidy(h) by {
      forall i: nat | i < |h| ensures !ThreeNewlinesAt(h, i) {
        if i < |a| { assert !ThreeNewlinesAt(a, i); }
      }
    }
    TidyIsFixed(h);
    CrLfConcat(h, b);
    var b1 := ReplaceCrLf(b);
    CrConcat(h, b1);
    var b2 := ReplaceCr(b1);
    BlanksConcat(h, b2);
    var b3 := CollapseBlanks(b2);
    PassesKeepFirst(b);
    assert b3[0] == b[0];
    NewlinesConcat(h, b3);
    var b4 := CollapseNewlines(b3);
    assert CollapseAll(h + b) == h + b4;
    StripAfter(h, b4);
  }

  lemma StripAfter(h: string, t: string)
    requires h != [] && !IsSpace(h[0]) && t != [] && !IsSpace(t[0])
    ensures Strip(h + t) == h + Strip(t) && Strip(t) != []
  {
    var n := StripRightIsPrefix(h + t);
    var m := StripRightIsPrefix(t);
    assert (h + t)[|h|] == t[0];
    assert n > |h|;
    assert forall i :: 0 <= i < |t| ==> (h + t)[|h| + i] == t[i];
    assert n == |h| + m;
    assert (h + t)[..n] == h + t[..m];
  }
}
