/**
  What the normaliser does, in laws that fix it on every text: which characters are spaces,
  how case folds, and which texts are read alike (src/zataone/document/builder.py, lines
  18-26; src/zataone/policy_engine/normalize.py, lines 9-21).
 */
module NormalizerLaws {
  import opened Text
  import Normalizer

  /******* Characters *******/

  // The characters that str.strip() takes off, by their codes.
  lemma SpaceCodes(c: char)
    ensures IsSpace(c) <==> c as int in {9, 10, 11, 12, 13, 28, 29, 30, 31, 32}
  {
  }

  // The 26 capital letters have their small ones 32 codes further on; nothing else folds.
  lemma CaseCodes(s: string, i: nat)
    requires i < |s|
    ensures Lower(s)[i] as int == if 65 <= s[i] as int <= 90 then s[i] as int + 32 else s[i] as int
    ensures Upper(s)[i] as int == if 97 <= s[i] as int <= 122 then s[i] as int - 32 else s[i] as int
  {
  }

  /******* Line ends *******/

  function Unified(s: string): string {
    ReplaceCr(ReplaceCrLf(s))
  }

  lemma HeadTail(s: string)
    requires s != ""
    ensures s == [s[0]] + s[1..]
  {
  }

  lemma ConsConcat(c: char, s: string, b: string)
    ensures [c] + s + b == [c] + (s + b)
  {
  }

  lemma CrLfPair(s: string)
    ensures ReplaceCrLf("\r\n" + s) == "\n" + ReplaceCrLf(s)
  {
    var t := "\r\n" + s;
    assert t[0] == '\r' && t[1] == '\n' && t[2..] == s;
  }

  lemma CrLfSingle(c: char, s: string)
    requires c != '\r' || s == "" || s[0] != '\n'
    ensures ReplaceCrLf([c] + s) == [c] + ReplaceCrLf(s)
  {
    assert ([c] + s)[0] == c && ([c] + s)[1..] == s;
  }

  lemma PairTail(a: string)
    requires |a| > 1 && a[0] == '\r' && a[1] == '\n'
    ensures a == "\r\n" + a[2..]
  {
  }

  lemma PairConcat(s: string, x: string, b: string)
    ensures "\r\n" + s + x + b == "\r\n" + (s + x + b) && "\n" + s + x + b == "\n" + (s + x + b)
  {
  }

  lemma ConsThree(c: char, s: string, x: string, b: string)
    ensures [c] + s + x + b == [c] + (s + x + b)
  {
  }

  // Where no "\r\n" stands across the border, what is before it is read alone.
  lemma {:induction false} CrLfBefore(a: string, x: string, b: string)
    requires x != "" && (x[0] != '\n' || a == "" || a[|a| - 1] != '\r')
    ensures ReplaceCrLf(a + x + b) == ReplaceCrLf(a) + ReplaceCrLf(x + b)
    decreases |a|
  {
    if a == "" {
      assert "" + x + b == x + b;
    } else if |a| > 1 && a[0] == '\r' && a[1] == '\n' {
      var rest := a[2..];
      PairTail(a);
      PairConcat(rest, x, b);
      CrLfPair(rest);
      CrLfPair(rest + x + b);
      CrLfBefore(rest, x, b);
    } else {
      var rest := a[1..];
      HeadTail(a);
      ConsThree(a[0], rest, x, b);
      CrLfBefore(rest, x, b);
      CrLfSingle(a[0], rest);
      CrLfSingle(a[0], rest + x + b);
    }
  }

  lemma UnifiedAround(a: string, c: char, b: string)
    requires c != '\r' && c != '\n'
    ensures Unified(a + [c] + b) == Unified(a) + [c] + Unified(b)
  {
    CrLfBefore(a, [c], b);
    CrLfSingle(c, b);
    Normalizer.CrConcat(ReplaceCrLf(a), [c] + ReplaceCrLf(b));
    Normalizer.CrConcat([c], ReplaceCrLf(b));
    assert ReplaceCr([c]) == [c];
  }

  lemma NewlineAfter(a: string, b: string)
    requires a == "" || a[|a| - 1] != '\r'
    ensures ReplaceCrLf(a + "\n" + b) == ReplaceCrLf(a) + ("\n" + ReplaceCrLf(b))
  {
    CrLfBefore(a, "\n", b);
    CrLfSingle('\n', b);
    assert ['\n'] + b == "\n" + b;
  }

  // "\r\n" is one line end.
  lemma CrLfUnified(a: string, b: string)
    requires a == "" || a[|a| - 1] != '\r'
    ensures Unified(a + "\r\n" + b) == Unified(a + "\n" + b)
  {
    CrLfBefore(a, "\r\n", b);
    CrLfPair(b);
    NewlineAfter(a, b);
  }

  // And so is "\r" where no "\n" follows it.
  lemma CrUnified(a: string, b: string)
    requires a == "" || a[|a| - 1] != '\r'
    requires b == "" || b[0] != '\n'
    ensures Unified(a + "\r" + b) == Unified(a + "\n" + b)
  {
    CrLfBefore(a, "\r", b);
    CrLfSingle('\r', b);
    NewlineAfter(a, b);
    CrOrNewline(ReplaceCrLf(a), ReplaceCrLf(b));
    assert ['\r'] + b == "\r" + b;
  }

  lemma CrOrNewline(x: string, y: string)
    ensures ReplaceCr(x + (['\r'] + y)) == ReplaceCr(x + ("\n" + y))
  {
    Normalizer.CrConcat(x, ['\r'] + y);
    Normalizer.CrConcat(x, "\n" + y);
    assert (['\r'] + y)[1..] == y && ("\n" + y)[1..] == y;
  }

  // Line ends are read alike, however they are written.
  lemma LineEndsAlike(a: string, b: string)
    requires a == "" || a[|a| - 1] != '\r'
    ensures Normalize(a + "\r\n" + b) == Normalize(a + "\n" + b)
    ensures b == "" || b[0] != '\n' ==> Normalize(a + "\r" + b) == Normalize(a + "\n" + b)
  {
    CrLfUnified(a, b);
    if b == "" || b[0] != '\n' { CrUnified(a, b); }
  }

  /******* Blanks and empty lines *******/

  lemma {:induction false} BlanksAlike(a: string, x: string, y: string, b: string)
    requires (x == " " || x == "\t" || x == "  ") && (y == " " || y == "\t" || y == "  ")
    ensures CollapseBlanks(a + x + b) == CollapseBlanks(a + y + b)
    decreases |a|
  {
    var s, t := a + x + b, a + y + b;
    if a == "" {
      LeadingBlanks(x, b);
      LeadingBlanks(y, b);
    } else {
      assert s[0] == t[0] == a[0] && s[1..] == a[1..] + x + b && t[1..] == a[1..] + y + b;
      assert |s| > 1 && |t| > 1 && (IsBlank(s[1]) <==> IsBlank(t[1])) by {
        if |a| > 1 { assert s[1] == t[1] == a[1]; } else { assert s[1] == x[0] && t[1] == y[0]; }
      }
      BlanksAlike(a[1..], x, y, b);
    }
  }

  lemma LeadingBlanks(x: string, b: string)
    requires x == " " || x == "\t" || x == "  "
    ensures "" + x + b == x + b && CollapseBlanks(x + b) == CollapseBlanks(" " + b)
  {
    var s := x + b;
    assert s[0] == x[0] && (" " + b)[1..] == b && (" " + b)[0] == ' ';
    if |x| == 2 {
      assert s[1] == ' ' && s[1..] == " " + b;
    } else {
      assert s[1..] == b;
    }
  }

  lemma UnifiedTwoBlanks(a: string, b: string)
    ensures Unified(a + "  " + b) == Unified(a) + "  " + Unified(b)
  {
    UnifiedAround(a, ' ', " " + b);
    UnifiedAround("", ' ', b);
    assert "" + [' '] + b == " " + b && a + [' '] + (" " + b) == a + "  " + b;
    assert Unified(a) + [' '] + (" " + Unified(b)) == Unified(a) + "  " + Unified(b);
  }

  // A tab is read as a blank, and two blanks as one.
  lemma RunsOfBlanksAlike(a: string, b: string)
    ensures Normalize(a + "\t" + b) == Normalize(a + " " + b)
    ensures Normalize(a + "  " + b) == Normalize(a + " " + b)
  {
    UnifiedAround(a, '\t', b);
    UnifiedAround(a, ' ', b);
    UnifiedTwoBlanks(a, b);
    BlanksAlike(Unified(a), "\t", " ", Unified(b));
    BlanksAlike(Unified(a), "  ", " ", Unified(b));
  }

  lemma {:induction false} NewlinesAlike(a: string, b: string)
    ensures CollapseNewlines(a + "\n\n\n" + b) == CollapseNewlines(a + "\n\n" + b)
    decreases |a|
  {
    var s, t := a + "\n\n\n" + b, a + "\n\n" + b;
    if a == "" {
      assert ThreeNewlinesAt(s, 0) && s[1..] == t;
    } else {
      assert s[0] == t[0] == a[0] && s[1..] == a[1..] + "\n\n\n" + b && t[1..] == a[1..] + "\n\n" + b;
      assert ThreeNewlinesAt(s, 0) == ThreeNewlinesAt(t, 0) by {
        assert |s| > 2 && |t| > 2 && s[1] == t[1] && s[2] == t[2];
      }
      NewlinesAlike(a[1..], b);
    }
  }

  lemma {:induction false} LastIsNewline(a: string)
    requires a != "" && a[|a| - 1] == '\n'
    ensures ReplaceCrLf(a) != "" && ReplaceCrLf(a)[|ReplaceCrLf(a)| - 1] == '\n'
    decreases |a|
  {
    if |a| > 1 && a[0] == '\r' && a[1] == '\n' {
      if |a| > 2 { LastIsNewline(a[2..]); }
    } else if |a| > 1 {
      LastIsNewline(a[1..]);
    }
  }

  lemma {:induction false} CrByCharacter(s: string)
    ensures |ReplaceCr(s)| == |s|
    ensures forall i :: 0 <= i < |s| ==> ReplaceCr(s)[i] == if s[i] == '\r' then '\n' else s[i]
  {
    if s != "" { CrByCharacter(s[1..]); }
  }

  lemma UnifiedAfterNewline(a: string, b: string)
    requires a != "" && a[|a| - 1] == '\n'
    ensures Unified(a + "\n" + b) == Unified(a) + "\n" + Unified(b)
    ensures Unified(a) != "" && Unified(a)[|Unified(a)| - 1] == '\n'
  {
    var x, y := ReplaceCrLf(a), ReplaceCrLf(b);
    NewlineAfter(a, b);
    Normalizer.CrConcat(x, "\n" + y);
    Normalizer.CrConcat("\n", y);
    assert ReplaceCr("\n") == "\n";
    LastIsNewline(a);
    CrByCharacter(x);
  }

  lemma Newline(b: string)
    ensures Unified("\n" + b) == "\n" + Unified(b)
  {
    CrLfSingle('\n', b);
    Normalizer.CrConcat("\n", ReplaceCrLf(b));
    assert ['\n'] + b == "\n" + b && ReplaceCr("\n") == "\n";
  }

  lemma {:induction false} BlanksBeside(a: string, b: string)
    ensures CollapseBlanks(a + "\n" + b) == CollapseBlanks(a) + "\n" + CollapseBlanks(b)
  {
    var s := a + "\n" + b;
    if a == "" {
      assert s[0] == '\n' && s[1..] == b;
    } else {
      assert s[0] == a[0] && s[1..] == a[1..] + "\n" + b && s[1] == if |a| > 1 then a[1] else '\n';
      BlanksBeside(a[1..], b);
    }
  }

  lemma Regroup(a: string, x: string, y: string, b: string)
    ensures a + x + (y + b) == a + (x + y) + b
  {
  }

  lemma BlanksBesideTwo(a: string, b: string)
    ensures CollapseBlanks(a + "\n\n" + b) == CollapseBlanks(a) + "\n\n" + CollapseBlanks(b)
  {
    BlanksBeside(a, "\n" + b);
    BlanksBeside("", b);
    Regroup(a, "\n", "\n", b);
    Regroup(CollapseBlanks(a), "\n", "\n", CollapseBlanks(b));
    assert "" + "\n" + b == "\n" + b && "\n" + "\n" == "\n\n";
    assert CollapseBlanks("") == "";
  }

  lemma BlanksBesideThree(a: string, b: string)
    ensures CollapseBlanks(a + "\n\n\n" + b) == CollapseBlanks(a) + "\n\n\n" + CollapseBlanks(b)
  {
    BlanksBeside(a, "\n\n" + b);
    BlanksBesideTwo("", b);
    Regroup(a, "\n", "\n\n", b);
    Regroup(CollapseBlanks(a), "\n", "\n\n", CollapseBlanks(b));
    assert "" + "\n\n" + b == "\n\n" + b && "\n" + "\n\n" == "\n\n\n";
    assert CollapseBlanks("") == "";
  }

  lemma UnifiedTwo(a: string, b: string)
    ensures Unified(a + "\n\n" + b) == Unified(a + "\n") + "\n" + Unified(b)
  {
    UnifiedAfterNewline(a + "\n", b);
    LastNewline(a, b);
  }

  lemma UnifiedThree(a: string, b: string)
    ensures Unified(a + "\n\n\n" + b) == Unified(a + "\n") + "\n\n" + Unified(b)
  {
    var w := a + "\n";
    UnifiedAfterNewline(w, "\n" + b);
    Newline(b);
    TwoSteps(w, b);
    TwoSteps(Unified(w), Unified(b));
    LastNewline(a, b);
  }

  lemma TwoSteps(w: string, b: string)
    ensures w + "\n" + ("\n" + b) == w + "\n\n" + b
  {
  }

  lemma UnifiedNewlines(a: string, b: string) returns (u: string)
    ensures Unified(a + "\n\n" + b) == u + "\n\n" + Unified(b)
    ensures Unified(a + "\n\n\n" + b) == u + "\n\n\n" + Unified(b)
  {
    UnifiedAfterNewline(a + "\n", b);
    UnifiedTwo(a, b);
    UnifiedThree(a, b);
    var w := Unified(a + "\n");
    u := w[..|w| - 1];
    assert w == u + "\n";
    LastNewline(u, Unified(b));
  }

  lemma LastNewline(u: string, v: string)
    ensures u + "\n" + "\n" + v == u + "\n\n" + v && u + "\n" + "\n\n" + v == u + "\n\n\n" + v
  {
  }

  // Two empty lines in a row are read as one.
  lemma EmptyLinesAlike(a: string, b: string)
    ensures Normalize(a + "\n\n\n" + b) == Normalize(a + "\n\n" + b)
  {
    var u := UnifiedNewlines(a, b);
    BlanksBesideTwo(u, Unified(b));
    BlanksBesideThree(u, Unified(b));
    NewlinesAlike(CollapseBlanks(u), CollapseBlanks(Unified(b)));
  }

  /******* Nothing visible is lost *******/

  // The characters that are no spaces.
  function Ink(s: string): string {
    if s == "" then "" else (if IsSpace(s[0]) then "" else [s[0]]) + Ink(s[1..])
  }

  lemma InkCons(c: char, s: string)
    ensures Ink([c] + s) == (if IsSpace(c) then "" else [c]) + Ink(s)
  {
    assert ([c] + s)[0] == c && ([c] + s)[1..] == s;
  }

  lemma {:induction false} InkConcat(a: string, b: string)
    ensures Ink(a + b) == Ink(a) + Ink(b)
  {
    if a == "" {
      assert a + b == b;
    } else {
      HeadTail(a);
      ConsConcat(a[0], a[1..], b);
      InkConcat(a[1..], b);
      InkCons(a[0], a[1..]);
      InkCons(a[0], a[1..] + b);
    }
  }

  lemma CrLfCons(s: string)
    requires |s| > 1 && s[0] == '\r' && s[1] == '\n'
    ensures Ink(s) == Ink(s[2..])
  {
    HeadTail(s);
    HeadTail(s[1..]);
    InkCons(s[0], s[1..]);
    InkCons(s[1], s[2..]);
    assert s[1..][1..] == s[2..];
  }

  lemma {:induction false} InkCrLf(s: string)
    ensures Ink(ReplaceCrLf(s)) == Ink(s)
    decreases |s|
  {
    if |s| > 1 && s[0] == '\r' && s[1] == '\n' {
      InkCrLf(s[2..]);
      InkCons('\n', ReplaceCrLf(s[2..]));
      CrLfCons(s);
    } else if s != "" {
      InkCrLf(s[1..]);
      InkCons(s[0], ReplaceCrLf(s[1..]));
    }
  }

  lemma {:induction false} InkCr(s: string)
    ensures Ink(ReplaceCr(s)) == Ink(s)
  {
    if s != "" {
      InkCr(s[1..]);
      InkCons(if s[0] == '\r' then '\n' else s[0], ReplaceCr(s[1..]));
    }
  }

  lemma {:induction false} InkBlanks(s: string)
    ensures Ink(CollapseBlanks(s)) == Ink(s)
  {
    if s != "" {
      InkBlanks(s[1..]);
      InkCons(s[0], CollapseBlanks(s[1..]));
      InkCons(' ', CollapseBlanks(s[1..]));
    }
  }

  lemma {:induction false} InkNewlines(s: string)
    ensures Ink(CollapseNewlines(s)) == Ink(s)
  {
    if s != "" {
      InkNewlines(s[1..]);
      InkCons(s[0], CollapseNewlines(s[1..]));
    }
  }

  lemma {:induction false} InkOfSpaces(s: string)
    requires forall i :: 0 <= i < |s| ==> IsSpace(s[i])
    ensures Ink(s) == ""
  {
    if s != "" { InkOfSpaces(s[1..]); }
  }

  lemma InkOfSlice(t: string, lo: nat, hi: nat)
    requires lo <= hi <= |t|
    requires forall i :: 0 <= i < |t| && (i < lo || hi <= i) ==> IsSpace(t[i])
    ensures Ink(t[lo..hi]) == Ink(t)
  {
    InkBetween(t[..lo], t[lo..hi], t[hi..]);
    InThree(t, lo, hi);
  }

  lemma InThree(t: string, lo: nat, hi: nat)
    requires lo <= hi <= |t|
    ensures t == t[..lo] + t[lo..hi] + t[hi..]
  {
  }

  lemma InkBetween(a: string, b: string, c: string)
    requires forall i :: 0 <= i < |a| ==> IsSpace(a[i])
    requires forall i :: 0 <= i < |c| ==> IsSpace(c[i])
    ensures Ink(a + b + c) == Ink(b)
  {
    InkOfSpaces(a);
    InkOfSpaces(c);
    InkConcat(a, b);
    InkConcat(a + b, c);
  }

  lemma InkOfAll(s: string)
    ensures Ink(CollapseAll(s)) == Ink(s)
  {
    InkCrLf(s);
    InkCr(ReplaceCrLf(s));
    InkBlanks(Unified(s));
    InkNewlines(CollapseBlanks(Unified(s)));
  }

  // Normalising keeps every visible character, in order.
  lemma InkKept(s: string)
    ensures Ink(Normalize(s)) == Ink(s)
  {
    InkOfAll(s);
    var lo, hi := Normalizer.StripIsSlice(CollapseAll(s));
    InkOfSlice(CollapseAll(s), lo, hi);
  }
}
