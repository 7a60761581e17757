/**
  Character-level operations on text: lower-casing, substring search, and the
  two whitespace normalisers (src/zataone/document/builder.py and
  src/zataone/policy_engine/normalize.py).

  Text is ASCII, so Unicode NFC is the identity and lower-casing keeps lengths.
 */
module Text {

  // The ASCII characters that Python's str.strip() removes.
  predicate IsSpace(c: char) {
    '\t' <= c <= '\r' || 0x1c as char <= c <= ' '
  }

  predicate IsBlank(c: char) {
    c == ' ' || c == '\t'
  }

  function LowerChar(c: char): char {
    if 'A' <= c <= 'Z' then c - 'A' + 'a' else c
  }

  function Lower(s: string): (r: string)
    ensures |r| == |s|
    ensures forall i :: 0 <= i < |s| ==> r[i] == LowerChar(s[i])
  {
    seq(|s|, i requires 0 <= i < |s| => LowerChar(s[i]))
  }

  function UpperChar(c: char): char {
    if 'a' <= c <= 'z' then c - 'a' + 'A' else c
  }

  function Upper(s: string): (r: string)
    ensures |r| == |s|
    ensures forall i :: 0 <= i < |s| ==> r[i] == UpperChar(s[i])
  {
    seq(|s|, i requires 0 <= i < |s| => UpperChar(s[i]))
  }

  lemma LowerConcat(a: string, b: string)
    ensures Lower(a + b) == Lower(a) + Lower(b)
  {
  }

  lemma LowerSlice(s: string, lo: nat, hi: nat)
    requires lo <= hi <= |s|
    ensures Lower(s[lo..hi]) == Lower(s)[lo..hi]
  {
  }

  lemma LowerTwice(s: string)
    ensures Lower(Lower(s)) == Lower(s)
  {
  }

  /******* Substring search *******/

  predicate OccursAt(s: string, sub: string, i: nat) {
    i + |sub| <= |s| && s[i..i + |sub|] == sub
  }

  // Python's s.find(sub, i): the first occurrence at or after i, or -1.
  function FindFrom(s: string, sub: string, i: nat): (r: int)
    ensures -1 <= r
    ensures r >= 0 ==> i <= r && OccursAt(s, sub, r)
    ensures forall k: nat :: i <= k && OccursAt(s, sub, k) ==> 0 <= r <= k
    decreases |s| - i
  {
    if i + |sub| > |s| then -1
    else if s[i..i + |sub|] == sub then i
    else FindFrom(s, sub, i + 1)
  }

  function Find(s: string, sub: string): (r: int)
    ensures -1 <= r
    ensures r >= 0 ==> OccursAt(s, sub, r)
    ensures forall k: nat :: OccursAt(s, sub, k) ==> 0 <= r <= k
  {
    FindFrom(s, sub, 0)
  }

  // Python's `sub in s`.
  predicate Contains(s: string, sub: string) {
    Find(s, sub) >= 0
  }

  /******* The normaliser, pass by pass *******/

  // t.replace("\r\n", "\n")
  function ReplaceCrLf(s: string): string {
    if s == [] then []
    else if |s| > 1 && s[0] == '\r' && s[1] == '\n' then "\n" + ReplaceCrLf(s[2..])
    else [s[0]] + ReplaceCrLf(s[1..])
  }

  // t.replace("\r", "\n")
  function ReplaceCr(s: string): string {
    if s == [] then []
    else [if s[0] == '\r' then '\n' else s[0]] + ReplaceCr(s[1..])
  }

  // re.sub(r"[ \t]+", " ", t): the last blank of each run stands for the run.
  function CollapseBlanks(s: string): string {
    if s == [] then []
    else if !IsBlank(s[0]) then [s[0]] + CollapseBlanks(s[1..])
    else if |s| > 1 && IsBlank(s[1]) then CollapseBlanks(s[1..])
    else " " + CollapseBlanks(s[1..])
  }

  predicate ThreeNewlinesAt(s: string, i: nat) {
    i + 2 < |s| && s[i] == '\n' && s[i + 1] == '\n' && s[i + 2] == '\n'
  }

  // re.sub(r"\n{3,}", "\n\n", t): the last two newlines of each long run stay.
  function CollapseNewlines(s: string): string {
    if s == [] then []
    else if ThreeNewlinesAt(s, 0) then CollapseNewlines(s[1..])
    else [s[0]] + CollapseNewlines(s[1..])
  }

  function StripLeft(s: string): string {
    if s != [] && IsSpace(s[0]) then StripLeft(s[1..]) else s
  }

  function StripRight(s: string): string {
    if s != [] && IsSpace(s[|s| - 1]) then StripRight(s[..|s| - 1]) else s
  }

  function Strip(s: string): string {
    StripRight(StripLeft(s))
  }

  function CollapseAll(s: string): string {
    CollapseNewlines(CollapseBlanks(ReplaceCr(ReplaceCrLf(s))))
  }

  // normalize_document_text
  function Normalize(s: string): string {
    Strip(CollapseAll(s))
  }

  // normalize_for_matching: the same passes, with lower-casing in the middle.
  function NormalizeForMatching(s: string): string {
    Strip(CollapseNewlines(CollapseBlanks(Lower(ReplaceCr(ReplaceCrLf(s))))))
  }

  /******* What a normalised text looks like *******/

  predicate Trimmed(s: string) {
    s != [] ==> !IsSpace(s[0]) && !IsSpace(s[|s| - 1])
  }

  // No carriage return, no tab, no two spaces in a row, no three newlines in a row.
  predicate Tidy(s: string) {
    && (forall i :: 0 <= i < |s| ==> s[i] != '\r' && s[i] != '\t')
    && (forall i :: 0 <= i < |s| - 1 ==> !(s[i] == ' ' && s[i + 1] == ' '))
    && (forall i: nat :: i < |s| ==> !ThreeNewlinesAt(s, i))
  }

  predicate Normalized(s: string) {
    Tidy(s) && Trimmed(s)
  }
}
