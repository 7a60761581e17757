/**
  Parsing preserves the reading of a match block
  (src/zataone/policy_engine/dsl/parser.py, lines 10-104). The reading below is
  defined on the YAML value itself, at every depth, without going through the tree.
 */
module ParserMeaning {
  import opened Options
  import opened Text
  import opened Yaml
  import opened Dsl
  import opened Parser
  import opened DslMeaning
  import opened Sequences

  /******* The direct reading *******/

  // A text as the evaluator sees it.
  datatype Page = Page(norm: string, display: string)

  ghost predicate Occurs(p: Page, term: string) {
    TermOccurs(p.norm, term)
  }

  // A string is its occurrence; a dictionary reads its `all` list, else its `any`
  // list, else its own terms and patterns.
  ghost predicate ItemReads(re: Search, p: Page, v: Value)
    decreases v, 1
  {
    if v.Dict? then DictReads(re, p, v) else Occurs(p, Show(v))
  }

  ghost predicate DictReads(re: Search, p: Page, d: Value)
    requires d.Dict?
    decreases d, 0
  {
    var all, any := Get(d, "all"), Get(d, "any");
    if all.List? then
      all.items != [] && forall i :: 0 <= i < |all.items| ==> ItemReads(re, p, all.items[i])
    else if any.List? then
      exists i :: 0 <= i < |any.items| && ItemReads(re, p, any.items[i])
    else LeafReads(re, p, d)
  }

  // The value under the first key when it is true, else the one under the second.
  function Either(d: Value, first: string, second: string): Value
    requires d.Dict?
  {
    if Truthy(Get(d, first)) then Get(d, first) else Get(d, second)
  }

  // What a value written as terms asks for: the items of a list as they are shown, the
  // characters of a string, the keys of a dictionary.
  ghost predicate AsksFor(v: Value, term: string) {
    match v
    case List(items, _) => exists i :: 0 <= i < |items| && Show(items[i]) == term
    case Str(s, _) => exists i :: 0 <= i < |s| && [s[i]] == term
    case Dict(entries, _) => exists i :: 0 <= i < |entries| && entries[i].0 == term
    case _ => false
  }

  // The text under `pattern`, which may be missing.
  function PatternText(v: Value): string
    requires v.Dict?
  {
    if Has(v.entries, "pattern") then Show(Get(v, "pattern")) else ""
  }

  // A list of patterns has this one, as a string or in a dictionary.
  ghost predicate HasPattern(v: Value, pattern: string) {
    && v.List? && pattern != ""
    && exists i :: 0 <= i < |v.items| && IsPattern(v.items[i], pattern)
  }

  predicate IsPattern(v: Value, pattern: string) {
    (v.Str? && v.s == pattern) || (v.Dict? && PatternText(v) == pattern)
  }

  ghost predicate Matches(re: Search, p: Page, pattern: string) {
    re(pattern, p.display).Some? || re(pattern, p.norm).Some?
  }

  ghost predicate SomeTermReads(p: Page, v: Value) {
    exists t :: AsksFor(v, t) && Occurs(p, t)
  }

  ghost predicate SomePatternReads(re: Search, p: Page, v: Value) {
    exists t :: HasPattern(v, t) && Matches(re, p, t)
  }

  // A dictionary without lists: its `terms`, or `prohibited_terms` when there are none, and
  // its `patterns`. Under `all: true` it asks for every one of them, else for some.
  ghost predicate LeafReads(re: Search, p: Page, d: Value)
    requires d.Dict?
  {
    var terms, patterns := Either(d, "terms", "prohibited_terms"), Get(d, "patterns");
    if Get(d, "all") == Bool(true) then
      && ((exists t :: AsksFor(terms, t)) || (exists t :: HasPattern(patterns, t)))
      && (forall t :: AsksFor(terms, t) ==> Occurs(p, t))
      && (forall t :: HasPattern(patterns, t) ==> Matches(re, p, t))
    else SomeTermReads(p, terms) || SomePatternReads(re, p, patterns)
  }

  ghost predicate SomeItemReads(re: Search, p: Page, items: seq<Value>) {
    exists i :: 0 <= i < |items| && ItemReads(re, p, items[i])
  }

  ghost predicate EveryItemReads(re: Search, p: Page, items: seq<Value>) {
    items != [] && forall i :: 0 <= i < |items| ==> ItemReads(re, p, items[i])
  }

  // At the top level a list under any of the three keys means "some item". An `all`
  // list means "every item" only where a scalar under `match` hides it from that rule.
  ghost predicate BodyReads(re: Search, p: Page, block: Value)
    requires block.Dict?
  {
    var first := if Truthy(Get(block, "match")) then Get(block, "match") else Either(block, "any", "all");
    if first.Dict? then DictReads(re, p, first)
    else if first.List? then SomeItemReads(re, p, first.items)
    else if Has(block.entries, "any") then
      var v := Get(block, "any");
      (v.List? && SomeItemReads(re, p, v.items)) || (v.Dict? && DictReads(re, p, v))
    else if Has(block.entries, "all") then
      var v := Get(block, "all");
      (v.List? && EveryItemReads(re, p, v.items)) || (v.Dict? && DictReads(re, p, v))
    else
      (Has(block.entries, "terms") || Has(block.entries, "patterns") || Has(block.entries, "prohibited_terms"))
      && DictReads(re, p, block)
  }

  ghost predicate SomeShownOccurs(p: Page, items: seq<Value>) {
    exists i :: 0 <= i < |items| && Occurs(p, Show(items[i]))
  }

  ghost predicate ExceptionReads(re: Search, p: Page, v: Value) {
    match v
    case Dict(_, _) =>
      || SomeTermReads(p, Either(v, "terms", "exception_terms"))
      || SomePatternReads(re, p, Either(v, "patterns", "exception_patterns"))
    case List(items, _) => SomeShownOccurs(p, items)
    case _ => false
  }

  ghost predicate ContextReads(p: Page, v: Value) {
    match v
    case Dict(_, _) =>
      var terms := Either(v, "terms", "context_terms");
      !Truthy(terms) || SomeTermReads(p, terms)
    case List(items, _) => items == [] || SomeShownOccurs(p, items)
    case _ => true
  }

  ghost predicate BlockReads(re: Search, text: string, block: Value)
    requires block.Dict?
  {
    var norm := NormalizeForMatching(text);
    && BodyReads(re, Page(norm, text), block)
    && !ExceptionReads(re, Page(norm, norm), Either(block, "exceptions", "not"))
    && ContextReads(Page(norm, norm), Get(block, "requires_context"))
  }

  /******* The tree has the same reading *******/

  ghost predicate GroupReads(re: Search, p: Page, g: Group) {
    Satisfied(re, p.norm, p.display, g)
  }

  lemma SingleTerm(re: Search, p: Page, t: string)
    ensures GroupReads(re, p, AnyOf([t], [], [])) <==> Occurs(p, t)
  {
    var g := AnyOf([t], [], []);
    assert t in g.terms;
  }

  lemma {:induction false} ItemsKeepReading(re: Search, p: Page, vs: seq<Value>)
    requires ParseItems(vs).Ok?
    ensures var gs := ParseItems(vs).value;
            |gs| == |vs| && forall i :: 0 <= i < |vs| ==> (GroupReads(re, p, gs[i]) <==> ItemReads(re, p, vs[i]))
    decreases vs, 0
  {
    if vs != [] {
      var gs := ParseItems(vs).value;
      ItemKeepsReading(re, p, vs[0]);
      ItemsKeepReading(re, p, vs[1..]);
      forall i | 0 <= i < |vs| ensures GroupReads(re, p, gs[i]) <==> ItemReads(re, p, vs[i]) {
        if i > 0 { assert gs[i] == gs[1..][i - 1] && vs[i] == vs[1..][i - 1]; }
      }
    }
  }

  lemma {:induction false} ItemKeepsReading(re: Search, p: Page, v: Value)
    requires ParseItem(v).Ok?
    ensures GroupReads(re, p, ParseItem(v).value) <==> ItemReads(re, p, v)
    decreases v, 1
  {
    if v.Dict? { DictKeepsReading(re, p, v); } else { SingleTerm(re, p, Show(v)); }
  }

  // A group over parsed items reads as "every" or "some" item.
  lemma ListKeepsReading(re: Search, p: Page, op: Op, items: seq<Value>)
    requires ParseItems(items).Ok?
    ensures var g := Group(op, [], DEFAULT_CONFIDENCE, [], ParseItems(items).value);
            GroupReads(re, p, g) <==> if op == All then EveryItemReads(re, p, items) else SomeItemReads(re, p, items)
    decreases items, 1
  {
    ItemsKeepReading(re, p, items);
    var gs := ParseItems(items).value;
    GroupOverChildren(re, p, op, gs);
  }

  lemma GroupOverChildren(re: Search, p: Page, op: Op, gs: seq<Group>)
    ensures GroupReads(re, p, Group(op, [], DEFAULT_CONFIDENCE, [], gs))
       <==> if op == All then gs != [] && forall i :: 0 <= i < |gs| ==> GroupReads(re, p, gs[i])
            else exists i :: 0 <= i < |gs| && GroupReads(re, p, gs[i])
  {
  }

  // The parser's terms are what the value asks for.
  lemma TermsAskedFor(v: Value, t: string)
    requires Strings(v).Ok?
    ensures t in Strings(v).value <==> AsksFor(v, t)
  {
    TermsAsWritten(v);
    if AsksFor(v, t) {
      match v
      case List(items, _) =>
        var i :| 0 <= i < |items| && Show(items[i]) == t;
        assert WrittenTerms(v)[i] == t;
      case Str(s, _) =>
        var i :| 0 <= i < |s| && [s[i]] == t;
        assert WrittenTerms(v)[i] == t;
      case Dict(entries, _) =>
        var i :| 0 <= i < |entries| && entries[i].0 == t;
        assert WrittenTerms(v)[i] == t;
    }
  }

  // The number written under a key, or 0.9.
  function WrittenNumber(d: Value, key: string): real
    requires d.Dict?
  {
    if !Has(d.entries, key) then 0.9
    else
      match Get(d, key)
      case Number(x, _) => x
      case Bool(b) => if b then 1.0 else 0.0
      case Str(_, Some(x)) => x
      case _ => 0.9
  }

  // What an item of a pattern list says: a string with confidence 0.9, a dictionary with its
  // own pattern, confidence and description. Items without a pattern say nothing.
  function WrittenSpec(v: Value): seq<PatternSpec> {
    if v.Str? && v.s != "" then [PatternSpec(v.s, 0.9, "")]
    else if v.Dict? && PatternText(v) != "" then
      [PatternSpec(PatternText(v), WrittenNumber(v, "confidence"),
                   if Has(v.entries, "description") then Show(Get(v, "description")) else "")]
    else []
  }

  lemma OneSpec(v: Value)
    requires v.Dict? && PatternOf(v).Ok?
    ensures WrittenSpec(v) == if PatternOf(v).value.pattern == "" then [] else [PatternOf(v).value]
  {
    HasIsHeld(v, "confidence", Number(DEFAULT_CONFIDENCE, "0.9"));
    HasIsHeld(v, "pattern", Str("", None));
    HasIsHeld(v, "description", Str("", None));
  }

  // What a key holds does not depend on the default.
  lemma HasIsHeld(d: Value, key: string, default: Value)
    requires d.Dict?
    ensures GetOr(d.entries, key, default) == if Has(d.entries, key) then Get(d, key) else default
  {
    if Has(d.entries, key) { SameHeld(d.entries, key, default); }
  }

  lemma {:induction false} SameHeld(entries: seq<(string, Value)>, key: string, default: Value)
    requires Has(entries, key)
    ensures GetOr(entries, key, default) == GetOr(entries, key, Null)
  {
    if entries[0].0 != key {
      var i :| 0 <= i < |entries| && entries[i].0 == key;
      assert entries[1..][i - 1].0 == key;
      SameHeld(entries[1..], key, default);
    }
  }

  // A parsed pattern list is what its items say, in order.
  lemma {:induction false} PatternsAsWritten(items: seq<Value>)
    requires PatternsOf(items).Ok?
    ensures PatternsOf(items).value == FlatMap(items, WrittenSpec)
  {
    if items != [] {
      var n := |items| - 1;
      PatternsAsWritten(items[..n]);
      if items[n].Dict? { OneSpec(items[n]); }
    }
  }

  lemma SpecSays(v: Value, pattern: string)
    requires pattern != ""
    ensures (exists s :: s in WrittenSpec(v) && s.pattern == pattern) <==> IsPattern(v, pattern)
  {
    if IsPattern(v, pattern) { assert WrittenSpec(v)[0] in WrittenSpec(v); }
  }

  lemma PatternsFound(items: seq<Value>, pattern: string)
    requires PatternsOf(items).Ok? && pattern != ""
    ensures (exists s :: s in PatternsOf(items).value && s.pattern == pattern)
       <==> exists i :: 0 <= i < |items| && IsPattern(items[i], pattern)
  {
    PatternsAsWritten(items);
    FlatMapMembers(items, WrittenSpec);
    forall v ensures (exists s :: s in WrittenSpec(v) && s.pattern == pattern) <==> IsPattern(v, pattern) {
      SpecSays(v, pattern);
    }
    if i :| 0 <= i < |items| && IsPattern(items[i], pattern) {
      assert items[i] in items;
    }
  }

  lemma NoEmptyPattern(items: seq<Value>)
    requires PatternsOf(items).Ok?
    ensures forall s :: s in PatternsOf(items).value ==> s.pattern != ""
  {
    PatternsAsWritten(items);
    FlatMapMembers(items, WrittenSpec);
  }

  // The parser's patterns are those that the value has.
  lemma PatternsHad(v: Value, pattern: string)
    requires Patterns(v).Ok?
    ensures (exists s :: s in Patterns(v).value && s.pattern == pattern) <==> HasPattern(v, pattern)
  {
    if v.List? {
      if pattern != "" && v.items != [] { PatternsFound(v.items, pattern); }
      if v.items != [] { NoEmptyPattern(v.items); }
    }
  }

  lemma TermsReadAlike(p: Page, v: Value)
    requires Strings(v).Ok?
    ensures (exists t :: t in Strings(v).value && Occurs(p, t)) <==> SomeTermReads(p, v)
    ensures (forall t :: t in Strings(v).value ==> Occurs(p, t)) <==> (forall t :: AsksFor(v, t) ==> Occurs(p, t))
    ensures Strings(v).value != [] <==> exists t :: AsksFor(v, t)
  {
    forall t ensures t in Strings(v).value <==> AsksFor(v, t) { TermsAskedFor(v, t); }
    if Strings(v).value != [] { assert Strings(v).value[0] in Strings(v).value; }
  }

  lemma PatternsReadAlike(re: Search, p: Page, v: Value)
    requires Patterns(v).Ok?
    ensures (exists s :: s in Patterns(v).value && PatternOccurs(re, p.norm, p.display, s))
       <==> SomePatternReads(re, p, v)
    ensures (forall s :: s in Patterns(v).value ==> PatternOccurs(re, p.norm, p.display, s))
       <==> (forall t :: HasPattern(v, t) ==> Matches(re, p, t))
    ensures Patterns(v).value != [] <==> exists t :: HasPattern(v, t)
  {
    var specs := Patterns(v).value;
    forall t ensures (exists s :: s in specs && s.pattern == t) <==> HasPattern(v, t) { PatternsHad(v, t); }
    forall s: PatternSpec ensures PatternOccurs(re, p.norm, p.display, s) <==> Matches(re, p, s.pattern) {}
    forall s | s in specs ensures HasPattern(v, s.pattern) {}
    if specs != [] { assert HasPattern(v, specs[0].pattern); }
  }

  // The terms in the order in which they are written.
  function WrittenTerms(v: Value): seq<string> {
    match v
    case List(items, _) => seq(|items|, i requires 0 <= i < |items| => Show(items[i]))
    case Str(s, _) => seq(|s|, i requires 0 <= i < |s| => [s[i]])
    case Dict(entries, _) => seq(|entries|, i requires 0 <= i < |entries| => entries[i].0)
    case _ => []
  }

  lemma {:induction false} ShownInOrder(items: seq<Value>)
    ensures |Shown(items)| == |items| && forall i :: 0 <= i < |items| ==> Shown(items)[i] == Show(items[i])
  {
    if items != [] { ShownInOrder(items[1..]); }
  }

  lemma {:induction false} CharsInOrder(s: string)
    ensures |Chars(s)| == |s| && forall i :: 0 <= i < |s| ==> Chars(s)[i] == [s[i]]
  {
    if s != "" { CharsInOrder(s[1..]); }
  }

  lemma {:induction false} KeysInOrder(entries: seq<(string, Value)>)
    ensures |Keys(entries)| == |entries| && forall i :: 0 <= i < |entries| ==> Keys(entries)[i] == entries[i].0
  {
    if entries != [] { KeysInOrder(entries[1..]); }
  }

  lemma TermsAsWritten(v: Value)
    requires Strings(v).Ok?
    ensures Strings(v).value == WrittenTerms(v)
  {
    match v
    case List(items, _) => ShownInOrder(items);
    case Str(s, _) => CharsInOrder(s);
    case Dict(entries, _) => KeysInOrder(entries);
    case _ =>
  }

  // A dictionary without lists becomes one group of its own terms and patterns, with the
  // confidences that are written in it.
  lemma LeafAsWritten(d: Value)
    requires d.Dict? && ParseGroup(d).Ok? && !Get(d, "all").List? && !Get(d, "any").List?
    ensures var g, terms, patterns := ParseGroup(d).value, Either(d, "terms", "prohibited_terms"), Get(d, "patterns");
            && Strings(terms).Ok? && g.terms == Strings(terms).value == WrittenTerms(terms)
            && Patterns(patterns).Ok? && g.patterns == Patterns(patterns).value
            && g.patterns == FlatMap(if patterns.List? then patterns.items else [], WrittenSpec)
            && g.termConfidence == WrittenNumber(d, "term_confidence")
            && g.children == [] && (g.op == All <==> Get(d, "all") == Bool(true))
  {
    HasIsHeld(d, "term_confidence", Number(DEFAULT_CONFIDENCE, "0.9"));
    TermsAsWritten(Either(d, "terms", "prohibited_terms"));
    var patterns := Get(d, "patterns");
    if patterns.List? { PatternsAsWritten(patterns.items); }
  }

  lemma FlatGroupReads(re: Search, p: Page, g: Group)
    requires g.children == []
    ensures GroupReads(re, p, g)
       <==> if g.op == All then
              && (g.terms != [] || g.patterns != [])
              && (forall t :: t in g.terms ==> Occurs(p, t))
              && (forall s :: s in g.patterns ==> PatternOccurs(re, p.norm, p.display, s))
            else
              || (exists t :: t in g.terms && Occurs(p, t))
              || (exists s :: s in g.patterns && PatternOccurs(re, p.norm, p.display, s))
  {
  }

  lemma LeafKeepsReading(re: Search, p: Page, d: Value)
    requires d.Dict? && ParseGroup(d).Ok? && !Get(d, "all").List? && !Get(d, "any").List?
    ensures GroupReads(re, p, ParseGroup(d).value) <==> LeafReads(re, p, d)
  {
    LeafAsWritten(d);
    TermsReadAlike(p, Either(d, "terms", "prohibited_terms"));
    PatternsReadAlike(re, p, Get(d, "patterns"));
    FlatGroupReads(re, p, ParseGroup(d).value);
  }

  // At every depth, the parsed group is satisfied iff the dictionary reads true.
  lemma {:induction false} DictKeepsReading(re: Search, p: Page, d: Value)
    requires d.Dict? && ParseGroup(d).Ok?
    ensures GroupReads(re, p, ParseGroup(d).value) <==> DictReads(re, p, d)
    decreases d, 0
  {
    var all, any := Get(d, "all"), Get(d, "any");
    if all.List? {
      ListKeepsReading(re, p, All, all.items);
    } else if any.List? {
      ListKeepsReading(re, p, Any, any.items);
    } else {
      LeafKeepsReading(re, p, d);
    }
  }

  lemma BodyKeepsReading(re: Search, p: Page, block: Value)
    requires block.Dict? && ParseBody(block).Ok?
    ensures var body := ParseBody(block).value;
            (body.Some? && GroupReads(re, p, body.value)) <==> BodyReads(re, p, block)
  {
    var first := if Truthy(Get(block, "match")) then Get(block, "match") else Either(block, "any", "all");
    var any, all := Get(block, "any"), Get(block, "all");
    assert first == BodyValue(block);
    if first.Dict? {
      DictKeepsReading(re, p, first);
    } else if first.List? {
      ListKeepsReading(re, p, Any, first.items);
    } else if Has(block.entries, "any") {
      if any.List? { ListKeepsReading(re, p, Any, any.items); }
      else if any.Dict? { DictKeepsReading(re, p, any); }
    } else if Has(block.entries, "all") {
      if all.List? { ListKeepsReading(re, p, All, all.items); }
      else if all.Dict? { DictKeepsReading(re, p, all); }
    } else if Has(block.entries, "terms") || Has(block.entries, "patterns") || Has(block.entries, "prohibited_terms") {
      DictKeepsReading(re, p, block);
    }
  }

  lemma {:induction false} ShownMembers(p: Page, items: seq<Value>)
    ensures (exists t :: t in Shown(items) && Occurs(p, t)) <==> SomeShownOccurs(p, items)
    ensures Shown(items) == [] <==> items == []
  {
    if items != [] {
      var rest := items[1..];
      ShownMembers(p, rest);
      assert Shown(items) == [Show(items[0])] + Shown(rest);
      if SomeShownOccurs(p, items) {
        var i :| 0 <= i < |items| && Occurs(p, Show(items[i]));
        if i > 0 { assert rest[i - 1] == items[i]; }
      }
      if SomeShownOccurs(p, rest) {
        var i :| 0 <= i < |rest| && Occurs(p, Show(rest[i]));
        assert items[i + 1] == rest[i];
      }
      if Occurs(p, Show(items[0])) { assert Show(items[0]) in Shown(items); }
    }
  }

  lemma ExceptionKeepsReading(re: Search, p: Page, v: Value)
    requires ParseExceptions(v).Ok?
    ensures var g := ParseExceptions(v).value;
            (g.Some? && GroupReads(re, p, g.value)) <==> ExceptionReads(re, p, v)
  {
    if v.List? { ShownMembers(p, v.items); }
    if v.Dict? {
      TermsReadAlike(p, Either(v, "terms", "exception_terms"));
      PatternsReadAlike(re, p, Either(v, "patterns", "exception_patterns"));
    }
  }

  lemma ContextKeepsReading(p: Page, v: Value)
    requires ParseContext(v).Ok?
    ensures var g := ParseContext(v).value;
            (g.Some? ==> ContextReading(p.norm, g.value)) <==> ContextReads(p, v)
  {
    if v.List? { ShownMembers(p, v.items); }
    if v.Dict? { TermsReadAlike(p, Either(v, "terms", "context_terms")); }
  }

  // Main theorem: evaluating the parsed block is reading the block.
  lemma ParsingPreservesReading(re: Search, text: string, block: Value)
    requires block.Dict? && Truthy(block) && ParseMatchBlock(block).Ok?
    ensures var ast := ParseMatchBlock(block).value;
            ast.Some? && (Evaluate(re, text, ast.value, Some(text)).Some? <==> BlockReads(re, text, block))
  {
    var norm := NormalizeForMatching(text);
    var ast := ParseMatchBlock(block).value.value;
    BodyKeepsReading(re, Page(norm, text), block);
    ExceptionKeepsReading(re, Page(norm, norm), Either(block, "exceptions", "not"));
    ContextKeepsReading(Page(norm, norm), Get(block, "requires_context"));
    EvaluateIffReading(re, text, ast, Some(text));
  }

  /******* Quirks of the top level *******/

  // A rule whose only condition is a top-level `all:` list fires exactly when some item
  // reads. That differs from what the key says exactly when some items read and some do not.
  lemma TopLevelAllFiresOnAny(re: Search, text: string, block: Value)
    requires block.Dict? && Get(block, "all").List?
    requires !Truthy(Get(block, "match")) && !Truthy(Get(block, "any"))
    requires !Truthy(Get(block, "exceptions")) && Get(block, "not") == Null && Get(block, "requires_context") == Null
    requires ParseMatchBlock(block).Ok?
    ensures var ast, p := ParseMatchBlock(block).value, Page(NormalizeForMatching(text), text);
            && ast.Some?
            && (Evaluate(re, text, ast.value, Some(text)).Some? <==> SomeItemReads(re, p, Get(block, "all").items))
    ensures var ast, p := ParseMatchBlock(block).value, Page(NormalizeForMatching(text), text);
            var items := Get(block, "all").items;
            (ast.Some? && Evaluate(re, text, ast.value, Some(text)).Some?) != EveryItemReads(re, p, items)
            <==> SomeItemReads(re, p, items) && exists i :: 0 <= i < |items| && !ItemReads(re, p, items[i])
  {
    GetPresent(block, "all");
    ParsingPreservesReading(re, text, block);
    var p, items := Page(NormalizeForMatching(text), text), Get(block, "all").items;
    assert BlockReads(re, text, block) <==> SomeItemReads(re, p, items);
  }

  // Without an `any` key, a top-level `all:` list keeps its meaning exactly when a
  // true scalar stands under `match`.
  lemma TopLevelAllListHonoured(block: Value)
    requires block.Dict? && Get(block, "all").List? && !Has(block.entries, "any")
    requires !Get(block, "match").Dict? && ParseBody(block).Ok?
    ensures var body := ParseBody(block).value;
            && body.Some?
            && (body.value.op == All <==> Truthy(Get(block, "match")) && !Get(block, "match").List?)
  {
    GetPresent(block, "all");
  }

  lemma GetPresent(d: Value, key: string)
    requires d.Dict? && Get(d, key) != Null
    ensures Has(d.entries, key)
  {
  }

  // A top-level `all: true` leaves the block without a body, so its rule never fires.
  lemma TopLevelAllTrueNeverFires(re: Search, text: string, block: Value)
    requires block.Dict? && Get(block, "all") == Bool(true)
    requires !Truthy(Get(block, "match")) && !Has(block.entries, "any")
    requires ParseMatchBlock(block).Ok?
    ensures var ast := ParseMatchBlock(block).value;
            ast.Some? && ast.value.body == None && Evaluate(re, text, ast.value, Some(text)) == None
  {
    GetPresent(block, "all");
  }

  /******* Conditions that are ignored *******/

  ghost predicate HasOwnConditions(d: Value)
    requires d.Dict?
  {
    Truthy(Either(d, "terms", "prohibited_terms")) || Truthy(Get(d, "patterns"))
  }

  // Every condition that stands in the dictionary: its `all` list, its `any` list, its own
  // terms and patterns.
  ghost predicate AllWritten(re: Search, p: Page, d: Value)
    requires d.Dict?
  {
    var all, any := Get(d, "all"), Get(d, "any");
    && (all.List? || any.List? || HasOwnConditions(d))
    && (all.List? ==> EveryItemReads(re, p, all.items))
    && (any.List? ==> SomeItemReads(re, p, any.items))
    && (HasOwnConditions(d) ==> LeafReads(re, p, d))
  }

  // A list and something beside it that the parser never looks at.
  ghost predicate HasIgnored(d: Value)
    requires d.Dict?
  {
    var all, any := Get(d, "all"), Get(d, "any");
    (all.List? && (any.List? || HasOwnConditions(d))) || (any.List? && HasOwnConditions(d))
  }

  lemma OwnConditionsNeeded(re: Search, p: Page, d: Value)
    requires d.Dict? && LeafReads(re, p, d)
    ensures HasOwnConditions(d)
  {
  }

  // The parser never asks for more than is written, and asks for all of it where nothing
  // is ignored.
  lemma ReadsWhatIsWritten(re: Search, p: Page, d: Value)
    requires d.Dict?
    ensures AllWritten(re, p, d) ==> DictReads(re, p, d)
    ensures !HasIgnored(d) ==> (DictReads(re, p, d) <==> AllWritten(re, p, d))
  {
    var all, any := Get(d, "all"), Get(d, "any");
    if !all.List? && !any.List? && LeafReads(re, p, d) { OwnConditionsNeeded(re, p, d); }
  }

  // What is ignored has no influence at all: beside an `all` list anything may stand, and
  // beside an `any` list anything but an `all` list.
  lemma SiblingsIgnored(d: Value, e: Value)
    requires d.Dict? && e.Dict?
    requires || (Get(d, "all").List? && Get(e, "all") == Get(d, "all"))
             || (!Get(d, "all").List? && !Get(e, "all").List? && Get(d, "any").List? && Get(e, "any") == Get(d, "any"))
    ensures ParseGroup(d) == ParseGroup(e)
  {
  }
}
