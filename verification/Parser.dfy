/**
  The YAML parser of the match language (src/zataone/policy_engine/dsl/parser.py):
  a rule's `match:` block becomes a match tree.
 */
module Parser {
  import opened Options
  import opened Yaml
  import opened Dsl

  // A value, or the TypeError or ValueError that Python raises on a malformed block.
  datatype Outcome<+T> = Ok(value: T) | Raised {
    predicate IsFailure() { Raised? }
    function PropagateFailure<U>(): Outcome<U> requires Raised? { Raised }
    function Extract(): T requires Ok? { value }
  }

  // float(v)
  function FloatOf(v: Value): Outcome<real> {
    match v
    case Number(x, _) => Ok(x)
    case Bool(b) => Ok(if b then 1.0 else 0.0)
    case Str(_, Some(x)) => Ok(x)
    case _ => Raised
  }

  function Shown(vs: seq<Value>): seq<string> {
    if vs == [] then [] else [Show(vs[0])] + Shown(vs[1..])
  }

  function Chars(s: string): seq<string> {
    if s == "" then [] else [[s[0]]] + Chars(s[1..])
  }

  function Keys(entries: seq<(string, Value)>): seq<string> {
    if entries == [] then [] else [entries[0].0] + Keys(entries[1..])
  }

  // [str(t) for t in v or []]: a bare string is read character by character.
  function Strings(v: Value): Outcome<seq<string>> {
    if !Truthy(v) then Ok([])
    else
      match v
      case List(items, _) => Ok(Shown(items))
      case Str(s, _) => Ok(Chars(s))
      case Dict(entries, _) => Ok(Keys(entries))
      case _ => Raised
  }

  function PatternOf(v: Value): Outcome<PatternSpec>
    requires v.Dict?
  {
    var confidence :- FloatOf(GetOr(v.entries, "confidence", Number(DEFAULT_CONFIDENCE, "0.9")));
    Ok(PatternSpec(Show(GetOr(v.entries, "pattern", Str("", None))), confidence,
                   Show(GetOr(v.entries, "description", Str("", None)))))
  }

  function PatternsOf(items: seq<Value>): Outcome<seq<PatternSpec>> {
    if items == [] then Ok([])
    else
      var n := |items| - 1;
      var before :- PatternsOf(items[..n]);
      match items[n]
      case Str(s, _) => Ok(before + if s == "" then [] else [PatternSpec(s, DEFAULT_CONFIDENCE, "")])
      case Dict(_, _) =>
        var p :- PatternOf(items[n]);
        Ok(before + if p.pattern == "" then [] else [p])
      case _ => Ok(before)
  }

  function Patterns(v: Value): Outcome<seq<PatternSpec>> {
    if Truthy(v) && v.List? then PatternsOf(v.items) else Ok([])
  }

  // _parse_patterns
  method ParsePatterns(v: Value) returns (r: Outcome<seq<PatternSpec>>)
    ensures r == Patterns(v)
  {
    if !Truthy(v) || !v.List? { return Ok([]); }
    var specs: seq<PatternSpec> := [];
    for n := 0 to |v.items|
      invariant PatternsOf(v.items[..n]) == Ok(specs)
    {
      assert v.items[..n + 1][..n] == v.items[..n];
      match v.items[n] {
        case Str(s, _) =>
          specs := specs + if s == "" then [] else [PatternSpec(s, DEFAULT_CONFIDENCE, "")];
        case Dict(_, _) =>
          var p := PatternOf(v.items[n]);
          if p.Raised? {
            RaisedStays(v.items, n + 1);
            return Raised;
          }
          specs := specs + if p.value.pattern == "" then [] else [p.value];
        case _ =>
      }
    }
    assert v.items[..|v.items|] == v.items;
    r := Ok(specs);
  }

  lemma {:induction false} RaisedStays(items: seq<Value>, n: nat)
    requires n <= |items| && PatternsOf(items[..n]) == Raised
    ensures PatternsOf(items) == Raised
    decreases |items|
  {
    if n == |items| {
      assert items[..n] == items;
    } else {
      var m := |items| - 1;
      assert items[..m][..n] == items[..n];
      RaisedStays(items[..m], n);
    }
  }

  /******* Groups *******/

  // _parse_group_item
  function ParseItem(v: Value): Outcome<Group>
    decreases v, 1
  {
    if v.Dict? then ParseGroup(v) else Ok(AnyOf([Show(v)], [], []))
  }

  function ParseItems(vs: seq<Value>): Outcome<seq<Group>>
    decreases vs, 0
  {
    if vs == [] then Ok([])
    else
      var g :- ParseItem(vs[0]);
      var gs :- ParseItems(vs[1..]);
      Ok([g] + gs)
  }

  function LeafTerms(d: Value): Value
    requires d.Dict?
  {
    Or(Get(d, "terms"), Get(d, "prohibited_terms"))
  }

  // _parse_group_dict. Past the two list cases neither key holds a list, so the
  // loop that would add children adds none.
  function ParseGroup(d: Value): Outcome<Group>
    requires d.Dict?
    decreases d, 0
  {
    var all, any := Get(d, "all"), Get(d, "any");
    if all.List? then
      var children :- ParseItems(all.items);
      Ok(Group(All, [], DEFAULT_CONFIDENCE, [], children))
    else if any.List? then
      var children :- ParseItems(any.items);
      Ok(Group(Any, [], DEFAULT_CONFIDENCE, [], children))
    else
      var patterns :- Patterns(Get(d, "patterns"));
      var terms :- Strings(LeafTerms(d));
      var confidence :- FloatOf(GetOr(d.entries, "term_confidence", Number(DEFAULT_CONFIDENCE, "0.9")));
      Ok(Group(if all == Bool(true) then All else Any, terms, confidence, patterns, []))
  }

  /******* The block *******/

  // _parse_exception_group
  function ParseExceptions(v: Value): Outcome<Option<Group>> {
    match v
    case Dict(_, _) =>
      var terms :- Strings(Or(Get(v, "terms"), Get(v, "exception_terms")));
      var patterns :- Patterns(Or(Get(v, "patterns"), Get(v, "exception_patterns")));
      Ok(Some(AnyOf(terms, patterns, [])))
    case List(items, _) => Ok(Some(AnyOf(Shown(items), [], [])))
    case _ => Ok(None)
  }

  // _parse_context_group
  function ParseContext(v: Value): Outcome<Option<Group>> {
    match v
    case Dict(_, _) =>
      var terms :- Strings(Or(Get(v, "terms"), Get(v, "context_terms")));
      Ok(Some(AnyOf(terms, [], [])))
    case List(items, _) => Ok(Some(AnyOf(Shown(items), [], [])))
    case _ => Ok(None)
  }

  function ParseList(op: Op, items: seq<Value>): Outcome<Option<Group>> {
    var children :- ParseItems(items);
    Ok(Some(Group(op, [], DEFAULT_CONFIDENCE, [], children)))
  }

  function ParseSome(d: Value): Outcome<Option<Group>>
    requires d.Dict?
  {
    var g :- ParseGroup(d);
    Ok(Some(g))
  }

  // match.get("match") or match.get("any") or match.get("all")
  function BodyValue(block: Value): Value
    requires block.Dict?
  {
    Or(Or(Get(block, "match"), Get(block, "any")), Get(block, "all"))
  }

  // _parse_body
  function ParseBody(block: Value): Outcome<Option<Group>>
    requires block.Dict?
  {
    var body := BodyValue(block);
    if body.Dict? then ParseSome(body)
    else if body.List? then ParseList(Any, body.items)
    else if Has(block.entries, "any") then
      var v := Get(block, "any");
      if v.List? then ParseList(Any, v.items) else if v.Dict? then ParseSome(v) else Ok(None)
    else if Has(block.entries, "all") then
      var v := Get(block, "all");
      if v.List? then ParseList(All, v.items) else if v.Dict? then ParseSome(v) else Ok(None)
    else if Has(block.entries, "terms") || Has(block.entries, "patterns") || Has(block.entries, "prohibited_terms")
    then ParseSome(block)
    else Ok(None)
  }

  // parse_match_block
  function ParseMatchBlock(block: Value): Outcome<Option<Ast>> {
    if !Truthy(block) || !block.Dict? then Ok(None)
    else
      var exceptions :- ParseExceptions(Or(Get(block, "exceptions"), Get(block, "not")));
      var context :- ParseContext(Get(block, "requires_context"));
      var body :- ParseBody(block);
      Ok(Some(Ast(exceptions, context, body)))
  }
}
