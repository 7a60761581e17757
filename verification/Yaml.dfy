/** YAML values as Python loads them, with the Python operations the policy code applies. */
module Yaml {
  import opened Options

  // A dictionary keeps its keys in order. Numbers, lists and dictionaries carry the
  // text that str() shows for them; a string carries the number float() reads in it.
  datatype Value =
    | Null
    | Bool(b: bool)
    | Number(value: real, shown: string)
    | Str(s: string, number: Option<real>)
    | List(items: seq<Value>, shown: string)
    | Dict(entries: seq<(string, Value)>, shown: string)

  predicate Truthy(v: Value) {
    match v
    case Null => false
    case Bool(b) => b
    case Number(x, _) => x != 0.0
    case Str(s, _) => s != ""
    case List(items, _) => items != []
    case Dict(entries, _) => entries != []
  }

  // a or b
  function Or(a: Value, b: Value): Value {
    if Truthy(a) then a else b
  }

  function Show(v: Value): string {
    match v
    case Null => "None"
    case Bool(b) => if b then "True" else "False"
    case Number(_, shown) => shown
    case Str(s, _) => s
    case List(_, shown) => shown
    case Dict(_, shown) => shown
  }

  predicate Has(entries: seq<(string, Value)>, key: string) {
    exists i :: 0 <= i < |entries| && entries[i].0 == key
  }

  // d.get(key, default)
  function GetOr(entries: seq<(string, Value)>, key: string, default: Value): (v: Value)
    ensures Has(entries, key) ==> exists i :: 0 <= i < |entries| && entries[i] == (key, v)
    ensures !Has(entries, key) ==> v == default
  {
    if entries == [] then default
    else if entries[0].0 == key then entries[0].1
    else
      var v := GetOr(entries[1..], key, default);
      assert Has(entries, key) ==> Has(entries[1..], key) by {
        if Has(entries, key) {
          var i :| 0 <= i < |entries| && entries[i].0 == key;
          assert entries[1..][i - 1].0 == key;
        }
      }
      v
  }

  // d.get(key)
  function Get(d: Value, key: string): (v: Value)
    requires d.Dict?
    ensures v == Null || v < d
  {
    var v := GetOr(d.entries, key, Null);
    assert v == Null || v < d by {
      if Has(d.entries, key) {
        var i :| 0 <= i < |d.entries| && d.entries[i] == (key, v);
        assert d.entries[i] < d;
      }
    }
    v
  }

  // What Python finds false: None, False, zero and everything empty.
  lemma FalseValues(v: Value)
    ensures !Truthy(v)
       <==> || v == Null || v == Bool(false) || (v.Number? && v.value == 0.0)
            || (v.Str? && v.s == "") || (v.List? && v.items == []) || (v.Dict? && v.entries == [])
  {
  }

  // What str() gives for the values whose text is not written beside them.
  lemma ShownValues(s: string, x: Option<real>)
    ensures Show(Null) == "None" && Show(Bool(true)) == "True" && Show(Bool(false)) == "False" && Show(Str(s, x)) == s
  {
  }
}
