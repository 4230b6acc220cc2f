/** Parsed JSON/YAML values as the gateway sees them at run time: request
    bodies and the parsed `providers.yaml` document. A property that is
    absent (`undefined` in JavaScript) is `None` at lookup. */
module JsonValue {
  import opened Wrappers
  import opened Seqs

  datatype Json =
    | JNull
    | JBool(b: bool)
    | JNum(n: real)  // finite numbers only, as the decimal written, not its rounded double
    | JStr(s: string)
    | JArr(items: seq<Json>)
    | JObj(fields: map<string, Json>)

  /** `typeof v === "object" && v !== null`: objects and arrays. */
  predicate IsObject(v: Json)
  {
    v.JArr? || v.JObj?
  }

  /** Property access `v[key]`. Only plain objects carry the named keys the
      gateway reads; on arrays, strings and other values they are
      `undefined`. */
  function Get(v: Json, key: string): (r: Option<Json>)
    ensures r.Some? <==> v.JObj? && key in v.fields
    ensures r.Some? ==> r.value == v.fields[key]
  {
    if v.JObj? && key in v.fields then Some(v.fields[key]) else None
  }

  /** The property as a string when it is one (`typeof v[key] === "string"`). */
  function GetString(v: Json, key: string): (r: Option<string>)
    ensures r.Some? <==> Get(v, key).Some? && Get(v, key).value.JStr?
    ensures r.Some? ==> Get(v, key).value == JStr(r.value)
  {
    match Get(v, key)
    case Some(JStr(s)) => Some(s)
    case _ => None
  }

  predicate IsString(v: Json)
  {
    v.JStr?
  }

  /** `items.filter((m) => typeof m === "string")`: the string items, in
      their order, unwrapped. */
  function Strings(items: seq<Json>): (r: seq<string>)
    ensures |r| <= |items|
    ensures forall s :: s in r <==> JStr(s) in items
    ensures JStrs(r) == Filter(items, IsString)
    decreases |items|
  {
    if items == [] then []
    else
      var rest := Strings(items[1..]);
      assert forall x :: x in items <==> x == items[0] || x in items[1..];
      if items[0].JStr? then
        assert JStrs([items[0].s] + rest) == [items[0]] + JStrs(rest);
        [items[0].s] + rest
      else rest
  }

  /** The models kept from a list are its string items in their original
      order. */
  lemma {:induction false} StringsInOrder(items: seq<Json>)
    ensures IsSubsequence(JStrs(Strings(items)), items)
  {
    FilterIsSubsequence(items, IsString);
  }

  /** A list of strings as a JSON array's items. */
  function JStrs(xs: seq<string>): (r: seq<Json>)
    ensures |r| == |xs| && forall i :: 0 <= i < |xs| ==> r[i] == JStr(xs[i])
  {
    seq(|xs|, i requires 0 <= i < |xs| => JStr(xs[i]))
  }

  /** Wrapping strings as JSON strings and filtering the strings back out
      returns the original list. */
  lemma {:induction false} StringsOfStrings(xs: seq<string>)
    ensures Strings(JStrs(xs)) == xs
    decreases |xs|
  {
    if xs != [] {
      assert JStrs(xs)[1..] == JStrs(xs[1..]);
      StringsOfStrings(xs[1..]);
    }
  }
}
