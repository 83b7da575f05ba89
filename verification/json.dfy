/** JSON values as JavaScript sees them after JSON.parse, with the few
    language operations the application applies to them: truthiness,
    property access and conversion to a string in a template literal. */
module Json {
  import opened Wrappers
  import Decimal

  /** A parsed JSON value. Numbers are integers only: fractions, exponents,
      -0 and NaN have no representation. An object keeps its members in
      source order, duplicates included. */
  datatype Json =
    | JNull
    | JBool(b: bool)
    | JNumber(n: int)
    | JString(str: string)
    | JArray(items: seq<Json>)
    | JObject(members: seq<(string, Json)>)

  /** ECMAScript ToBoolean: null, false, 0 and the empty string are falsy;
      every array and object is truthy. */
  predicate Truthy(v: Json) {
    match v
    case JNull => false
    case JBool(b) => b
    case JNumber(n) => n != 0
    case JString(s) => |s| > 0
    case JArray(_) => true
    case JObject(_) => true
  }

  /** The value JSON.parse keeps for `key`: the last member with that name. */
  function Lookup(members: seq<(string, Json)>, key: string): (r: Option<Json>)
    ensures r.None? <==> forall i :: 0 <= i < |members| ==> members[i].0 != key
    ensures r.Some? ==> exists i :: 0 <= i < |members| && members[i] == (key, r.value) &&
                          forall j :: i < j < |members| ==> members[j].0 != key
  {
    if |members| == 0 then None
    else if members[|members| - 1].0 == key then Some(members[|members| - 1].1)
    else
      var r := Lookup(members[..|members| - 1], key);
      assert forall i :: 0 <= i < |members| - 1 ==> members[..|members| - 1][i] == members[i];
      r
  }

  /** Property access `v.key`; None stands for `undefined`. Only objects
      carry the application's keys. */
  function Get(v: Json, key: string): Option<Json> {
    match v
    case JObject(members) => Lookup(members, key)
    case _ => None
  }

  /** Array.prototype.join with separator ",". */
  function Join(parts: seq<string>): string {
    if |parts| == 0 then ""
    else if |parts| == 1 then parts[0]
    else Join(parts[..|parts| - 1]) + "," + parts[|parts| - 1]
  }

  /** ToString throws on `v`: an object with a member named "toString"
      shadows Object.prototype.toString with a value that is not callable,
      and the inherited valueOf returns the object itself, so no primitive
      is found; an array throws when one of its elements does. */
  predicate Unprintable(v: Json)
    decreases v
  {
    match v
    case JObject(members) => exists i :: 0 <= i < |members| && members[i].0 == "toString"
    case JArray(items) => exists i :: 0 <= i < |items| && Unprintable(items[i])
    case _ => false
  }

  /** ECMAScript ToString, as a template literal `${v}` applies it: arrays
      join their elements (null elements as empty text), objects become
      "[object Object]"; None is the TypeError thrown for an unprintable
      value. */
  function ToJsString(v: Json): (s: Option<string>)
    ensures s.None? <==> Unprintable(v)
    ensures v.JString? ==> s == Some(v.str)
    ensures v.JObject? && s.Some? ==> s.value == "[object Object]"
    decreases v
  {
    match v
    case JNull => Some("null")
    case JBool(b) => Some(if b then "true" else "false")
    case JNumber(n) => Some(Decimal.IntToDecimal(n))
    case JString(s) => Some(s)
    case JArray(items) =>
      var parts := seq(|items|, i requires 0 <= i < |items| =>
        if items[i].JNull? then Some("") else ToJsString(items[i]));
      assert forall i :: 0 <= i < |items| ==> (parts[i].None? <==> Unprintable(items[i]));
      if forall i :: 0 <= i < |parts| ==> parts[i].Some? then
        Some(Join(seq(|parts|, i requires 0 <= i < |parts| => parts[i].value)))
      else None
    case JObject(members) =>
      if exists i :: 0 <= i < |members| && members[i].0 == "toString" then None
      else Some("[object Object]")
  }

  /** The five-field verdict object both fallbacks are written as, members
      in the order the source writes them. */
  function Verdict(item: Json, safety: Json, reason: Json, alternatives: Json, severity: Json): Json {
    JObject([
      ("item", item),
      ("safety", safety),
      ("reason", reason),
      ("alternatives", alternatives),
      ("severity", severity)
    ])
  }

  /** Each field of a verdict object reads back as the value it was built
      with. */
  lemma VerdictFields(item: Json, safety: Json, reason: Json, alternatives: Json, severity: Json)
    ensures var v := Verdict(item, safety, reason, alternatives, severity);
      && Get(v, "item") == Some(item)
      && Get(v, "safety") == Some(safety)
      && Get(v, "reason") == Some(reason)
      && Get(v, "alternatives") == Some(alternatives)
      && Get(v, "severity") == Some(severity)
  {
    var m1 := [("item", item)];
    var m2 := m1 + [("safety", safety)];
    var m3 := m2 + [("reason", reason)];
    var m4 := m3 + [("alternatives", alternatives)];
    assert Verdict(item, safety, reason, alternatives, severity).members == m4 + [("severity", severity)];
    assert |"severity"| == 8 && |"alternatives"| == 12 && |"safety"| == 6 && |"item"| == 4;
    assert "reason"[0] == 'r' && "safety"[0] == 's';
    forall key | key in {"item", "safety", "reason", "alternatives", "severity"}
      ensures Lookup(m4 + [("severity", severity)], key)
           == if key == "severity" then Some(severity) else Lookup(m4, key)
      ensures Lookup(m4, key) == if key == "alternatives" then Some(alternatives) else Lookup(m3, key)
      ensures Lookup(m3, key) == if key == "reason" then Some(reason) else Lookup(m2, key)
      ensures Lookup(m2, key) == if key == "safety" then Some(safety) else Lookup(m1, key)
    {
      LookupSnoc(m4, "severity", severity, key);
      LookupSnoc(m3, "alternatives", alternatives, key);
      LookupSnoc(m2, "reason", reason, key);
      LookupSnoc(m1, "safety", safety, key);
    }
  }

  /** Appending a member either answers the lookup of its name or leaves
      the lookup of every other name as it was. */
  lemma LookupSnoc(members: seq<(string, Json)>, name: string, value: Json, key: string)
    ensures Lookup(members + [(name, value)], key)
         == if name == key then Some(value) else Lookup(members, key)
  {
  }

}
