/**
  JSON values as the formatter and the mock backend see them: parsed
  objects keep their members in key order. Numbers are integers here.
 */
module JsonValue {
  import opened StringUtil
  import opened Options

  datatype Json =
    | JNull
    | JBool(b: bool)
    | JNumber(n: int)
    | JString(s: string)
    | JArray(items: seq<Json>)
    | JObject(members: seq<Member>)

  datatype Member = Member(key: string, value: Json)

  /** JavaScript truthiness: `null`, `false`, `0` and `""` are falsy; arrays and objects are truthy. */
  predicate Truthy(j: Json) {
    match j
    case JNull => false
    case JBool(b) => b
    case JNumber(n) => n != 0
    case JString(s) => s != ""
    case _ => true
  }

  /** An array or an object: the values `typeof` calls objects other than `null`. */
  predicate IsContainer(j: Json) {
    j.JArray? || j.JObject?
  }

  /** `typeof value`. */
  function TypeOf(j: Json): (t: string)
    ensures t in ["object", "boolean", "number", "string"]
    ensures t == "object" <==> j.JNull? || IsContainer(j)
  {
    match j
    case JNull => "object"
    case JBool(_) => "boolean"
    case JNumber(_) => "number"
    case JString(_) => "string"
    case _ => "object"
  }

  function Keys(ms: seq<Member>): (keys: seq<string>)
    ensures |keys| == |ms|
    ensures forall i :: 0 <= i < |ms| ==> keys[i] == ms[i].key
  {
    if |ms| == 0 then [] else [ms[0].key] + Keys(ms[1..])
  }

  /** The value of the last member named `key`, as `JSON.parse` keeps the last of repeated keys. */
  function LastWith(ms: seq<Member>, key: string): (r: Option<Json>)
    ensures r.Some? <==> key in Keys(ms)
    ensures r.Some? ==> Member(key, r.value) in ms
    decreases |ms|
  {
    if |ms| == 0 then None
    else if ms[|ms| - 1].key == key then Some(ms[|ms| - 1].value)
    else
      var r := LastWith(ms[..|ms| - 1], key);
      assert Keys(ms) == Keys(ms[..|ms| - 1]) + [ms[|ms| - 1].key];
      r
  }

  /** `value[key]` on an object; absent (undefined) on anything else. */
  function Get(j: Json, key: string): (r: Option<Json>)
    ensures r.Some? ==> j.JObject? && key in Keys(j.members)
  {
    if j.JObject? then LastWith(j.members, key) else None
  }

  /** `value[key]` is present and truthy. */
  predicate HasTruthy(j: Json, key: string) {
    var v := Get(j, key);
    v.Some? && Truthy(v.value)
  }

  /** The index members `Object.keys` sees on an array: "0", "1", ... */
  function IndexMembers(items: seq<Json>, from: nat): (ms: seq<Member>)
    ensures |ms| == |items|
    ensures forall i :: 0 <= i < |items| ==> ms[i] == Member(NatToString(from + i), items[i])
  {
    if |items| == 0 then []
    else [Member(NatToString(from), items[0])] + IndexMembers(items[1..], from + 1)
  }

  /** `Object.keys(o)` with the values, for an object or an array; nothing for other values. */
  function Entries(j: Json): (ms: seq<Member>)
    ensures j.JObject? ==> ms == j.members
    ensures !IsContainer(j) ==> ms == []
  {
    match j
    case JObject(members) => members
    case JArray(items) => IndexMembers(items, 0)
    case _ => []
  }
}
