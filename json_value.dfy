/** Decoded JSON as the Python code sees it: `dict`, `list`, `str`, numbers,
    `bool` and `None`, with Python's truthiness and `str()`.

    A `dict` is kept as its members in insertion order (the order `for key in
    obj` visits them). A number keeps the text Python's `str()` gives for
    the decoded value (not its JSON source text) and whether it is zero,
    which is all the code looks at. */
module JsonValue {
  import opened Wrappers

  datatype Json =
    | JObject(members: seq<Member>)
    | JArray(items: seq<Json>)
    | JString(s: string)
    | JNumber(text: string, isZero: bool)
    | JBool(b: bool)
    | JNull

  datatype Member = Member(key: string, value: Json)

  predicate IsScalar(j: Json) { !j.JObject? && !j.JArray? }

  /** Python truthiness: empty containers, `''`, zero, `False` and `None` are falsy. */
  predicate Truthy(j: Json)
  {
    match j
    case JObject(ms) => ms != []
    case JArray(items) => items != []
    case JString(s) => s != []
    case JNumber(_, zero) => !zero
    case JBool(b) => b
    case JNull => false
  }

  /** `obj.get(key)` on a list of members: the first member with that key. */
  function Lookup(ms: seq<Member>, key: string): (r: Option<Json>)
    ensures r.None? <==> forall i :: 0 <= i < |ms| ==> ms[i].key != key
    ensures r.Some? ==> exists i :: 0 <= i < |ms| && ms[i].key == key && ms[i].value == r.value
  {
    if ms == [] then None
    else if ms[0].key == key then Some(ms[0].value)
    else Lookup(ms[1..], key)
  }

  /** `obj.get(key)` on a value that must be a `dict`. */
  function Get(obj: Json, key: string): Option<Json>
    requires obj.JObject?
  {
    Lookup(obj.members, key)
  }

  /** Truthiness of `obj.get(key)` (a missing key gives `None`, which is falsy). */
  predicate TruthyAt(obj: Json, key: string)
    requires obj.JObject?
  {
    var v := Get(obj, key);
    v.Some? && Truthy(v.value)
  }
}
