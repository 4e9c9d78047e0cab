/**
 * JSON request bodies as the Flask routes see them after `request.json`:
 * values with Python's truthiness and `isinstance` tests, and an object as
 * its entries in order (a Python dict iterates in insertion order).
 */
module Json {
  import opened Wrappers

  datatype Json =
    | JNull
    | JBool(b: bool)
    | JInt(i: int)
    | JFloat(r: real)
    | JStr(s: string)
    | JArray(items: seq<Json>)
    | JObject(fields: seq<(string, Json)>)

  /** Python truthiness: null, false, zero, "" and empty containers are false. */
  predicate Truthy(v: Json)
  {
    match v
    case JNull => false
    case JBool(b) => b
    case JInt(i) => i != 0
    case JFloat(r) => r != 0.0
    case JStr(s) => s != ""
    case JArray(items) => items != []
    case JObject(fields) => fields != []
  }

  /** `isinstance(v, int)`: bool is a subclass of int in Python. */
  predicate IsPyInt(v: Json)
  {
    v.JInt? || v.JBool?
  }

  /** The integer a Python int or bool stands for (True is 1, False is 0). */
  function PyIntValue(v: Json): int
    requires IsPyInt(v)
  {
    if v.JInt? then v.i else if v.b then 1 else 0
  }

  /** A JSON object: its entries in order, no key twice. */
  type Body = s: seq<(string, Json)> | forall p, q :: 0 <= p < q < |s| ==> s[p].0 != s[q].0

  /** The value stored under key, if the key is present. */
  function Lookup(body: seq<(string, Json)>, key: string): (r: Option<Json>)
    ensures r.Some? <==> exists p :: 0 <= p < |body| && body[p].0 == key
    ensures r.Some? ==> exists p :: 0 <= p < |body| && body[p] == (key, r.value)
  {
    if body == [] then None
    else if body[0].0 == key then Some(body[0].1)
    else
      var r := Lookup(body[1..], key);
      assert forall p :: 0 < p < |body| ==> body[p] == body[1..][p - 1];
      r
  }

  /** `data.get(key, default)`: default only when the key is absent, a present null stays null. */
  function GetOr(body: Body, key: string, default: Json): Json
  {
    match Lookup(body, key)
    case None => default
    case Some(v) => v
  }

  /** `data.get(key)`: None (null) when absent. */
  function Get(body: Body, key: string): Json
  {
    GetOr(body, key, JNull)
  }
}
