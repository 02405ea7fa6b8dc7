/**
 * The JavaScript values the generator manipulates, in Dafny terms.
 *
 * A parsed JSON object is an ordered list of key/value entries: the
 * generator relies on `Object.keys` order throughout, so the order is
 * part of the value. A member that may be absent is an `Option`; the
 * text JavaScript produces when `undefined` is concatenated into a
 * string is modelled by `Text`. Exceptions become `Result` failures.
 */
module Js {

  datatype Option<+T> = None | Some(value: T)

  /** What the generator can throw. `TypeError` stands for every property
      access or call on `undefined` the source can run into. */
  datatype Fault = InvalidSwaggerFile | TypeError

  datatype Result<+T> = Ok(value: T) | Err(fault: Fault)

  datatype Outcome = Pass | Fail(fault: Fault)

  /** One own property of a JavaScript object. */
  datatype Entry<+V> = Entry(key: string, value: V)

  /** `Object.keys(obj)`. */
  function Keys<V>(obj: seq<Entry<V>>): (ks: seq<string>)
    ensures |ks| == |obj|
    ensures forall i :: 0 <= i < |obj| ==> ks[i] == obj[i].key
  {
    if obj == [] then [] else [obj[0].key] + Keys(obj[1..])
  }

  /** `obj[key]`: the value of the first entry with that key, or `undefined`. */
  function Get<V>(obj: seq<Entry<V>>, key: string): (r: Option<V>)
    ensures r.Some? <==> key in Keys(obj)
    ensures r.Some? ==> exists i :: 0 <= i < |obj| && obj[i] == Entry(key, r.value)
  {
    if obj == [] then None
    else if obj[0].key == key then Some(obj[0].value)
    else Get(obj[1..], key)
  }

  /** JavaScript objects never repeat a key. */
  predicate DistinctKeys<V>(obj: seq<Entry<V>>)
  {
    forall i, j :: 0 <= i < j < |obj| ==> obj[i].key != obj[j].key
  }

  /** A string-valued member is truthy when present and non-empty. */
  predicate Truthy(s: Option<string>)
  {
    s.Some? && s.value != ""
  }

  /** `a || b` over two optional strings. */
  function Or(a: Option<string>, b: Option<string>): (r: Option<string>)
    ensures Truthy(a) ==> r == a
    ensures !Truthy(a) ==> r == b
  {
    if Truthy(a) then a else b
  }

  /** `s || ''`. */
  function OrEmpty(s: Option<string>): (r: string)
    ensures Truthy(s) ==> r == s.value
    ensures !Truthy(s) ==> r == ""
  {
    if s.Some? then s.value else ""
  }

  /** The text `'' + v` produces: `undefined` prints as the word itself. */
  function Text(s: Option<string>): (r: string)
    ensures s.Some? ==> r == s.value
    ensures s.None? ==> r == "undefined"
  {
    match s
    case Some(v) => v
    case None => "undefined"
  }

  /** The first element of an array, `undefined` when it is empty. */
  function First<T>(xs: seq<T>): (r: Option<T>)
    ensures r.Some? <==> |xs| > 0
    ensures r.Some? ==> r.value == xs[0]
  {
    if |xs| == 0 then None else Some(xs[0])
  }

  /** An example payload: an arbitrary JSON value. */
  datatype Json =
    | JNull
    | JBool(b: bool)
    | JNumber(n: int)
    | JString(s: string)
    | JArray(elems: seq<Json>)
    | JObject(members: seq<Entry<Json>>)

  /** JavaScript truthiness of a parsed JSON value (`undefined` is `None`). */
  predicate JsonTruthy(v: Option<Json>)
  {
    match v
    case None => false
    case Some(j) =>
      match j
      case JNull => false
      case JBool(b) => b
      case JNumber(n) => n != 0
      case JString(s) => s != ""
      case JArray(_) => true
      case JObject(_) => true
  }

  /** The two uses of `JSON.stringify`: compact (`JSON.stringify(v)`) and
      pretty-printed at two spaces (`JSON.stringify(v, null, 2)`). Their
      implementations are not part of the model; they are given as values. */
  datatype Serializers = Serializers(compact: Json -> string, pretty: Json -> string)
}
