/**
 * The request value the code-sample templates render: built once from a
 * plain object, with the method upper-cased and the headers copied into
 * an insertion-ordered map, and never changed afterwards.
 */
module Requests {

  import opened Js
  import opened Strings
  import opened Swagger
  import opened Collections

  /** The object handed to the constructor. */
  datatype RequestData = RequestData(
    uri: string,
    httpMethod: string,
    headers: seq<Entry<string>>,
    query: seq<Parameter>,
    body: Option<Parameter>)

  /** A constructed request; `headers` is a `Map` in insertion order. */
  datatype Request = Request(
    uri: string,
    httpMethod: string,
    headers: seq<Entry<string>>,
    query: seq<Parameter>,
    body: Option<Parameter>)

  /** The value `getPart` returns, by the field it names. */
  datatype Part =
    | TextPart(text: string)
    | HeaderPart(entries: seq<Entry<string>>)
    | QueryPart(params: seq<Parameter>)
    | BodyPart(body: Option<Parameter>)
    | Undefined

  /** `map.set(key, value)` on an insertion-ordered `Map`: an existing key
      keeps its place and takes the new value, a new key goes last. */
  function MapSet(m: seq<Entry<string>>, key: string, value: string): (r: seq<Entry<string>>)
    ensures key !in Keys(m) ==> r == m + [Entry(key, value)]
    ensures key in Keys(m) ==> Keys(r) == Keys(m)
    ensures Get(r, key) == Some(value)
    ensures forall k :: k != key ==> Get(r, k) == Get(m, k)
  {
    if m == [] then [Entry(key, value)]
    else if m[0].key == key then
      SetHead(m, value);
      [Entry(key, value)] + m[1..]
    else
      var rest := MapSet(m[1..], key, value);
      assert Keys(m) == [m[0].key] + Keys(m[1..]);
      if key !in Keys(m) then
        AppendBehind(m, Entry(key, value), rest);
        GetBehind(m, key, rest);
        [m[0]] + rest
      else
        KeysBehind(m, rest);
        GetBehind(m, key, rest);
        [m[0]] + rest
  }

  /** Setting the first key replaces its value in place. */
  lemma SetHead(m: seq<Entry<string>>, value: string)
    requires m != []
    ensures var r := [Entry(m[0].key, value)] + m[1..];
      && m[0].key in Keys(m) && Keys(r) == Keys(m) && Get(r, m[0].key) == Some(value)
      && forall k :: k != m[0].key ==> Get(r, k) == Get(m, k)
  {
    var r := [Entry(m[0].key, value)] + m[1..];
    assert r[1..] == m[1..];
    assert Keys(m) == [m[0].key] + Keys(m[1..]);
    assert Keys(r) == [m[0].key] + Keys(m[1..]);
  }

  /** A new key set behind the first entry still goes last. */
  lemma AppendBehind(m: seq<Entry<string>>, e: Entry<string>, rest: seq<Entry<string>>)
    requires m != [] && rest == m[1..] + [e]
    ensures [m[0]] + rest == m + [e]
  {
    assert m == [m[0]] + m[1..];
  }

  /** An existing key set behind the first entry leaves the key list alone. */
  lemma KeysBehind(m: seq<Entry<string>>, rest: seq<Entry<string>>)
    requires m != [] && Keys(rest) == Keys(m[1..])
    ensures Keys([m[0]] + rest) == Keys(m)
  {
    var r := [m[0]] + rest;
    assert r[1..] == rest;
    assert Keys(m) == [m[0].key] + Keys(m[1..]);
    assert Keys(r) == [m[0].key] + Keys(rest);
  }

  /** Lookups through the first entry agree when the tails agree. */
  lemma GetBehind(m: seq<Entry<string>>, key: string, rest: seq<Entry<string>>)
    requires m != [] && m[0].key != key
    requires forall k :: k != key ==> Get(rest, k) == Get(m[1..], k)
    ensures Get([m[0]] + rest, key) == Get(rest, key)
    ensures forall k :: k != key ==> Get([m[0]] + rest, k) == Get(m, k)
  {
    var r := [m[0]] + rest;
    assert r[1..] == rest;
    forall k | k != key ensures Get(r, k) == Get(m, k) {
      if k != m[0].key {
        assert Get(r, k) == Get(rest, k);
      }
    }
  }

  /** `buildMap(obj)`: a `Map` with the object's keys, in `Object.keys`
      order, each with its value; the object is only read. */
  method BuildMap(obj: seq<Entry<string>>) returns (m: seq<Entry<string>>)
    requires DistinctKeys(obj)
    ensures m == obj
  {
    m := [];
    for i := 0 to |obj|
      invariant m == obj[..i]
    {
      var done := obj[..i];
      forall j | 0 <= j < i
        ensures Keys(done)[j] != obj[i].key
      {
        assert done[j] == obj[j];
      }
      m := MapSet(m, obj[i].key, obj[i].value);
      TakeStep(obj, i);
    }
  }

  /** `new Request(data)`. */
  method NewRequest(data: RequestData) returns (r: Request)
    requires DistinctKeys(data.headers)
    ensures r.uri == data.uri && r.query == data.query && r.body == data.body
    ensures r.httpMethod == Upper(data.httpMethod)
    ensures r.headers == data.headers
  {
    var headers := BuildMap(data.headers);
    r := Request(data.uri, Upper(data.httpMethod), headers, data.query, data.body);
  }

  /** `request.getPart(key)`: the stored field of that name. */
  function GetPart(r: Request, key: string): (v: Part)
    ensures key == "uri" ==> v == TextPart(r.uri)
    ensures key == "method" ==> v == TextPart(r.httpMethod)
    ensures key == "headers" ==> v == HeaderPart(r.headers)
    ensures key == "query" ==> v == QueryPart(r.query)
    ensures key == "body" ==> v == BodyPart(r.body)
    ensures key !in ["uri", "method", "headers", "query", "body"] ==> v == Undefined
  {
    match key
    case "uri" => TextPart(r.uri)
    case "method" => TextPart(r.httpMethod)
    case "headers" => HeaderPart(r.headers)
    case "query" => QueryPart(r.query)
    case "body" => BodyPart(r.body)
    case _ => Undefined
  }
}
