/**
 * One endpoint of a path item: its description, the fenced `endpoint`
 * block, the parameters it takes, the request the code samples render,
 * and the success response the page shows.
 */
module Endpoint {

  import opened Js
  import opened Strings
  import opened Collections
  import opened Swagger
  import opened Requests

  /** `_getOperationDescription`: `description || summary || ''`. */
  function OperationDescription(op: Operation): (r: string)
    ensures Truthy(op.description) ==> r == op.description.value
    ensures !Truthy(op.description) && Truthy(op.summary) ==> r == op.summary.value
    ensures !Truthy(op.description) && !Truthy(op.summary) ==> r == ""
  {
    OrEmpty(Or(op.description, op.summary))
  }

  /** `_getScopes`: the `x-permission` marker, or `''`. */
  function Scopes(op: Operation): (r: string)
    ensures Truthy(op.xPermission) ==> r == op.xPermission.value
    ensures !Truthy(op.xPermission) ==> r == ""
  {
    OrEmpty(op.xPermission)
  }

  /** An operation's parameters; `_.filter` treats a missing list as empty. */
  function ParametersOf(op: Operation): seq<Parameter>
  {
    if op.parameters.Some? then op.parameters.value else []
  }

  function InQuery(p: Parameter): bool
  {
    p.location == "query"
  }

  function InBody(p: Parameter): bool
  {
    p.location == "body"
  }

  /** `_getQueryParameters`: the query parameters, in declaration order. */
  function QueryParameters(op: Operation): (r: seq<Parameter>)
    ensures forall i :: 0 <= i < |r| ==> r[i].location == "query" && r[i] in ParametersOf(op)
    ensures forall p :: p in ParametersOf(op) && p.location == "query" ==> p in r
  {
    Filter(ParametersOf(op), InQuery)
  }

  /** `_getResourceFormattedUrl`: the item's path with its first
      `{version}` replaced by the stored version. */
  function FormattedUrl(ctx: Context, path: string): string
  {
    ReplaceFirst(path, "{version}", Text(ctx.version))
  }

  /** The first `{version}` of a path is replaced by the version and the
      rest of the path, other placeholders and later markers included, is
      kept as it is. */
  lemma FormattedUrlSubstitutes(ctx: Context, pre: string, post: string)
    requires forall k :: 0 <= k < |pre| ==> !OccursAt(pre + "{version}" + post, "{version}", k)
    ensures FormattedUrl(ctx, pre + "{version}" + post) == pre + Text(ctx.version) + post
  {
    FoundFirst(pre, "{version}", post);
    assert (pre + "{version}" + post)[..|pre|] == pre;
    assert (pre + "{version}" + post)[|pre| + 9..] == post;
  }

  /** A path in which `{version}` occurs nowhere is used as it is. */
  lemma FormattedUrlUnmarked(ctx: Context, path: string)
    requires forall k :: !OccursAt(path, "{version}", k)
    ensures FormattedUrl(ctx, path) == path
  {
    IndexOfIsFirst(path, "{version}");
  }

  /** `name={name}` with the first `.` of the placeholder removed. */
  function QueryPair(p: Parameter): string
  {
    p.name + "={" + ReplaceFirst(p.name, ".", "") + "}"
  }

  /** Only the first dot of a name is dropped from its placeholder. */
  lemma QueryPairDropsFirstDot(p: Parameter, a: string, b: string)
    requires p.name == a + "." + b && '.' !in a
    ensures QueryPair(p) == p.name + "={" + a + b + "}"
  {
    FoundAfter(a, ".", b);
    assert (a + "." + b)[..|a|] == a;
    assert (a + "." + b)[|a| + 1..] == b;
  }

  function QueryPairs(ps: seq<Parameter>): (r: seq<string>)
    ensures |r| == |ps|
    ensures forall i :: 0 <= i < |ps| ==> r[i] == QueryPair(ps[i])
  {
    seq(|ps|, i requires 0 <= i < |ps| => QueryPair(ps[i]))
  }

  /** The query string: `''` without query parameters. */
  function QueryString(op: Operation): (r: string)
    ensures QueryParameters(op) == [] ==> r == ""
    ensures QueryParameters(op) != [] ==> StartsWith(r, "?\n        ")
  {
    var ps := QueryParameters(op);
    if |ps| > 0 then "?\n        " + Join(QueryPairs(ps), "\n        &") else ""
  }

  /** `_getEndpointUri(httpMethod, pathItem)`. */
  function EndpointUri(ctx: Context, httpMethod: string, path: string, op: Operation): (r: string)
    ensures StartsWith(r, "```endpoint\n" + Upper(httpMethod) + " " + FormattedUrl(ctx, path) + QueryString(op))
    ensures EndsWith(r, "\n```\n\n")
  {
    var scope := Scopes(op);
    var head := "```endpoint\n" + Upper(httpMethod) + " " + FormattedUrl(ctx, path) + QueryString(op);
    var r := head + (if scope == "" then "" else " " + scope) + "\n" + "```\n\n";
    assert r[..|head|] == head;
    r
  }

  /** The permission marker follows the URL, after one space, exactly when
      it is set. */
  lemma EndpointUriScope(ctx: Context, httpMethod: string, path: string, op: Operation)
    ensures var head := "```endpoint\n" + Upper(httpMethod) + " " + FormattedUrl(ctx, path) + QueryString(op);
      EndpointUri(ctx, httpMethod, path, op)
        == head + (if Truthy(op.xPermission) then " " + op.xPermission.value else "") + "\n```\n\n"
  {
  }

  // ---------------------------------------------------------------------
  // Body parameter

  /** The copy `_getBodyParameters` makes of one body parameter: the
      example of the definition its schema names, when it names one. */
  function ResolveBody(ctx: Context, p: Parameter): (r: Result<Parameter>)
    ensures r.Ok? ==> r.value.(example := p.example) == p
    ensures r.Err? <==>
      && p.schema.Some? && Truthy(p.schema.value.ref)
      && LastSegment(p.schema.value.ref.value, '/') != ""
      && (ctx.definitions.None? || Get(ctx.definitions.value, LastSegment(p.schema.value.ref.value, '/')).None?)
    ensures p.schema.None? || !Truthy(p.schema.value.ref) || LastSegment(p.schema.value.ref.value, '/') == "" ==>
      r == Ok(p)
  {
    if p.schema.None? then Ok(p)
    else if !Truthy(p.schema.value.ref) then Ok(p)
    else
      var typeName := LastSegment(p.schema.value.ref.value, '/');
      if typeName == "" then Ok(p)
      else if ctx.definitions.None? then Err(TypeError)
      else match Get(ctx.definitions.value, typeName)
        case None => Err(TypeError)
        case Some(d) => Ok(p.(example := d.example))
  }

  /** A body parameter whose schema names a defined type takes that
      type's example. */
  lemma ResolveBodyTakesExample(ctx: Context, p: Parameter, d: Definition)
    requires p.schema.Some? && Truthy(p.schema.value.ref)
    requires LastSegment(p.schema.value.ref.value, '/') != ""
    requires ctx.definitions.Some? && Get(ctx.definitions.value, LastSegment(p.schema.value.ref.value, '/')) == Some(d)
    ensures ResolveBody(ctx, p) == Ok(p.(example := d.example))
  {
  }

  /** `_.map` over the body parameters: every one is resolved, so any
      failure is the result. */
  function ResolveAll(ctx: Context, ps: seq<Parameter>): (r: Result<seq<Parameter>>)
    ensures r.Ok? ==> |r.value| == |ps| && forall i :: 0 <= i < |ps| ==> ResolveBody(ctx, ps[i]) == Ok(r.value[i])
    ensures r.Err? <==> exists i :: 0 <= i < |ps| && ResolveBody(ctx, ps[i]).Err?
  {
    if ps == [] then Ok([])
    else
      var head := ResolveBody(ctx, ps[0]);
      var rest := ResolveAll(ctx, ps[1..]);
      assert forall i :: 1 <= i < |ps| ==> ps[i] == ps[1..][i - 1];
      if head.Err? then Err(head.fault)
      else if rest.Err? then Err(rest.fault)
      else Ok([head.value] + rest.value)
  }

  /** The body parameters, in declaration order. */
  function BodyParameters(op: Operation): seq<Parameter>
  {
    Filter(ParametersOf(op), InBody)
  }

  /** `_getBodyParameters(operation)`: the copy of the first body parameter. */
  function BodyParameter(ctx: Context, op: Operation): (r: Result<Option<Parameter>>)
    ensures r.Err? <==> exists i :: 0 <= i < |BodyParameters(op)| && ResolveBody(ctx, BodyParameters(op)[i]).Err?
    ensures r.Ok? ==> (r.value.None? <==> BodyParameters(op) == [])
    ensures r.Ok? && r.value.Some? ==> ResolveBody(ctx, BodyParameters(op)[0]) == Ok(r.value.value)
  {
    var all := ResolveAll(ctx, BodyParameters(op));
    if all.Err? then Err(all.fault) else Ok(First(all.value))
  }

  /** The resolved body parameter is the operation's first body parameter
      with at most its example changed. */
  lemma BodyParameterIsFirst(ctx: Context, op: Operation)
    requires BodyParameter(ctx, op).Ok? && BodyParameter(ctx, op).value.Some?
    ensures var p := BodyParameter(ctx, op).value.value;
      exists i :: 0 <= i < |ParametersOf(op)|
        && ParametersOf(op)[i] == p.(example := ParametersOf(op)[i].example)
        && ParametersOf(op)[i].location == "body"
        && forall j :: 0 <= j < i ==> ParametersOf(op)[j].location != "body"
  {
    FilterFirst(ParametersOf(op), InBody);
  }

  // ---------------------------------------------------------------------
  // Request

  /** The headers every sample request carries. */
  const DefaultHeaders: seq<Entry<string>> := [
    Entry("Authorization", "Bearer {Token}"),
    Entry("Accept", "application/json"),
    Entry("Content-Type", "application/json")
  ]

  /** The request `_buildRequest` constructs. */
  function RequestFor(ctx: Context, httpMethod: string, path: string, op: Operation): (r: Result<Request>)
    ensures r.Err? <==> BodyParameter(ctx, op).Err?
    ensures r.Ok? ==>
      && r.value.uri == FormattedUrl(ctx, path)
      && r.value.httpMethod == Upper(httpMethod)
      && r.value.headers == DefaultHeaders
      && r.value.query == QueryParameters(op)
      && r.value.body == BodyParameter(ctx, op).value
  {
    match BodyParameter(ctx, op)
    case Err(f) => Err(f)
    case Ok(body) => Ok(Request(FormattedUrl(ctx, path), Upper(httpMethod), DefaultHeaders, QueryParameters(op), body))
  }

  /** `_buildRequest(httpMethod, pathItem)`. */
  method BuildRequest(ctx: Context, httpMethod: string, path: string, op: Operation) returns (r: Result<Request>)
    ensures r == RequestFor(ctx, httpMethod, path, op)
  {
    var uri := FormattedUrl(ctx, path);
    var headers := DefaultHeaders;
    var queryParams := QueryParameters(op);
    var requestBody := BodyParameter(ctx, op);
    if requestBody.Err? {
      return Err(requestBody.fault);
    }
    assert DistinctKeys(headers);
    var request := NewRequest(RequestData(uri, httpMethod, headers, queryParams, requestBody.value));
    r := Ok(request);
  }

  // ---------------------------------------------------------------------
  // Response

  /** `{ statusCode, ...response }` as `_getPositiveResponse` builds it. */
  datatype PositiveResponse = PositiveResponse(statusCode: Option<string>, description: Option<string>)

  function IsSuccessCode(code: string): bool
  {
    StartsWith(code, "2")
  }

  /** `_getPositiveResponse`: the first response whose status starts with
      `2`; reading `Object.keys` of missing responses throws. */
  function PositiveResponseOf(op: Operation): (r: Result<PositiveResponse>)
    ensures r.Err? <==> op.responses.None?
    ensures r.Ok? ==> (r.value.statusCode.None? <==>
      forall i :: 0 <= i < |op.responses.value| ==> !IsSuccessCode(op.responses.value[i].key))
    ensures r.Ok? && r.value.statusCode.Some? ==> IsSuccessCode(r.value.statusCode.value)
  {
    match op.responses
    case None => Err(TypeError)
    case Some(responses) =>
      var keys := Keys(responses);
      FilterEmpty(keys, IsSuccessCode);
      var code := First(Filter(keys, IsSuccessCode));
      assert code.None? <==> forall i :: 0 <= i < |keys| ==> !IsSuccessCode(keys[i]);
      assert code.Some? ==> IsSuccessCode(code.value);
      var response := Get(responses, Text(code));
      Ok(PositiveResponse(code, if response.Some? then response.value.description else None))
  }

  /** The status shown is the first response key that starts with `2`,
      and its description is that response's. */
  lemma PositiveResponseIsFirst(op: Operation)
    requires PositiveResponseOf(op).Ok? && PositiveResponseOf(op).value.statusCode.Some?
    ensures exists i ::
      && 0 <= i < |op.responses.value|
      && op.responses.value[i].key == PositiveResponseOf(op).value.statusCode.value
      && forall j :: 0 <= j < i ==> !IsSuccessCode(op.responses.value[j].key)
    ensures PositiveResponseOf(op).value.description
      == Get(op.responses.value, PositiveResponseOf(op).value.statusCode.value).value.description
  {
    var keys := Keys(op.responses.value);
    var code := Filter(keys, IsSuccessCode);
    FilterEmpty(keys, IsSuccessCode);
    assert code != [];
    assert PositiveResponseOf(op).value.statusCode == Some(code[0]);
    assert code[0] in keys;
    FilterFirst(keys, IsSuccessCode);
  }

  /** `_getPositiveResponseExample(operation, statusCode)`: the value under
      the first key of that response's `examples`. */
  function PositiveResponseExample(op: Operation, statusCode: Option<string>): (r: Result<Option<Json>>)
    ensures r.Err? <==> op.responses.None?
    ensures r.Ok? && r.value.Some? ==>
      var response := Get(op.responses.value, Text(statusCode));
      && response.Some? && response.value.examples.Some?
      && |response.value.examples.value| > 0
      && r.value.value == response.value.examples.value[0].value
    ensures r.Ok? && r.value.None? ==>
      var response := Get(op.responses.value, Text(statusCode));
      response.None? || response.value.examples.None? || |response.value.examples.value| == 0
  {
    match op.responses
    case None => Err(TypeError)
    case Some(responses) =>
      match Get(responses, Text(statusCode))
      case None => Ok(None)
      case Some(response) =>
        match response.examples
        case None => Ok(None)
        case Some(examples) =>
          Ok(if |examples| > 0 then Some(examples[0].value) else None)
  }

  /** `_getFirstResponseContentType`: `produces[0]`, which throws when the
      operation lists no `produces`. */
  function FirstResponseContentType(op: Operation): (r: Result<Option<string>>)
    ensures r.Err? <==> op.produces.None?
    ensures r.Ok? ==> r.value == First(op.produces.value)
  {
    match op.produces
    case None => Err(TypeError)
    case Some(types) => Ok(First(types))
  }
}
