/**
 * The three code-sample templates (cURL, C# and Java) and the dispatch
 * on a language code. Each template collects lines in an array, one line
 * per header in the request's header order, and joins them; the
 * specification functions below say which lines, and the methods that
 * build them are proved to produce exactly that text.
 */
module CodeSamples {

  import opened Js
  import opened Strings
  import opened Swagger
  import opened Collections
  import opened Requests

  /** A language of the `languages` list; only its `code` is read here. */
  datatype Language = Language(code: string)

  /** `body && body.example`: a body parameter with a truthy example. */
  predicate HasBodyExample(r: Request)
  {
    r.body.Some? && JsonTruthy(r.body.value.example)
  }

  // ---------------------------------------------------------------------
  // cURL

  function CurlHeader(h: Entry<string>): string
  {
    "  -H \"" + h.key + ": " + h.value + "\" \\\n"
  }

  function CurlBody(ser: Serializers, example: Json): string
  {
    "  -d " + StripNewlineEscapes(ser.compact(example)) + " \\\n"
  }

  function CurlPrefix(r: Request): seq<string>
  {
    ["curl", "-X", r.httpMethod, r.uri + " \\\n"]
  }

  /** The pieces `getCURLRequest` pushes, in order. */
  function CurlPieces(r: Request, ser: Serializers): seq<string>
  {
    CurlPrefix(r) + Map(r.headers, CurlHeader)
    + (if HasBodyExample(r) then [CurlBody(ser, r.body.value.example.value)] else [])
  }

  /** The pieces joined with single spaces. */
  function CurlSample(r: Request, ser: Serializers): string
  {
    Join(CurlPieces(r, ser), " ")
  }

  /** The fixed pieces join to the opening line. */
  lemma CurlHead(r: Request)
    ensures Join(CurlPrefix(r), " ") == "curl -X " + r.httpMethod + " " + r.uri + " \\\n"
  {
    var c := CurlPrefix(r);
    assert c[1..][1..][1..] == [c[3]];
    assert Join(c[1..][1..], " ") == r.httpMethod + " " + c[3];
    assert Join(c[1..], " ") == "-X" + " " + (r.httpMethod + " " + c[3]);
    assert "curl" + " " + "-X" + " " == "curl -X ";
  }

  /** Every piece from the URI on ends a line with a backslash
      continuation. */
  lemma CurlPiecesContinue(r: Request, ser: Serializers)
    ensures forall i :: 3 <= i < |CurlPieces(r, ser)| ==>
      EndsWith(CurlPieces(r, ser)[i], " \\\n")
  {
  }

  /** The command opens with the method and the URI and ends a line with a
      backslash continuation. */
  lemma CurlSampleShape(r: Request, ser: Serializers)
    ensures StartsWith(CurlSample(r, ser), "curl -X " + r.httpMethod + " " + r.uri + " \\\n")
    ensures EndsWith(CurlSample(r, ser), " \\\n")
  {
    var p := CurlPieces(r, ser);
    var head := Join(CurlPrefix(r), " ");
    CurlHead(r);
    CurlPiecesContinue(r, ser);
    if |p| == 4 {
      assert p == CurlPrefix(r);
    } else {
      assert p == CurlPrefix(r) + p[4..];
      JoinAppend(CurlPrefix(r), p[4..], " ");
      assert Join(p, " ")[..|head|] == head;
      JoinLast(p, " ");
    }
  }

  /** A further header adds exactly its own line, after the others. */
  lemma CurlAddHeader(r: Request, ser: Serializers, h: Entry<string>)
    requires !HasBodyExample(r)
    ensures CurlSample(r.(headers := r.headers + [h]), ser) == CurlSample(r, ser) + " " + CurlHeader(h)
  {
    var r' := r.(headers := r.headers + [h]);
    assert (r.headers + [h])[..|r.headers|] == r.headers;
    assert CurlPieces(r', ser) == CurlPieces(r, ser) + [CurlHeader(h)];
    JoinAppend(CurlPieces(r, ser), [CurlHeader(h)], " ");
  }

  /** A body example adds exactly the `-d` line, last; without one the
      body changes nothing. */
  lemma CurlBodyLast(r: Request, ser: Serializers)
    ensures HasBodyExample(r) ==>
      CurlSample(r, ser) == CurlSample(r.(body := None), ser) + " " + CurlBody(ser, r.body.value.example.value)
    ensures !HasBodyExample(r) ==> CurlSample(r, ser) == CurlSample(r.(body := None), ser)
  {
    if HasBodyExample(r) {
      var b := CurlBody(ser, r.body.value.example.value);
      assert CurlPieces(r, ser) == CurlPieces(r.(body := None), ser) + [b];
      JoinAppend(CurlPieces(r.(body := None), ser), [b], " ");
    }
  }

  /** `getCURLRequest(request)`. */
  method CurlRequest(request: Request, ser: Serializers) returns (s: string)
    ensures s == CurlSample(request, ser)
  {
    var headers := request.headers;
    var body := request.body;
    var curlified: seq<string> := [];
    curlified := curlified + ["curl"];
    curlified := curlified + ["-X", request.httpMethod];
    curlified := curlified + [request.uri + " \\\n"];
    assert curlified == CurlPrefix(request);
    if |headers| > 0 {
      for i := 0 to |headers|
        invariant curlified == CurlPrefix(request) + Map(headers[..i], CurlHeader)
      {
        MapStep(headers, i, CurlHeader);
        curlified := curlified + [CurlHeader(headers[i])];
      }
      assert headers[..|headers|] == headers;
    }
    assert curlified == CurlPrefix(request) + Map(headers, CurlHeader);
    if body.Some? && JsonTruthy(body.value.example) {
      curlified := curlified + [CurlBody(ser, body.value.example.value)];
    }
    assert curlified == CurlPieces(request, ser);
    s := Join(curlified, " ");
  }

  // ---------------------------------------------------------------------
  // C#

  const IndentSpaces: nat := 4

  const CSharpOpen := "using (var httpClient = new HttpClient())"
  const CSharpSend := "var response = " + "await httpClient.SendAsync(request).ConfigureAwait(false);"

  function CSharpRequestLine(httpMethod: string, uri: string): string
  {
    "var request = " + "new HttpRequestMessage(HttpMethod." + httpMethod + ", \"" + uri + "\");"
  }

  function CSharpHeader(h: Entry<string>): string
  {
    Spaces(IndentSpaces) + "httpClient." + "Headers.Add(\"" + h.key + "\", \"" + h.value + "\");"
  }

  function CSharpBody(ser: Serializers, example: Json): string
  {
    "request.Content = " + "new StringContent("
    + StripNewlineEscapes(ser.compact(JString(ser.compact(example)))) + ");"
  }

  /** The opening lines of the `using` block. */
  function CSharpOpening(r: Request): seq<string>
  {
    [CSharpOpen, "{", Spaces(IndentSpaces) + CSharpRequestLine(CapitalizeFirst(r.httpMethod), r.uri)]
  }

  /** The content line, present when the body has a truthy example. */
  function CSharpBodyLines(r: Request, ser: Serializers): seq<string>
  {
    if HasBodyExample(r) then [Spaces(IndentSpaces) + CSharpBody(ser, r.body.value.example.value)] else []
  }

  /** The lines `getCSharpRequest` pushes, in order. */
  function CSharpLines(r: Request, ser: Serializers): seq<string>
  {
    CSharpOpening(r) + Map(r.headers, CSharpHeader) + CSharpBodyLines(r, ser)
    + [Spaces(IndentSpaces) + CSharpSend, "}"]
  }

  function CSharpSample(r: Request, ser: Serializers): string
  {
    Join(CSharpLines(r, ser), "\n")
  }

  /** A `using` block: the opening two lines, the closing brace, and every
      statement in between indented by four spaces. */
  lemma CSharpShape(r: Request, ser: Serializers)
    ensures var l := CSharpLines(r, ser);
      && |l| == 5 + |r.headers| + (if HasBodyExample(r) then 1 else 0)
      && l[0] == CSharpOpen && l[1] == "{" && l[|l| - 1] == "}"
      && forall i :: 2 <= i < |l| - 1 ==> StartsWith(l[i], "    ") && |l[i]| > 4 && l[i][4] != ' '
  {
    var l := CSharpLines(r, ser);
    forall i | 2 <= i < |l| - 1
      ensures StartsWith(l[i], "    ") && |l[i]| > 4 && l[i][4] != ' '
    {
      CSharpInnerLine(r, ser, i);
    }
  }

  /** One statement between the braces: four spaces, then a letter. */
  lemma CSharpInnerLine(r: Request, ser: Serializers, i: int)
    requires 2 <= i < |CSharpLines(r, ser)| - 1
    ensures var line := CSharpLines(r, ser)[i];
      StartsWith(line, "    ") && |line| > 4 && line[4] != ' '
  {
    var ind := Spaces(IndentSpaces);
    assert ind == "    ";
    var opening, headers, body := CSharpOpening(r), Map(r.headers, CSharpHeader), CSharpBodyLines(r, ser);
    var l := opening + headers + body + [ind + CSharpSend, "}"];
    assert l == CSharpLines(r, ser);
    if i == 2 {
      assert l[i] == opening[2];
      Indented(CSharpRequestLine(CapitalizeFirst(r.httpMethod), r.uri));
    } else if i < 3 + |headers| {
      assert l[i] == CSharpHeader(r.headers[i - 3]);
      CSharpHeaderIndented(r.headers[i - 3]);
    } else if i < 3 + |headers| + |body| {
      assert l[i] == body[0];
      Indented(CSharpBody(ser, r.body.value.example.value));
    } else {
      assert l[i] == ind + CSharpSend;
      Indented(CSharpSend);
    }
  }



  lemma CSharpHeaderIndented(h: Entry<string>)
    ensures var line := CSharpHeader(h); StartsWith(line, "    ") && |line| > 4 && line[4] != ' '
  {
    var call := "httpClient." + "Headers.Add(\"" + h.key + "\", \"" + h.value + "\");";
    assert Spaces(IndentSpaces) == "    ";
    Indented(call);
  }

  /** A statement that starts with a letter, indented by four spaces. */
  lemma Indented(line: string)
    requires |line| > 0 && 'a' <= line[0] <= 'z'
    ensures var l := "    " + line; StartsWith(l, "    ") && |l| > 4 && l[4] != ' '
  {
    assert ("    " + line)[4] == line[0];
  }


  /** The method of a constructed request is already upper case, so the
      C# template names `HttpMethod.GET`, not `HttpMethod.Get`. */
  lemma CSharpMethodToken(data: RequestData)
    ensures CapitalizeFirst(Upper(data.httpMethod)) == Upper(data.httpMethod)
  {
    var m := Upper(data.httpMethod);
    if |m| > 0 {
      UpperIdempotent(data.httpMethod);
      assert UpperChar(m[0]) == Upper(m)[0];
      assert m == [m[0]] + m[1..];
    }
  }

  /** `getCSharpRequest(request)`. */
  method CSharpRequest(request: Request, ser: Serializers) returns (s: string)
    ensures s == CSharpSample(request, ser)
  {
    var csharpified: seq<string> := [];
    var headers := request.headers;
    var body := request.body;
    var m := request.httpMethod;
    var uri := request.uri;
    m := CapitalizeFirst(m);
    var indent: nat := 0;
    csharpified := csharpified + [CSharpOpen];
    csharpified := csharpified + ["{"];
    indent := indent + IndentSpaces;
    csharpified := csharpified
      + [Spaces(indent) + CSharpRequestLine(m, uri)];
    var opening := csharpified;
    assert opening == CSharpOpening(request);
    if |headers| > 0 {
      for i := 0 to |headers|
        invariant csharpified == opening + Map(headers[..i], CSharpHeader)
        invariant indent == IndentSpaces
      {
        MapStep(headers, i, CSharpHeader);
        csharpified := csharpified + [CSharpHeader(headers[i])];
      }
      assert headers[..|headers|] == headers;
    }
    ghost var withHeaders := csharpified;
    assert withHeaders == opening + Map(headers, CSharpHeader);
    if body.Some? && JsonTruthy(body.value.example) {
      csharpified := csharpified + [Spaces(indent) + CSharpBody(ser, body.value.example.value)];
    }
    ghost var withBody := csharpified;
    assert withBody == withHeaders + CSharpBodyLines(request, ser);
    var closing := Spaces(indent) + CSharpSend;
    csharpified := csharpified + [closing];
    csharpified := csharpified + ["}"];
    assert csharpified == withBody + [closing, "}"];
    assert CSharpLines(request, ser) == withBody + [closing, "}"];
    s := Join(csharpified, "\n");
  }

  // ---------------------------------------------------------------------
  // Java

  const JavaOpen := "HttpsURLConnection con = (HttpsURLConnection) obj.openConnection();"
  const JavaResponse := "int responseCode = conn.getResponseCode();"

  /** The fixed lines written for a body; the second is template text,
      the example itself is never rendered. */
  const JavaBodyLines: seq<string> := [
    "conn.setDoOutput(true);",
    "String input = JSON.stringify(JSON.stringify(body.example)).replace(/\\n/g, \"\");",
    "OutputStream os = conn.getOutputStream();",
    "os.write(input.getBytes());",
    "os.flush();"
  ]

  function JavaHeader(h: Entry<string>): string
  {
    "con.setRequestProperty(\"" + h.key + "\", \"" + h.value + "\");"
  }

  function JavaHead(r: Request): seq<string>
  {
    ["URL obj = new URL(\"" + r.uri + "\");", JavaOpen, "con.setRequestMethod(\"" + Upper(r.httpMethod) + "\");"]
  }

  /** The lines `getJavaRequest` pushes, in order. */
  function JavaLines(r: Request): seq<string>
  {
    JavaHead(r) + Map(r.headers, JavaHeader)
    + (if HasBodyExample(r) then JavaBodyLines else [])
    + [JavaResponse]
  }

  function JavaSample(r: Request): string
  {
    Join(JavaLines(r), "\n")
  }

  /** The Java text depends on the body only through whether it has a
      truthy example; a body adds exactly the five fixed lines before the
      final one. */
  lemma JavaBodyLinesFixed(r: Request, body: Option<Parameter>)
    ensures HasBodyExample(r.(body := body)) == HasBodyExample(r) ==>
      JavaSample(r.(body := body)) == JavaSample(r)
    ensures HasBodyExample(r) ==>
      var plain := JavaLines(r.(body := None));
      JavaLines(r) == plain[..|plain| - 1] + JavaBodyLines + [JavaResponse]
  {
    var plain := JavaLines(r.(body := None));
    assert plain[..|plain| - 1] == JavaHead(r) + Map(r.headers, JavaHeader);
  }

  /** `getJavaRequest(request)`. */
  method JavaRequest(request: Request) returns (s: string)
    ensures s == JavaSample(request)
    ensures EndsWith(s, JavaResponse)
  {
    var javafied: seq<string> := [];
    var headers := request.headers;
    var body := request.body;
    var m := request.httpMethod;
    var uri := request.uri;
    javafied := javafied + ["URL obj = new URL(\"" + uri + "\");"];
    javafied := javafied + [JavaOpen];
    javafied := javafied + ["con.setRequestMethod(\"" + Upper(m) + "\");"];
    assert javafied == JavaHead(request);
    if |headers| > 0 {
      for i := 0 to |headers|
        invariant javafied == JavaHead(request) + Map(headers[..i], JavaHeader)
      {
        MapStep(headers, i, JavaHeader);
        javafied := javafied + [JavaHeader(headers[i])];
      }
      assert headers[..|headers|] == headers;
    }
    assert javafied == JavaHead(request) + Map(headers, JavaHeader);
    if body.Some? && JsonTruthy(body.value.example) {
      javafied := javafied + JavaBodyLines;
    }
    javafied := javafied + [JavaResponse];
    assert javafied == JavaLines(request);
    s := Join(javafied, "\n");
    JoinLast(javafied, "\n");
  }

  // ---------------------------------------------------------------------
  // Dispatch

  /** The text `renderRequest` returns: `undefined` for other codes. */
  function RenderedSample(language: Language, r: Request, ser: Serializers): (out: Option<string>)
    ensures out.Some? <==> language.code in ["curl", "cs", "java"]
  {
    match language.code
    case "curl" => Some(CurlSample(r, ser))
    case "cs" => Some(CSharpSample(r, ser))
    case "java" => Some(JavaSample(r))
    case _ => None
  }

  /** `renderRequest(language, request)`. */
  method RenderRequest(language: Language, request: Request, ser: Serializers) returns (output: Option<string>)
    ensures output == RenderedSample(language, request, ser)
  {
    output := None;
    match language.code {
      case "curl" =>
        var s := CurlRequest(request, ser);
        output := Some(s);
      case "cs" =>
        var s := CSharpRequest(request, ser);
        output := Some(s);
      case "java" =>
        var s := JavaRequest(request);
        output := Some(s);
      case _ =>
    }
  }
}
