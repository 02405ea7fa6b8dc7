/**
 * The page `_writeFile` writes for one group of path items: a heading
 * made of the group's title and description, then, for every path item
 * and every method of `httpMethods` it defines, the endpoint's section
 * (heading, description, URI, one request sample per language, the
 * parameter tables and the example response).
 *
 * Writing the text to disk is not modelled: `WriteFileContent` returns
 * the text `fs.writeFileSync` would be given. Every `TypeError` a lookup
 * on a missing member raises ends the page with `Err`.
 */
module Page {

  import opened Js
  import opened Strings
  import opened Collections
  import opened Swagger
  import opened Requests
  import opened CodeSamples
  import opened Endpoint
  import opened Tables
  import opened Grouping

  /** The languages a sample is written in, in this order. The generator
      takes them from `./supportedLanguages`, which is not part of this
      model; the list is the one in `index_old.js`. */
  const SupportedLanguages: seq<Language> := [Language("curl"), Language("cs"), Language("java")]

  // ---------------------------------------------------------------------
  // Title and description of the page

  function NamedAs(primary: string): Tag -> bool
  {
    (t: Tag) => t.name == Some(primary)
  }

  /** `_.filter(this._tags, tag => tag.name === primaryTag)[0]`; lodash
      treats missing `tags` as an empty list. */
  function DetailTag(tags: Option<seq<Tag>>, primary: string): (r: Option<Tag>)
    ensures r.None? <==> tags.None? || forall i :: 0 <= i < |tags.value| ==> tags.value[i].name != Some(primary)
    ensures r.Some? ==> exists i ::
      && 0 <= i < |tags.value| && tags.value[i] == r.value && r.value.name == Some(primary)
      && forall j :: 0 <= j < i ==> tags.value[j].name != Some(primary)
  {
    match tags
    case None => None
    case Some(ts) =>
      var found := Filter(ts, NamedAs(primary));
      FilterEmpty(ts, NamedAs(primary));
      if found == [] then None
      else
        FilterFirst(ts, NamedAs(primary));
        Some(found[0])
  }

  /** The tag entry picked is the first one carrying that name. */
  lemma DetailTagIsFirst(tags: seq<Tag>, primary: string, i: nat)
    requires i < |tags| && tags[i].name == Some(primary)
    requires forall j :: 0 <= j < i ==> tags[j].name != Some(primary)
    ensures DetailTag(Some(tags), primary) == Some(tags[i])
  {
    var r := DetailTag(Some(tags), primary);
    var k :| 0 <= k < |tags| && tags[k] == r.value && r.value.name == Some(primary)
      && forall j :: 0 <= j < k ==> tags[j].name != Some(primary);
    assert !(k < i);
    assert !(i < k);
  }

  /** The first key of an item other than `_path`, `undefined` if none. */
  function LeadKey(item: Annotated): (r: Option<string>)
    ensures r.Some? ==> r.value in Keys(item.operations) && r.value != "_path"
    ensures r.None? <==> forall i :: 0 <= i < |item.operations| ==> item.operations[i].key == "_path"
  {
    var ks := OperationKeys(item.operations);
    assert forall i :: 0 <= i < |item.operations| && item.operations[i].key != "_path" ==>
      Keys(item.operations)[i] in ks;
    First(ks)
  }

  /** The operation under the lead key, or `undefined`. */
  function LeadOperation(item: Annotated): (r: Option<Operation>)
    ensures r.Some? ==> LeadKey(item).Some? && Get(item.operations, LeadKey(item).value) == r
  {
    match LeadKey(item)
    case None => None
    case Some(key) => Get(item.operations, key)
  }

  /** The tag entry the title and the description are read from:
      `None` wherever the source returns its fallback early. Reading
      `tags[0]` of an operation without `tags` throws. */
  function LeadTag(ctx: Context, item: Annotated): (r: Result<Option<Tag>>)
    ensures r.Err? <==>
      LeadKey(item).Some? && LeadKey(item).value != "" && LeadOperation(item).Some?
      && LeadOperation(item).value.tags.None?
    ensures r.Ok? && r.value.Some? ==>
      && LeadOperation(item).Some? && LeadOperation(item).value.tags.Some?
      && LeadKey(item).value != "" && |LeadOperation(item).value.tags.value| > 0
      && LeadOperation(item).value.tags.value[0] != ""
      && r.value == DetailTag(ctx.tags, LeadOperation(item).value.tags.value[0])
  {
    match LeadKey(item)
    case None => Ok(None)
    case Some(key) =>
      if key == "" then Ok(None)
      else
        match Get(item.operations, key)
        case None => Ok(None)
        case Some(op) =>
          match op.tags
          case None => Err(TypeError)
          case Some(tags) =>
            if |tags| == 0 || tags[0] == "" then Ok(None)
            else
              match DetailTag(ctx.tags, tags[0])
              case None => Ok(None)
              case Some(tag) => Ok(Some(tag))
  }

  /** `action[actionKey].operationId.split('_')[0]`, which throws when
      the first item has no operation or the operation no `operationId`. */
  function FallbackTitle(item: Annotated): (r: Result<string>)
    ensures r.Ok? <==> LeadOperation(item).Some? && LeadOperation(item).value.operationId.Some?
    ensures r.Ok? ==> '_' !in r.value
    ensures r.Ok? ==> StartsWith(LeadOperation(item).value.operationId.value, r.value)
  {
    match LeadOperation(item)
    case None => Err(TypeError)
    case Some(op) =>
      match op.operationId
      case None => Err(TypeError)
      case Some(id) =>
        var r := FirstSegment(id, '_');
        assert id[..|r|] == r;
        Ok(r)
  }

  /** `_getPathItemsTitle(pathItems)`: the trimmed `x-title` of the tag
      entry named after the first operation's first tag, or else the
      first `_`-separated segment of its `operationId`. */
  function PathItemsTitle(ctx: Context, items: seq<Annotated>): (r: Result<string>)
    ensures r.Err? <==> |items| == 0 || FallbackTitle(items[0]).Err? || LeadTag(ctx, items[0]).Err?
    ensures r.Ok? ==>
      || r.value == FallbackTitle(items[0]).value
      || (LeadTag(ctx, items[0]).value.Some? && r.value != ""
          && r.value == Trim(OrEmpty(LeadTag(ctx, items[0]).value.value.xTitle)))
  {
    if |items| == 0 then Err(TypeError)
    else
      match FallbackTitle(items[0])
      case Err(e) => Err(e)
      case Ok(fallback) =>
        match LeadTag(ctx, items[0])
        case Err(e) => Err(e)
        case Ok(None) => Ok(fallback)
        case Ok(Some(tag)) =>
          var title := Trim(OrEmpty(tag.xTitle));
          Ok(if title != "" then title else fallback)
  }

  /** `_getPathItemsDescription(pathItems)`: the trimmed `description` of
      the same tag entry, or empty. */
  function PathItemsDescription(ctx: Context, items: seq<Annotated>): (r: Result<string>)
    ensures r.Err? <==> |items| > 0 && LeadTag(ctx, items[0]).Err?
    ensures r.Ok? && r.value != "" ==>
      && |items| > 0 && LeadTag(ctx, items[0]).value.Some?
      && r.value == Trim(OrEmpty(LeadTag(ctx, items[0]).value.value.description))
    ensures r.Ok? && |r.value| > 0 ==> !IsSpace(r.value[0]) && !IsSpace(r.value[|r.value| - 1])
  {
    if |items| == 0 then Ok("")
    else
      match LeadTag(ctx, items[0])
      case Err(e) => Err(e)
      case Ok(None) => Ok("")
      case Ok(Some(tag)) => Ok(Trim(OrEmpty(tag.description)))
  }

  /** The title is the tag entry's when that one has a non-blank
      `x-title`: the first entry named after the operation's first tag. */
  lemma TitleFromTag(ctx: Context, items: seq<Annotated>, i: nat)
    requires |items| > 0 && FallbackTitle(items[0]).Ok?
    requires LeadKey(items[0]).value != ""
    requires LeadOperation(items[0]).value.tags.Some?
    requires var tags := LeadOperation(items[0]).value.tags.value; |tags| > 0 && tags[0] != ""
    requires ctx.tags.Some? && i < |ctx.tags.value|
    requires ctx.tags.value[i].name == Some(LeadOperation(items[0]).value.tags.value[0])
    requires forall j :: 0 <= j < i ==>
      ctx.tags.value[j].name != Some(LeadOperation(items[0]).value.tags.value[0])
    requires Trim(OrEmpty(ctx.tags.value[i].xTitle)) != ""
    ensures PathItemsTitle(ctx, items) == Ok(Trim(OrEmpty(ctx.tags.value[i].xTitle)))
    ensures PathItemsDescription(ctx, items) == Ok(Trim(OrEmpty(ctx.tags.value[i].description)))
  {
    DetailTagIsFirst(ctx.tags.value, LeadOperation(items[0]).value.tags.value[0], i);
  }

  /** With no tag entry of that name the title falls back to the
      `operationId` and the description is empty. */
  lemma TitleFallsBack(ctx: Context, items: seq<Annotated>)
    requires |items| > 0 && FallbackTitle(items[0]).Ok? && LeadTag(ctx, items[0]) == Ok(None)
    ensures PathItemsTitle(ctx, items) == FallbackTitle(items[0])
    ensures PathItemsDescription(ctx, items) == Ok("")
  {
  }

  /** The description can only fail where the title, read first, fails. */
  lemma DescriptionFailsOnlyWithTitle(ctx: Context, items: seq<Annotated>)
    ensures PathItemsDescription(ctx, items).Err? ==> PathItemsTitle(ctx, items).Err?
  {
  }

  // ---------------------------------------------------------------------
  // Request samples

  /** `_getSampleApiCode(pathItem, httpMethod, language)`: the rendered
      request in a fenced block tagged with the language's code. */
  function SampleApiCode(ctx: Context, item: Annotated, httpMethod: string, op: Operation,
                         language: Language, ser: Serializers): (r: Result<string>)
    ensures r.Err? <==> RequestFor(ctx, httpMethod, item.path, op).Err?
    ensures r.Ok? ==> StartsWith(r.value, "```" + language.code + "\n") && EndsWith(r.value, "\n```\n\n")
  {
    match RequestFor(ctx, httpMethod, item.path, op)
    case Err(e) => Err(e)
    case Ok(request) =>
      var requestString := Text(RenderedSample(language, request, ser));
      var open := "```" + language.code + "\n";
      var r := open + requestString + "\n```\n\n";
      assert r[..|open|] == open;
      assert r[|r| - 6..] == "\n```\n\n";
      Ok(r)
  }

  function SampleOf(ctx: Context, item: Annotated, httpMethod: string, op: Operation,
                    ser: Serializers): Language -> Result<string>
  {
    language => SampleApiCode(ctx, item, httpMethod, op, language, ser)
  }

  /** The samples in every supported language, one after another; they
      share one request, so they fail together. */
  function Samples(ctx: Context, item: Annotated, httpMethod: string, op: Operation,
                   ser: Serializers): (r: Result<string>)
    ensures r.Err? <==> RequestFor(ctx, httpMethod, item.path, op).Err?
  {
    var r := TryConcat(SupportedLanguages, SampleOf(ctx, item, httpMethod, op, ser));
    assert SampleOf(ctx, item, httpMethod, op, ser)(SupportedLanguages[0])
      == SampleApiCode(ctx, item, httpMethod, op, SupportedLanguages[0], ser);
    r
  }

  /** A supported language never renders as `undefined`. */
  lemma SupportedSample(ctx: Context, item: Annotated, httpMethod: string, op: Operation,
                        language: Language, ser: Serializers)
    requires language in SupportedLanguages
    requires RequestFor(ctx, httpMethod, item.path, op).Ok?
    ensures RenderedSample(language, RequestFor(ctx, httpMethod, item.path, op).value, ser).Some?
    ensures SampleApiCode(ctx, item, httpMethod, op, language, ser).value ==
      "```" + language.code + "\n"
      + RenderedSample(language, RequestFor(ctx, httpMethod, item.path, op).value, ser).value
      + "\n```\n\n"
  {
  }

  // ---------------------------------------------------------------------
  // The example response

  /** `responseContentType && 'Content-Type: ' + … + '\n'`: a falsy
      operand is itself what gets concatenated. */
  function ContentTypeLine(ct: Option<string>): (r: string)
    ensures ct.None? ==> r == "undefined"
    ensures ct == Some("") ==> r == ""
    ensures Truthy(ct) ==> StartsWith(r, "Content-Type: ") && EndsWith(r, "\n")
  {
    match ct
    case None => "undefined"
    case Some(c) =>
      if c == "" then ""
      else
        var r := "Content-Type: " + c + "\n";
        assert r[..14] == "Content-Type: ";
        assert r[|r| - 1..] == "\n";
        r
  }

  /** The status line block shown for an endpoint, up to its closing
      fence. */
  function StatusLines(pos: PositiveResponse, ct: Option<string>): string
  {
    "#### Example Response\n\n" + "```http\n"
    + "HTTP/1.1 " + Text(pos.statusCode) + " " + Text(pos.description) + "\n"
    + ContentTypeLine(ct)
  }

  function ResponseHead(pos: PositiveResponse, ct: Option<string>): string
  {
    StatusLines(pos, ct) + "```\n"
  }

  /** The JSON block of an example response. */
  function ExampleBlock(ser: Serializers, example: Json): string
  {
    "```json\n" + ser.pretty(example) + "\n" + "```\n\n"
  }

  /** The example response of `_writeFile`: the head, then for a status
      other than `204` the example if there is one, for `204` a blank
      line. Missing `responses` or `produces` throw. */
  function ResponseBlock(op: Operation, ser: Serializers): (r: Result<string>)
    ensures r.Err? <==> op.responses.None? || op.produces.None?
  {
    match PositiveResponseOf(op)
    case Err(e) => Err(e)
    case Ok(pos) =>
      match FirstResponseContentType(op)
      case Err(e) => Err(e)
      case Ok(ct) =>
        var head := ResponseHead(pos, ct);
        if pos.statusCode != Some("204") then
          match PositiveResponseExample(op, pos.statusCode).value
          case None => Ok(head)
          case Some(example) => Ok(head + ExampleBlock(ser, example))
        else
          Ok(head + "\n")
  }

  /** A `204` response shows no example: the block does not depend on
      the serializer that would print one. */
  lemma NoContentShowsNoExample(op: Operation, ser1: Serializers, ser2: Serializers)
    requires op.responses.Some? && op.produces.Some?
    requires PositiveResponseOf(op).value.statusCode == Some("204")
    ensures ResponseBlock(op, ser1) == ResponseBlock(op, ser2)
  {
    var r := ResponseHead(PositiveResponseOf(op).value, FirstResponseContentType(op).value) + "\n";
    assert ResponseBlock(op, ser1) == Ok(r);
  }

  /** It closes the status block with a blank line instead. */
  lemma NoContentEndsBlank(op: Operation, ser: Serializers)
    requires op.responses.Some? && op.produces.Some?
    requires PositiveResponseOf(op).value.statusCode == Some("204")
    ensures EndsWith(ResponseBlock(op, ser).value, "```\n\n")
  {
    var lines := StatusLines(PositiveResponseOf(op).value, FirstResponseContentType(op).value);
    assert ResponseBlock(op, ser) == Ok(lines + "```\n" + "\n");
    EndsWithAppend(lines, "```\n", "\n");
    assert "```\n" + "\n" == "```\n\n";
  }

  /** Any other status shows the example under its first key, when
      there is one, as pretty-printed JSON at the end of the block. */
  lemma ExampleShown(op: Operation, ser: Serializers)
    requires op.responses.Some? && op.produces.Some?
    requires PositiveResponseOf(op).value.statusCode != Some("204")
    requires PositiveResponseExample(op, PositiveResponseOf(op).value.statusCode).value.Some?
    ensures EndsWith(ResponseBlock(op, ser).value,
      ExampleBlock(ser, PositiveResponseExample(op, PositiveResponseOf(op).value.statusCode).value.value))
  {
    var pos := PositiveResponseOf(op).value;
    var head := ResponseHead(pos, FirstResponseContentType(op).value);
    var block := ExampleBlock(ser, PositiveResponseExample(op, pos.statusCode).value.value);
    assert (head + block)[|head|..] == block;
  }

  /** An example listed in the document under the shown status is the
      one printed: the value under the first key of its `examples`. */
  lemma DocumentExampleShown(op: Operation, ser: Serializers)
    requires op.responses.Some? && op.produces.Some?
    requires PositiveResponseOf(op).value.statusCode != Some("204")
    requires var response := Get(op.responses.value, Text(PositiveResponseOf(op).value.statusCode));
      response.Some? && response.value.examples.Some? && |response.value.examples.value| > 0
    ensures var response := Get(op.responses.value, Text(PositiveResponseOf(op).value.statusCode));
      EndsWith(ResponseBlock(op, ser).value, ExampleBlock(ser, response.value.examples.value[0].value))
  {
    ExampleShown(op, ser);
  }

  /** Without an example under the shown status, a status other than
      `204` closes the block right after the status lines. */
  lemma MissingExampleShowsHead(op: Operation, ser: Serializers)
    requires op.responses.Some? && op.produces.Some?
    requires PositiveResponseOf(op).value.statusCode != Some("204")
    requires var response := Get(op.responses.value, Text(PositiveResponseOf(op).value.statusCode));
      response.None? || response.value.examples.None? || |response.value.examples.value| == 0
    ensures ResponseBlock(op, ser)
      == Ok(ResponseHead(PositiveResponseOf(op).value, FirstResponseContentType(op).value))
  {
  }

  // ---------------------------------------------------------------------
  // One endpoint

  /** The heading of an endpoint's section, up to its samples. */
  function EndpointHead(ctx: Context, item: Annotated, httpMethod: string, op: Operation): string
  {
    "### " + Text(Or(op.xTitle, op.operationId)) + "\n\n"
    + OperationDescription(op) + "\n\n"
    + EndpointUri(ctx, httpMethod, item.path, op)
    + "#### Example Request" + "\n\n"
  }

  /** The section `_writeFile` appends for one defined endpoint. */
  function EndpointSection(ctx: Context, item: Annotated, httpMethod: string, op: Operation,
                           ser: Serializers): (r: Result<string>)
    ensures r.Err? <==>
      || RequestFor(ctx, httpMethod, item.path, op).Err?
      || BodyTable(ctx, op).Err?
      || op.responses.None? || op.produces.None?
  {
    match Samples(ctx, item, httpMethod, op, ser)
    case Err(e) => Err(e)
    case Ok(samples) =>
      match BodyTable(ctx, op)
      case Err(e) => Err(e)
      case Ok(bodyTable) =>
        match ResponseBlock(op, ser)
        case Err(e) => Err(e)
        case Ok(response) =>
          Ok(EndpointHead(ctx, item, httpMethod, op) + samples + (QueryTable(op) + Text(bodyTable)) + response)
  }

  /** The text one method of a path item contributes: nothing when the
      item does not define it. */
  function MethodSection(ctx: Context, item: Annotated, ser: Serializers): string -> Result<string>
  {
    httpMethod =>
      match Get(item.operations, httpMethod)
      case None => Ok("")
      case Some(op) => EndpointSection(ctx, item, httpMethod, op, ser)
  }

  /** The sections of one path item, in the order of `httpMethods`. */
  function ItemSections(ctx: Context, item: Annotated, ser: Serializers): (r: Result<string>)
    ensures r.Ok? <==> forall i :: 0 <= i < |HttpMethods| ==> MethodSection(ctx, item, ser)(HttpMethods[i]).Ok?
  {
    TryConcat(HttpMethods, MethodSection(ctx, item, ser))
  }

  function ItemSectionsOf(ctx: Context, ser: Serializers): Annotated -> Result<string>
  {
    item => ItemSections(ctx, item, ser)
  }

  /** The heading of a page. */
  function PageHead(title: string, description: string): string
  {
    "## " + title + "\n\n" + description + "\n\n"
  }

  /** The text `_writeFile(fileName, pathItems)` writes. */
  function PageContent(ctx: Context, items: seq<Annotated>, ser: Serializers): (r: Result<string>)
    ensures |items| == 0 ==> r.Err?
  {
    match PathItemsTitle(ctx, items)
    case Err(e) => Err(e)
    case Ok(title) =>
      match PathItemsDescription(ctx, items)
      case Err(e) => Err(e)
      case Ok(description) =>
        match TryConcat(items, ItemSectionsOf(ctx, ser))
        case Err(e) => Err(e)
        case Ok(sections) =>
          Ok(PageHead(title, description) + sections)
  }

  /** An item renders exactly when each endpoint it defines does. */
  lemma ItemSucceeds(ctx: Context, item: Annotated, ser: Serializers)
    ensures ItemSections(ctx, item, ser).Ok? <==>
      forall m :: 0 <= m < |HttpMethods| && Get(item.operations, HttpMethods[m]).Some? ==>
        EndpointSection(ctx, item, HttpMethods[m], Get(item.operations, HttpMethods[m]).value, ser).Ok?
  {
    forall m | 0 <= m < |HttpMethods|
      ensures MethodSection(ctx, item, ser)(HttpMethods[m]).Ok? <==>
        (Get(item.operations, HttpMethods[m]).Some? ==>
          EndpointSection(ctx, item, HttpMethods[m], Get(item.operations, HttpMethods[m]).value, ser).Ok?)
    {
    }
  }

  /** A page is written exactly when its title can be read and every
      endpoint of every item renders (the description reads the same
      operation as the title). */
  lemma PageSucceeds(ctx: Context, items: seq<Annotated>, ser: Serializers)
    ensures PageContent(ctx, items, ser).Ok? <==>
      && PathItemsTitle(ctx, items).Ok?
      && forall i :: 0 <= i < |items| ==> ItemSections(ctx, items[i], ser).Ok?
  {
    DescriptionFailsOnlyWithTitle(ctx, items);
    var f := ItemSectionsOf(ctx, ser);
    forall i | 0 <= i < |items|
      ensures f(items[i]) == ItemSections(ctx, items[i], ser)
    {
    }
    assert TryConcat(items, f).Ok? <==> forall i :: 0 <= i < |items| ==> ItemSections(ctx, items[i], ser).Ok?;
    if PathItemsTitle(ctx, items).Ok? {
      assert PageContent(ctx, items, ser).Ok? <==> TryConcat(items, f).Ok?;
    }
  }

  // ---------------------------------------------------------------------
  // Writing the page: the callbacks of `_writeFile` append to the text
  // they share

  /** `text` followed by the text of `r`, or the failure of `r`. */
  function Appended(text: string, r: Result<string>): (a: Result<string>)
    ensures a.Err? <==> r.Err?
    ensures a.Ok? ==> a.value == text + r.value
  {
    match r
    case Err(e) => Err(e)
    case Ok(s) => Ok(text + s)
  }

  lemma AppendConcat(a: string, b: string, c: string)
    ensures a + b + c == a + (b + c)
  {
  }

  /** `_getSampleApiCode`, building and rendering the request. */
  method WriteSampleApiCode(ctx: Context, item: Annotated, httpMethod: string, op: Operation,
                            language: Language, ser: Serializers) returns (r: Result<string>)
    ensures r == SampleApiCode(ctx, item, httpMethod, op, language, ser)
  {
    var request := BuildRequest(ctx, httpMethod, item.path, op);
    if request.Err? {
      return Err(request.fault);
    }
    var requestString := RenderRequest(language, request.value, ser);
    r := Ok("```" + language.code + "\n" + Text(requestString) + "\n```\n\n");
  }

  /** The `supportedLanguages` loop: one sample per language. */
  method PushSamples(fileContent0: string, ctx: Context, item: Annotated, httpMethod: string,
                     op: Operation, ser: Serializers) returns (r: Result<string>)
    ensures r == Appended(fileContent0, Samples(ctx, item, httpMethod, op, ser))
  {
    var f := SampleOf(ctx, item, httpMethod, op, ser);
    var fileContent := fileContent0;
    for i := 0 to |SupportedLanguages|
      invariant TryConcat(SupportedLanguages[..i], f).Ok?
      invariant fileContent == fileContent0 + TryConcat(SupportedLanguages[..i], f).value
    {
      TryConcatStep(SupportedLanguages, f, i);
      var sample := WriteSampleApiCode(ctx, item, httpMethod, op, SupportedLanguages[i], ser);
      assert sample == f(SupportedLanguages[i]);
      if sample.Err? {
        TryConcatPrefixFails(SupportedLanguages, f, i + 1);
        return Err(sample.fault);
      }
      AppendConcat(fileContent0, TryConcat(SupportedLanguages[..i], f).value, sample.value);
      fileContent := fileContent + sample.value;
    }
    assert SupportedLanguages[..|SupportedLanguages|] == SupportedLanguages;
    r := Ok(fileContent);
  }

  /** The example response appended after an endpoint's tables. */
  method PushResponse(fileContent0: string, op: Operation, ser: Serializers) returns (r: Result<string>)
    ensures r == Appended(fileContent0, ResponseBlock(op, ser))
  {
    var positiveResponse := PositiveResponseOf(op);
    if positiveResponse.Err? {
      return Err(positiveResponse.fault);
    }
    var responseContentType := FirstResponseContentType(op);
    if responseContentType.Err? {
      return Err(responseContentType.fault);
    }
    var head := ResponseHead(positiveResponse.value, responseContentType.value);
    var fileContent := fileContent0 + head;
    if positiveResponse.value.statusCode != Some("204") {
      var responseExample := PositiveResponseExample(op, positiveResponse.value.statusCode).value;
      if responseExample.Some? {
        var block := ExampleBlock(ser, responseExample.value);
        AppendConcat(fileContent0, head, block);
        fileContent := fileContent + block;
      }
    } else {
      AppendConcat(fileContent0, head, "\n");
      fileContent := fileContent + "\n";
    }
    r := Ok(fileContent);
  }

  /** The `httpMethods` callback for one method of one path item. */
  method PushEndpoint(fileContent0: string, ctx: Context, item: Annotated, httpMethod: string,
                      ser: Serializers) returns (r: Result<string>)
    ensures r == Appended(fileContent0, MethodSection(ctx, item, ser)(httpMethod))
  {
    var endpoint := Get(item.operations, httpMethod);
    if endpoint.None? {
      assert fileContent0 + "" == fileContent0;
      return Ok(fileContent0);
    }
    r := PushEndpointSection(fileContent0, ctx, item, httpMethod, endpoint.value, ser);
  }

  /** The body of that callback once the endpoint is known to exist. */
  method PushEndpointSection(fileContent0: string, ctx: Context, item: Annotated, httpMethod: string,
                             op: Operation, ser: Serializers) returns (r: Result<string>)
    ensures r == Appended(fileContent0, EndpointSection(ctx, item, httpMethod, op, ser))
  {
    var head := EndpointHead(ctx, item, httpMethod, op);
    var withSamples := PushSamples(fileContent0 + head, ctx, item, httpMethod, op, ser);
    if withSamples.Err? {
      return Err(withSamples.fault);
    }
    var queryTable := QueryParametersAsTable(op);
    var bodyTable := BodyParametersAsTable(ctx, op);
    if bodyTable.Err? {
      return Err(bodyTable.fault);
    }
    var tables := queryTable + Text(bodyTable.value);
    var fileContent := withSamples.value + tables;
    var response := PushResponse(fileContent, op, ser);
    if response.Err? {
      return Err(response.fault);
    }
    var samples := Samples(ctx, item, httpMethod, op, ser).value;
    var block := ResponseBlock(op, ser).value;
    assert EndpointSection(ctx, item, httpMethod, op, ser) == Ok(head + samples + tables + block);
    SectionConcat(fileContent0, head, samples, tables, block);
    r := response;
  }

  lemma SectionConcat(text: string, head: string, samples: string, tables: string, response: string)
    ensures text + head + samples + tables + response == text + (head + samples + tables + response)
  {
  }

  /** The `pathItems` callback: every method of `httpMethods` in turn. */
  method PushItem(fileContent0: string, ctx: Context, item: Annotated, ser: Serializers) returns (r: Result<string>)
    ensures r == Appended(fileContent0, ItemSections(ctx, item, ser))
  {
    var f := MethodSection(ctx, item, ser);
    var fileContent := fileContent0;
    for i := 0 to |HttpMethods|
      invariant TryConcat(HttpMethods[..i], f).Ok?
      invariant fileContent == fileContent0 + TryConcat(HttpMethods[..i], f).value
    {
      TryConcatStep(HttpMethods, f, i);
      var section := PushEndpoint(fileContent, ctx, item, HttpMethods[i], ser);
      if section.Err? {
        TryConcatPrefixFails(HttpMethods, f, i + 1);
        return Err(section.fault);
      }
      AppendConcat(fileContent0, TryConcat(HttpMethods[..i], f).value, f(HttpMethods[i]).value);
      fileContent := section.value;
    }
    assert HttpMethods[..|HttpMethods|] == HttpMethods;
    r := Ok(fileContent);
  }

  /** `_writeFile(fileName, pathItems)`: the text it writes. */
  method WriteFileContent(ctx: Context, pathItems: seq<Annotated>, ser: Serializers) returns (r: Result<string>)
    ensures r == PageContent(ctx, pathItems, ser)
  {
    var title := PathItemsTitle(ctx, pathItems);
    if title.Err? {
      return Err(title.fault);
    }
    DescriptionFailsOnlyWithTitle(ctx, pathItems);
    var description := PathItemsDescription(ctx, pathItems);
    var f := ItemSectionsOf(ctx, ser);
    var fileContent0 := PageHead(title.value, description.value);
    var fileContent := fileContent0;
    for i := 0 to |pathItems|
      invariant TryConcat(pathItems[..i], f).Ok?
      invariant fileContent == fileContent0 + TryConcat(pathItems[..i], f).value
    {
      TryConcatStep(pathItems, f, i);
      var section := PushItem(fileContent, ctx, pathItems[i], ser);
      assert ItemSections(ctx, pathItems[i], ser) == f(pathItems[i]);
      if section.Err? {
        TryConcatPrefixFails(pathItems, f, i + 1);
        return Err(section.fault);
      }
      AppendConcat(fileContent0, TryConcat(pathItems[..i], f).value, f(pathItems[i]).value);
      fileContent := section.value;
    }
    assert pathItems[..|pathItems|] == pathItems;
    r := Ok(fileContent);
  }
}
