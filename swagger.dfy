/**
 * The parsed Swagger 2.0 document as the generator reads it, and the
 * generator object's own state (the tags, definitions and version it
 * keeps after `emit` has checked the document).
 *
 * Every member the generator reads with a fallback or a truthiness test
 * is an `Option`; members the generator dereferences without a test are
 * `Option`s too when their absence makes it throw. The one exception is a
 * parameter's `name`, which Swagger 2.0 requires and which is kept as a
 * plain string.
 */
module Swagger {

  import opened Js
  import opened Strings

  /** An entry of the document's top-level `tags` array. */
  datatype Tag = Tag(name: Option<string>, xTitle: Option<string>, description: Option<string>)

  /** The `items` schema of an array schema; only its `$ref` is read. */
  datatype Items = Items(ref: Option<string>)

  /** A schema: a direct `type`, a `$ref`, or an array of `items`. */
  datatype Schema = Schema(typ: Option<string>, ref: Option<string>, items: Option<Items>)

  /** An operation parameter. `example` is only ever set on the copy the
      generator makes of a body parameter. */
  datatype Parameter = Parameter(
    name: string,
    location: string,
    required: bool,
    typ: Option<string>,
    description: Option<string>,
    schema: Option<Schema>,
    example: Option<Json>)

  /** A field of a type definition. */
  datatype Property = Property(
    typ: Option<string>,
    format: Option<string>,
    maxLength: Option<nat>,
    ref: Option<string>,
    description: Option<string>)

  datatype Definition = Definition(
    properties: Option<seq<Entry<Property>>>,
    required: Option<seq<string>>,
    example: Option<Json>)

  datatype Response = Response(
    description: Option<string>,
    examples: Option<seq<Entry<Json>>>,
    schema: Option<Schema>)

  datatype Operation = Operation(
    operationId: Option<string>,
    xTitle: Option<string>,
    description: Option<string>,
    summary: Option<string>,
    xPermission: Option<string>,
    tags: Option<seq<string>>,
    parameters: Option<seq<Parameter>>,
    responses: Option<seq<Entry<Response>>>,
    produces: Option<seq<string>>)

  /** A path item: its operations keyed by method, in declaration order. */
  datatype PathItem = PathItem(operations: seq<Entry<Operation>>)

  /** A path item after grouping has attached its URI as `_path`. */
  datatype Annotated = Annotated(path: string, operations: seq<Entry<Operation>>)

  datatype Info = Info(title: Option<string>, version: Option<string>)

  datatype Document = Document(
    swagger: Option<string>,
    info: Option<Info>,
    tags: Option<seq<Tag>>,
    definitions: Option<seq<Entry<Definition>>>,
    paths: Option<seq<Entry<PathItem>>>)

  /** What the renderers read from the generator: `_tags`, `_definitions`
      and `_version`. */
  datatype Context = Context(
    tags: Option<seq<Tag>>,
    definitions: Option<seq<Entry<Definition>>>,
    version: Option<string>)

  /** The methods the page writer visits, in this order. The generator
      takes them from `./httpMethods`, which is not part of this model;
      the list is the one in `index_old.js` and `index.js`. */
  const HttpMethods: seq<string> := ["head", "options", "get", "post", "put", "patch", "delete"]

  /** `_isValid`: a document, with truthy `swagger`, `info` and `paths`. */
  predicate IsValid(doc: Option<Document>)
  {
    !(doc.None? || !Truthy(doc.value.swagger) || doc.value.info.None? || doc.value.paths.None?)
  }

  /** `info.version.replace('v', '').replace('V', '')`. */
  function DocVersion(v: string): (r: string)
    ensures |r| <= |v|
  {
    ReplaceFirst(ReplaceFirst(v, "v", ""), "V", "")
  }

  /** A leading `v` or `V` is dropped from a version that has no other. */
  lemma {:induction false} DocVersionDropsPrefix(t: string)
    requires 'v' !in t && 'V' !in t
    ensures DocVersion("v" + t) == t
    ensures DocVersion("V" + t) == t
    ensures DocVersion(t) == t
  {
    NoOccurrence(t, "v", 'v');
    NoOccurrence(t, "V", 'V');
    assert ("v" + t)[..1] == "v" && ("v" + t)[1..] == t;
    assert IndexOf("v" + t, "v") == Some(0);
    assert ReplaceFirst("v" + t, "v", "") == t;
    assert ("V" + t)[..1] == "V" && ("V" + t)[1..] == t;
    NoOccurrence("V" + t, "v", 'v');
    assert IndexOf("V" + t, "V") == Some(0);
  }

  /** The generator object: the input path and output directory it was
      built with, and what `emit` stores once the document is valid. */
  class MarkdownGenerator {
    var path: string
    var outputDir: string
    var tags: Option<seq<Tag>>
    var definitions: Option<seq<Entry<Definition>>>
    var version: Option<string>

    constructor (path: string, outputDir: string)
      ensures this.path == path && this.outputDir == outputDir
      ensures tags.None? && definitions.None? && version.None?
    {
      this.path := path;
      this.outputDir := outputDir;
      tags := None;
      definitions := None;
      version := None;
    }

    function Ctx(): Context
      reads this
    {
      Context(tags, definitions, version)
    }

    /** The checks and assignments `emit` makes before rendering: an
        invalid document throws and changes nothing; otherwise tags and
        definitions are stored, then the version, which throws when the
        document has no `info.version`. */
    method Configure(doc: Option<Document>) returns (r: Outcome)
      modifies this
      ensures r == Fail(InvalidSwaggerFile) <==> !IsValid(doc)
      ensures !IsValid(doc) ==> unchanged(this)
      ensures IsValid(doc) ==>
        && tags == doc.value.tags && definitions == doc.value.definitions
        && path == old(path) && outputDir == old(outputDir)
        && (doc.value.info.value.version.None? ==> r == Fail(TypeError) && version == old(version))
        && (doc.value.info.value.version.Some? ==>
              r == Pass && version == Some(DocVersion(doc.value.info.value.version.value)))
    {
      if !IsValid(doc) {
        return Fail(InvalidSwaggerFile);
      }
      var d := doc.value;
      tags := d.tags;
      definitions := d.definitions;
      if d.info.value.version.None? {
        return Fail(TypeError);
      }
      version := Some(DocVersion(d.info.value.version.value));
      r := Pass;
    }
  }
}
