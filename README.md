# openapi-doc-generator, modelled in Dafny

This project models the core of `openapi-doc-generator`, a Node.js tool
that turns a Swagger 2.0 document into Markdown pages. It covers three
source files:

- `src/markdownGenerator.js` (the generator):
  - it validates the document;
  - it files the path items under their lower-cased primary tag;
  - it writes one page per group: a title and a description taken from
    the tag list, then for every endpoint its heading, its fenced
    `endpoint` block, one request sample per language, the query and
    body parameter tables and an example response;
  - it collects the models referenced by success responses and writes
    the "Type Definitions" page.
- `src/codeSampleGenerator.js`: the cURL, C# and Java templates. Each
  builds an array of lines or pieces and joins it.
- `src/request.js`: the request value those templates read. It holds
  the upper-cased method and the headers as an insertion-ordered `Map`.

How the model is built:

- A JSON object is a sequence of `Entry(key, value)`, so the
  `Object.keys` order the generator relies on is explicit. A member that
  may be missing is an `Option`.
- A lookup on a missing member that JavaScript would let throw ends the
  operation with `Err(TypeError)`. An invalid document gives
  `Fail(InvalidSwaggerFile)`.
- JavaScript's string coercion of `undefined` is modelled too: `Text`
  prints the word `undefined`.
- `JSON.stringify` is a pair of functions in `Serializers`, a compact one
  and a pretty one. They are passed in, and nothing is assumed about them.
- Code that grows an array or a string in a loop is a `method` with a
  loop. That covers the three templates, `buildMap`, the three table
  builders, the `map`/`groupBy` steps of grouping, and the nested
  `forEach` callbacks of `_writeFile`. Each method is proved equal to a
  specification function, and the properties are proved about those
  functions.
- `emit` assigns the generator's `_tags`, `_definitions` and `_version`.
  Those assignments are the `MarkdownGenerator` class and its
  `Configure` method.

Modules:

| module | file | what it holds |
|---|---|---|
| `Js` | js.dfy | `Option`, `Result`, `Fault`, objects as entry lists, truthiness, `\|\|`, string coercion |
| `Strings` | strings.dfy | case mapping, `trim`, first-occurrence `replace`, `split`/`join`, `Number` on digit strings, the `\n`-escape stripping of the templates |
| `Collections` | collections.dfy | the lodash operations used: `filter`, `map`, stable `sortBy`, `sort`, `uniq`, `groupBy`, `flatten`, and a map that stops at the first throw |
| `Swagger` | swagger.dfy | the document's datatypes, `_isValid`, the version clean-up, the generator object |
| `Requests` | request.dfy | `Request`, `buildMap`, `getPart` |
| `CodeSamples` | code_samples.dfy | the three templates and `renderRequest` |
| `Grouping` | grouping.dfy | `_groupPathsByResource`, `_getResourceNameFromPath` |
| `Endpoint` | endpoint.dfy | operation description, scopes, query and body parameters, endpoint block, `_buildRequest`, positive response, example, content type |
| `Tables` | tables.dfy | the query and body parameter tables |
| `TypeDefs` | typedefs.dfy | return models and the type definitions page |
| `Page` | page.dfy | page title and description, sample blocks, the example response, and `_writeFile`'s text |

The model keeps several quirks of the source as they are:

- The grouping callback's fallback for an operation whose first tag is
  empty calls `this._getResourceNameFromPath(paths._path)`. Inside the
  lodash callback `this` is not the generator, so the call throws.
  `GroupKey` gives `Err` there, and `ResourceNameFromPath` is modelled on
  its own.
- `responseContentType && …` writes the word `undefined` when the
  operation lists an empty `produces` (`ContentTypeLine`).
- A body table that bails out returns `undefined`, and the page writes
  that word (`BodyTable` returns `Ok(None)`, and `EndpointSection` prints
  it through `Text`).
- The Java body lines are fixed template text; the example is never
  rendered (`JavaBodyLinesFixed`).
- The Java template declares the connection as `con`, but the body lines
  and the final `getResponseCode` line use `conn`. The model writes the text
  exactly as the template does.
- The C# template capitalises the first character of a method that
  `Request` has already upper-cased (`CSharpMethodToken`).
- `String.prototype.replace` with a string pattern replaces only the first
  occurrence (`ReplaceFirst`, `DocVersion`, `FormattedUrl`, `QueryPair`).
- Removing the `\n` escape sequences from the stringified example can
  create a new one. For example, an escaped backslash followed by `nn`
  becomes `\n` (`StripCanCreateEscape`).

## Model

| member | source | states |
|---|---|---|
| Swagger.MarkdownGenerator.constructor | src/markdownGenerator.js:10-16 | a new generator keeps its input path and output directory and has no tags, definitions or version |
| Swagger.MarkdownGenerator.Configure | src/markdownGenerator.js:23-28 | throws "Invalid swagger file." exactly when `_isValid` is false, and then changes nothing; otherwise stores the tags and definitions, and then the cleaned version, or throws when `info.version` is missing |
| Swagger.DocVersion | src/markdownGenerator.js:28 | the cleaned version is never longer than the original |
| Swagger.DocVersionDropsPrefix | src/markdownGenerator.js:28 | a leading `v` or `V` is removed from a version with no other `v`/`V`, and such a version is kept as is |
| Grouping.Annotate | src/markdownGenerator.js:51-54 | one item per path, in order, each carrying its URI as `_path` and its operations |
| Grouping.AnnotatePaths | src/markdownGenerator.js:51-54 | the `.map` step's loop yields exactly `Annotate(paths)` |
| Grouping.FirstOperation | src/markdownGenerator.js:56-63 | there is an operation exactly when the first non-`_path` key exists and is non-empty, and it is the entry under that key |
| Grouping.GroupKey | src/markdownGenerator.js:55-71 | `''` exactly when there is no first operation; otherwise the lower-cased first tag; throws exactly when the operation has no `tags` or an empty first tag |
| Grouping.ResourceNameFromPath | src/markdownGenerator.js:74-77 | the resource name, when there is one, contains no `/` |
| Grouping.ResourceNameOfPath | src/markdownGenerator.js:74-77 | on `/a/b` without braces the resource name is `b` |
| Grouping.GroupsPartitionPaths | src/markdownGenerator.js:49-72 | grouping fails exactly when some item's key throws; otherwise the group keys are distinct and in order of first appearance, every item's key is a group key, and each group is exactly the items with that key, in input order, and is non-empty |
| Grouping.GroupItems | src/markdownGenerator.js:55-71 | the `.groupBy` loop yields exactly the specified grouping, including its failure |
| Grouping.GroupPathsByResource | src/markdownGenerator.js:49-72 | `_groupPathsByResource` equals grouping of the annotated items |
| Collections.GroupByPartition | src/markdownGenerator.js:55-71 | lodash `groupBy`: distinct keys, each group equals the filter of the items by its key, non-empty |
| Collections.GroupByOrder | src/markdownGenerator.js:55-71 | the group keys are the distinct item keys in order of first appearance |
| Collections.SortBy | src/markdownGenerator.js:364-373 | lodash `orderBy` on the field name: the result is sorted by the key and is a permutation of the input |
| Collections.Sort | src/markdownGenerator.js:454 | `Array.prototype.sort`: the result is sorted and is a permutation of the input |
| Collections.Uniq | src/markdownGenerator.js:454 | lodash `uniq`: no duplicates, and exactly the members of the input |
| Collections.TryMapFirstFailure | src/markdownGenerator.js:512-521 | a loop whose callback throws fails with the first element that throws |
| Endpoint.OperationDescription | src/markdownGenerator.js:200-203 | `description`, else `summary`, else empty |
| Endpoint.Scopes | src/markdownGenerator.js:224-226 | `x-permission` or empty |
| Endpoint.QueryParameters | src/markdownGenerator.js:228-232 | exactly the parameters located in the query, in order |
| Endpoint.FormattedUrlSubstitutes | src/markdownGenerator.js:263-267 | in any path, the first `{version}` is replaced by the version and everything before and after it, other placeholders and later `{version}`s included, is kept |
| Endpoint.FormattedUrlUnmarked | src/markdownGenerator.js:263-267 | any path in which `{version}` does not occur is unchanged |
| Endpoint.QueryPairDropsFirstDot | src/markdownGenerator.js:207 | `name={name}` with only the first `.` of the placeholder removed |
| Endpoint.QueryPairs | src/markdownGenerator.js:206-208 | one pair per query parameter, in order |
| Endpoint.QueryString | src/markdownGenerator.js:212-214 | empty without query parameters, otherwise starts with `?` and a newline |
| Endpoint.EndpointUri | src/markdownGenerator.js:205-222 | the block opens with the endpoint fence and the upper-cased method and closes with the fence and a blank line |
| Endpoint.EndpointUriScope | src/markdownGenerator.js:218 | the scope follows a space only when `x-permission` is set |
| Endpoint.ResolveBody | src/markdownGenerator.js:241-259 | a copy of the parameter in which only `example` may differ; it throws exactly when the schema's truthy `$ref` names a type and the definition list or that definition is missing; without a schema, a truthy `$ref` or a type name the parameter comes back unchanged |
| Endpoint.ResolveBodyTakesExample | src/markdownGenerator.js:247-256 | with a `$ref` to an existing definition the copy carries that definition's example |
| Endpoint.ResolveAll | src/markdownGenerator.js:237-259 | the copies in order, or the first failure |
| Endpoint.BodyParameter | src/markdownGenerator.js:234-261 | throws exactly when resolving some body parameter throws, all being resolved before the first is taken; otherwise none exactly when no parameter is in the body, else the resolved copy of the first one |
| Endpoint.BodyParameterIsFirst | src/markdownGenerator.js:237-260 | the body parameter is the first parameter located in the body, and the source parameter is not changed |
| Endpoint.RequestFor | src/markdownGenerator.js:281-298 | the request has the formatted URI, the upper-cased method, the three default headers, the query parameters and the body parameter; fails exactly when resolving the body fails |
| Endpoint.BuildRequest | src/markdownGenerator.js:281-298 | `_buildRequest` yields exactly `RequestFor` |
| Endpoint.PositiveResponseOf | src/markdownGenerator.js:395-402 | throws exactly without `responses`; the status is absent exactly when no key starts with `2`, and otherwise starts with `2` |
| Endpoint.PositiveResponseIsFirst | src/markdownGenerator.js:397-401 | the status is the first response key starting with `2`, and the description is that response's |
| Endpoint.PositiveResponseExample | src/markdownGenerator.js:404-414 | the value under the first key of that response's `examples`; `undefined` exactly when the response is missing or its `examples` is missing or empty |
| Endpoint.FirstResponseContentType | src/markdownGenerator.js:416-419 | `produces[0]`; throws without `produces` |
| Tables.QueryOrderSorts | src/markdownGenerator.js:311-313 | the stable `sortBy` on `!required` (the required parameters, then the optional ones, each in declaration order) is a permutation with every required parameter ahead of every optional one |
| Tables.QueryTable | src/markdownGenerator.js:305-329 | empty exactly when the operation has no query parameters |
| Tables.QueryLinesShape | src/markdownGenerator.js:315-326 | the table has the two header rows, one row per parameter and the pagination row last |
| Tables.QueryLinesRows | src/markdownGenerator.js:317-325 | row `i + 2` renders the `i`-th parameter in table order |
| Tables.BuildQueryRow | src/markdownGenerator.js:318-323 | the row built is the specified row: `(optional)` exactly for optional parameters |
| Tables.PushQueryRows | src/markdownGenerator.js:317-325 | the loop appends exactly one row per parameter, in order |
| Tables.QueryParametersAsTable | src/markdownGenerator.js:305-329 | `_getQueryParametersAsTable` yields exactly `QueryTable` |
| Tables.ParameterType | src/markdownGenerator.js:332-339 | the direct type if set, else the last segment of the `$ref`, else undefined |
| Tables.FieldOf | src/markdownGenerator.js:365-371 | a field carries its property name, its data and its name when listed in `required` |
| Tables.BodyOrderSorts | src/markdownGenerator.js:364-374 | a permutation with required fields first, each part ordered by name |
| Tables.BodyTable | src/markdownGenerator.js:331-393 | throws when the body parameter does; `''` without a body parameter; `undefined` when the body parameter has no schema, no type name, no definition or no properties; throws when the document has no `definitions`; otherwise the two header rows, then one `BodyRow` per field in `BodyOrder` (see `BodyOrderSorts`), then a blank line |
| Tables.BuildBodyRow | src/markdownGenerator.js:377-389 | the row built is the specified row |
| Tables.PushBodyRows | src/markdownGenerator.js:376-390 | the loop appends exactly one row per field, in order |
| Tables.BodyParametersAsTable | src/markdownGenerator.js:331-393 | `_getBodyParametersAsTable` yields exactly `BodyTable` |
| TypeDefs.ModelName | src/markdownGenerator.js:482-485 | the last `/`-segment: contains no `/` and is a suffix of the reference |
| TypeDefs.ModelLinkAnchor | src/markdownGenerator.js:517 | the link anchor is the lower-cased model name followed by `-model` |
| TypeDefs.ModelTypeColumn | src/markdownGenerator.js:515-517 | the typed column when `type` is set; otherwise a link that throws without `$ref` |
| TypeDefs.ModelRow | src/markdownGenerator.js:513-519 | throws exactly when the type column throws; otherwise starts with the property name in backticks and the column bar |
| TypeDefs.BuildModelRow | src/markdownGenerator.js:512-520 | the row built is the specified row |
| TypeDefs.ModelRowsInOrder | src/markdownGenerator.js:503-521 | one row per property, in `Object.keys` order, each led by its property name; the first property whose row throws makes the table throw |
| TypeDefs.PushModelRows | src/markdownGenerator.js:512-521 | the loop appends the rows in order, or fails with the first failing row |
| TypeDefs.ModelTable | src/markdownGenerator.js:487-524 | `undefined` without a model name, without that definition or without its properties; throws without `definitions` and with the first row that throws; otherwise the two header rows, then one `ModelRow` per property in declaration order (see `ModelRowsInOrder`), then a blank line |
| TypeDefs.ModelDefinitionTable | src/markdownGenerator.js:487-524 | `_getModelDefinitionTable` yields exactly `ModelTable` |
| TypeDefs.ModelSection | src/markdownGenerator.js:471-475 | the `### <name> Model` heading, then the table; an undefined table leaves only the heading and separator |
| TypeDefs.ModelDefinitions | src/markdownGenerator.js:467-480 | the page starts with `## Type Definitions`, which is all of it without references |
| TypeDefs.ModelDefinitionsLayout | src/markdownGenerator.js:467-480 | the references are sorted (a sorted permutation); a rendered page is the heading followed by exactly one section per reference in that order, each starting with `### <name> Model` |
| TypeDefs.ModelDefinitionsSucceed | src/markdownGenerator.js:467-480 | the page renders exactly when every section does |
| TypeDefs.SuccessRefsMember | src/markdownGenerator.js:425-448 | a reference is collected exactly when a response with status below 300 has it, directly or through `items` |
| TypeDefs.ReturnModelsAscending | src/markdownGenerator.js:421-457 | the return models are strictly ascending, so sorted and duplicate-free |
| TypeDefs.ReturnModelsMember | src/markdownGenerator.js:421-457 | a reference is a return model exactly when some operation collects it |
| TypeDefs.ReturnModelsCover | src/markdownGenerator.js:421-457 | every success response reference of every operation of every group is a return model |
| Page.DetailTag | src/markdownGenerator.js:161-163 | absent exactly when no tag entry has that name; otherwise the first entry that has it |
| Page.DetailTagIsFirst | src/markdownGenerator.js:161-163 | the first entry carrying the name is the one picked |
| Page.LeadKey | src/markdownGenerator.js:139-141 | the first key other than `_path`, absent exactly when there is none |
| Page.LeadTag | src/markdownGenerator.js:149-165 | throws exactly when the lead operation exists under a non-empty key and has no `tags`; a tag entry is used only for a non-empty first tag |
| Page.FallbackTitle | src/markdownGenerator.js:143 | the text of the lead operation's `operationId` before its first `_`; throws without an operation or `operationId` |
| Page.PathItemsTitle | src/markdownGenerator.js:137-168 | throws for an empty group, a missing `operationId` or missing `tags`; otherwise the fallback, or the tag entry's trimmed non-empty `x-title` |
| Page.PathItemsDescription | src/markdownGenerator.js:170-198 | empty for an empty group; otherwise the trimmed description of the same tag entry, or empty; never starts or ends with white space |
| Page.TitleFromTag | src/markdownGenerator.js:157-167 | with a tag entry named after the first tag and a non-blank `x-title`, the title is that trimmed `x-title` and the description is that entry's trimmed description |
| Page.TitleFallsBack | src/markdownGenerator.js:164-165 | without such an entry the title is the fallback and the description is empty |
| Page.DescriptionFailsOnlyWithTitle | src/markdownGenerator.js:82-84 | the description can only throw where the title, read first, throws |
| Page.SampleApiCode | src/markdownGenerator.js:269-279 | throws exactly when building the request does; otherwise a block fenced with the language code |
| Page.Samples | src/markdownGenerator.js:98-100 | the samples of all languages fail together, exactly when the request cannot be built |
| Page.SupportedSample | src/markdownGenerator.js:269-279 | a supported language always renders, so its block holds the sample text |
| Page.WriteSampleApiCode | src/markdownGenerator.js:269-279 | `_getSampleApiCode` yields exactly `SampleApiCode` |
| Page.ContentTypeLine | src/markdownGenerator.js:114 | `undefined` when there is no first content type, empty for an empty one, otherwise a `Content-Type:` line |
| Page.ResponseBlock | src/markdownGenerator.js:109-128 | throws exactly without `responses` or `produces` |
| Page.NoContentShowsNoExample | src/markdownGenerator.js:117-128 | a `204` block does not depend on the serializer, so no example is printed |
| Page.NoContentEndsBlank | src/markdownGenerator.js:126-128 | a `204` block ends with the closing fence and a blank line |
| Page.ExampleShown | src/markdownGenerator.js:117-124 | any other status with an example ends with that example pretty-printed in a JSON block |
| Page.DocumentExampleShown | src/markdownGenerator.js:117-124 | when the success response has a non-empty `examples`, its first example is printed after the head |
| Page.MissingExampleShowsHead | src/markdownGenerator.js:109-124 | when that response or its `examples` is missing or empty, only the head is printed |
| Page.EndpointSection | src/markdownGenerator.js:93-128 | an endpoint renders exactly when its request, its body table, its responses and its `produces` do |
| Page.ItemSections | src/markdownGenerator.js:87-129 | an item renders exactly when each method of `httpMethods` does |
| Page.ItemSucceeds | src/markdownGenerator.js:87-129 | an item renders exactly when every endpoint it defines renders; undefined methods are skipped |
| Page.PageContent | src/markdownGenerator.js:79-130 | an empty group cannot be written |
| Page.PageSucceeds | src/markdownGenerator.js:79-130 | a page is written exactly when its title can be read and every item renders |
| Page.PushSamples | src/markdownGenerator.js:98-100 | the language loop appends the samples, or stops at the first throw |
| Page.PushResponse | src/markdownGenerator.js:109-128 | appends exactly the response block |
| Page.PushEndpoint | src/markdownGenerator.js:87-91 | appends nothing for a method the item does not define, else the endpoint section |
| Page.PushEndpointSection | src/markdownGenerator.js:93-128 | appends exactly the endpoint section, or fails with it |
| Page.PushItem | src/markdownGenerator.js:87-129 | the method loop appends the item's sections, or stops at the first throw |
| Page.WriteFileContent | src/markdownGenerator.js:79-130 | `_writeFile` produces exactly `PageContent` |
| Requests.MapSet | src/request.js:16 | a new key goes last, an existing key keeps its place, the key then maps to the value, and every other key keeps its value |
| Requests.BuildMap | src/request.js:13-19 | the map holds exactly the object's entries, in key order |
| Requests.NewRequest | src/request.js:1-7 | the method is upper-cased; URI, query, body and headers are kept |
| Requests.GetPart | src/request.js:9-11 | each key reads the stored field of that name |
| Strings.CapitalizeFirst | src/codeSampleGenerator.js:31 | only the first character changes, to upper case |
| Strings.StripRemovesEscapes | src/codeSampleGenerator.js:19 | for an input without an escaped backslash, the result has no `\n` escape (`StripCanCreateEscape` shows the condition is needed) |
| Strings.StripCanCreateEscape | src/codeSampleGenerator.js:19 | removing one escape can create another |
| CodeSamples.CurlSampleShape | src/codeSampleGenerator.js:6-22 | the sample starts with `curl -X <method> <uri>` and a line continuation, and ends with one |
| CodeSamples.CurlAddHeader | src/codeSampleGenerator.js:10-16 | each header adds exactly one `-H "h: v"` piece, in map order |
| CodeSamples.CurlBodyLast | src/codeSampleGenerator.js:18-20 | with a truthy body example the sample is the one without a body plus a last `-d` piece; without one the body changes nothing |
| CodeSamples.CurlRequest | src/codeSampleGenerator.js:1-23 | `getCURLRequest` yields exactly `CurlSample` |
| CodeSamples.CSharpShape | src/codeSampleGenerator.js:36-59 | the `using` line and `{` first, `}` last, one line per header, and every line between indented by exactly four spaces |
| CodeSamples.CSharpMethodToken | src/codeSampleGenerator.js:31 | on an upper-cased method, capitalising the first character changes nothing |
| CodeSamples.CSharpRequest | src/codeSampleGenerator.js:25-60 | `getCSharpRequest` yields exactly `CSharpSample` |
| CodeSamples.JavaBodyLinesFixed | src/codeSampleGenerator.js:81-87 | the body adds the same five lines before the last whatever the example |
| CodeSamples.JavaRequest | src/codeSampleGenerator.js:62-92 | `getJavaRequest` yields exactly `JavaSample`, which ends with the response-code line |
| CodeSamples.RenderedSample | src/codeSampleGenerator.js:94-111 | a sample exactly for `curl`, `cs` and `java` |
| CodeSamples.RenderRequest | src/codeSampleGenerator.js:94-111 | `renderRequest` yields exactly `RenderedSample` |

## Left out

- Reading and parsing the Swagger file (`src/swaggerReader.js`) is not
  part of this model. A parsed document is the input.
- `emit` only orchestrates. Its loop over the groups, the file names, the
  `path` and `fs` calls and the `debugger` statement are not modelled.
  `Configure` models its checks and assignments. `WriteFileContent` and
  `ModelDefinitions` return the text that would be written.
- `./httpMethods` and `./supportedLanguages`, which
  `src/markdownGenerator.js:6-7` requires, are not part of this model.
  The values of `HttpMethods` and `SupportedLanguages` are the lists in
  `index_old.js:6-7`. `index.js:6` lists only `curl`.
- Swagger.Parameter.name: a plain string, because Swagger 2.0 requires
  `name` on every parameter. A query parameter without one would make
  `p['name'].replace` throw (`src/markdownGenerator.js:207`) and the
  query table print `undefined` (line 318). Neither is modelled.
- Endpoint.FormattedUrl: the version is inserted literally.
  `String.prototype.replace` would read `$$`, `$&`, `` $` `` and `$'` in
  it as replacement patterns. The other `replace` calls insert `""` and
  are unaffected.
- Strings.StripRemovesEscapes: holds only for input without an escaped
  backslash; `StripCanCreateEscape` gives an input where it fails.
- `index.js` and `index_old.js` are not part of this model. They are
  earlier scripts that read and write files at load time.
- `JSON.stringify` is not implemented. It is a parameter
  (`Serializers`), so no contract depends on what it prints.
- `Object.keys` moves integer-like keys to the front. Key order here is
  the order of the entries as given.
- Upper- and lower-casing map ASCII letters only.
- `Number(statusCode)` is modelled for digit strings and the empty string
  only. Other numeric spellings, such as `" 200 "` or `"0x12"`, count as
  not numeric.
- Sorting compares characters as code points, not UTF-16 code units.
- Setting `_path` on the document's path items in place is modelled as
  building annotated copies. The aliasing is not captured. That covers
  both the mutation being visible through `paths` and a key literally
  named `undefined`, which the lookups on `action[undefined]` would find.
- `_.filter(this._tags, …)` on a `tags` value that is not an array is not
  modelled.
- The nested `forEach` callbacks of `_writeFile` are methods of their own
  (`PushItem`, `PushEndpoint`, `PushEndpointSection`, `PushSamples`,
  `PushResponse`). They pass the shared `fileContent` in and out instead
  of capturing it.
- Requests.GetPart: a key naming an inherited property, such as `getPart`
  itself, reads that property in JavaScript. The model treats it as
  `undefined`, like any other key that is not one of the five fields.
