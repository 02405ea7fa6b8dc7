/**
 * The type-definitions page: the `$ref`s that the success responses of
 * all grouped operations return, and a section per referenced model with
 * a table of its properties.
 */
module TypeDefs {

  import opened Js
  import opened Strings
  import opened Collections
  import opened Swagger
  import opened Tables

  // ---------------------------------------------------------------------
  // Model names and links

  /** `_getModelNameFromDefinitionRef(ref)`: the last `/`-separated
      segment, a suffix of the reference without any `/`. */
  function ModelName(ref: string): (r: string)
    ensures '/' !in r
    ensures exists k :: 0 <= k <= |ref| && ref[k..] == r
  {
    LastSegmentIsSuffix(ref, '/');
    LastSegment(ref, '/')
  }

  /** The link an untyped property shows: the model name, pointing at the
      anchor made from the lower-cased reference. */
  function ModelLink(ref: string): string
  {
    "[`" + ModelName(ref) + "`](#" + ModelName(Lower(ref) + "-model)")
  }

  /** The anchor is the lower-cased model name followed by `-model`, the
      anchor Markdown gives the heading `### <name> Model`. */
  lemma ModelLinkAnchor(ref: string)
    ensures ModelName(Lower(ref) + "-model)") == Lower(ModelName(ref)) + "-model)"
  {
    LastSegmentAppend(Lower(ref), "-model)", '/');
    LastSegmentLower(ref, '/');
  }

  /** The `type` column of a model table: the typed column when the
      property has a `type`, otherwise a link to the model its `$ref`
      names; reading `$ref` of a property without one throws. */
  function ModelTypeColumn(p: Property): (r: Result<string>)
    ensures Truthy(p.typ) ==> r == Ok(TypedColumn(p))
    ensures !Truthy(p.typ) ==> (r.Err? <==> p.ref.None?)
    ensures !Truthy(p.typ) && p.ref.Some? ==> r == Ok(ModelLink(p.ref.value))
  {
    if Truthy(p.typ) then Ok(TypedColumn(p))
    else if p.ref.None? then Err(TypeError)
    else Ok(ModelLink(p.ref.value))
  }

  /** One row of a model table: name, type column, description. */
  function ModelRow(e: Entry<Property>): (r: Result<string>)
    ensures r.Err? <==> ModelTypeColumn(e.value).Err?
    ensures r.Ok? ==> StartsWith(r.value, "`" + e.key + "`|")
  {
    match ModelTypeColumn(e.value)
    case Err(f) => Err(f)
    case Ok(col) =>
      var head := "`" + e.key + "`|";
      var row := head + col + "|" + OrEmpty(e.value.description);
      assert row[..|head|] == head;
      Ok(row)
  }

  /** One row of the model table, built the way the loop body builds it. */
  method BuildModelRow(field: Entry<Property>) returns (r: Result<string>)
    ensures r == ModelRow(field)
  {
    var row := "`" + field.key;
    var typeColumnValue: string;
    if Truthy(field.value.typ) {
      typeColumnValue := TypedColumn(field.value);
    } else {
      if field.value.ref.None? {
        return Err(TypeError);
      }
      var ref := field.value.ref.value;
      typeColumnValue := "[`" + ModelName(ref) + "`](#" + ModelName(Lower(ref) + "-model)");
    }
    row := row + "`|" + typeColumnValue + "|" + OrEmpty(field.value.description);
    assert row == "`" + field.key + "`|" + typeColumnValue + "|" + OrEmpty(field.value.description);
    r := Ok(row);
  }

  // ---------------------------------------------------------------------
  // Model tables

  /** `_getModelDefinitionTable(definitionPath)`: `undefined` (`None`) when
      the name is empty or the definition or its properties are missing, a
      throw when the document has no definitions or a property has neither
      `type` nor `$ref`, and otherwise a row per property, in declaration
      order. */
  function ModelTable(ctx: Context, definitionPath: string): (r: Result<Option<string>>)
    ensures ModelName(definitionPath) == "" ==> r == Ok(None)
    ensures ModelName(definitionPath) != "" && ctx.definitions.None? ==> r == Err(TypeError)
    ensures ModelName(definitionPath) != "" && ctx.definitions.Some? ==>
      var d := Get(ctx.definitions.value, ModelName(definitionPath));
      && (d.None? ==> r == Ok(None))
      && (d.Some? && d.value.properties.None? ==> r == Ok(None))
      && (d.Some? && d.value.properties.Some? ==>
            var rows := TryMap(d.value.properties.value, ModelRow);
            && (rows.Err? ==> r == Err(rows.fault))
            && (rows.Ok? ==> r == Ok(Some(Join(TableHead + rows.value, "\n") + "\n\n"))))
  {
    var typeName := ModelName(definitionPath);
    if typeName == "" then Ok(None)
    else if ctx.definitions.None? then Err(TypeError)
    else match Get(ctx.definitions.value, typeName)
      case None => Ok(None)
      case Some(d) =>
        if d.properties.None? then Ok(None)
        else match TryMap(d.properties.value, ModelRow)
          case Err(f) => Err(f)
          case Ok(rows) => Ok(Some(Join(TableHead + rows, "\n") + "\n\n"))
  }

  /** A model table lists the properties in declaration order, one row
      each, after the header rows; the first property that cannot be
      rendered is the one whose failure is reported. */
  lemma ModelRowsInOrder(props: seq<Entry<Property>>)
    ensures TryMap(props, ModelRow).Ok? ==>
      && |TryMap(props, ModelRow).value| == |props|
      && forall i :: 0 <= i < |props| ==>
           StartsWith(TryMap(props, ModelRow).value[i], "`" + props[i].key + "`|")
    ensures forall i ::
      0 <= i < |props| && ModelRow(props[i]).Err? && (forall j :: 0 <= j < i ==> ModelRow(props[j]).Ok?) ==>
      TryMap(props, ModelRow) == Err(TypeError)
  {
    forall i | 0 <= i < |props| && ModelRow(props[i]).Err? && (forall j :: 0 <= j < i ==> ModelRow(props[j]).Ok?)
      ensures TryMap(props, ModelRow) == Err(TypeError)
    {
      TryMapFirstFailure(props, ModelRow, i);
    }
  }

  /** The `forEach` over the properties: one row pushed per property, or
      the throw of the first that cannot be rendered. */
  method PushModelRows(tableData0: seq<string>, fields: seq<Entry<Property>>) returns (r: Result<seq<string>>)
    ensures TryMap(fields, ModelRow).Err? ==> r == Err(TryMap(fields, ModelRow).fault)
    ensures TryMap(fields, ModelRow).Ok? ==> r == Ok(tableData0 + TryMap(fields, ModelRow).value)
  {
    var tableData := tableData0;
    for i := 0 to |fields|
      invariant TryMap(fields[..i], ModelRow).Ok?
      invariant tableData == tableData0 + TryMap(fields[..i], ModelRow).value
    {
      TryMapStep(fields, ModelRow, i);
      var row := BuildModelRow(fields[i]);
      if row.Err? {
        forall j | 0 <= j < i ensures ModelRow(fields[j]).Ok? {
          assert fields[..i][j] == fields[j];
        }
        TryMapFirstFailure(fields, ModelRow, i);
        return Err(row.fault);
      }
      AppendAssoc(tableData0, TryMap(fields[..i], ModelRow).value, row.value);
      tableData := tableData + [row.value];
    }
    assert fields[..|fields|] == fields;
    r := Ok(tableData);
  }

  /** `_getModelDefinitionTable(definitionPath)`. */
  method ModelDefinitionTable(ctx: Context, definitionPath: string) returns (r: Result<Option<string>>)
    ensures r == ModelTable(ctx, definitionPath)
  {
    var tableData := TableHead;
    var typeName := ModelName(definitionPath);
    if typeName == "" {
      return Ok(None);
    }
    if ctx.definitions.None? {
      return Err(TypeError);
    }
    var definition := Get(ctx.definitions.value, typeName);
    if definition.None? {
      return Ok(None);
    }
    var properties := definition.value.properties;
    if properties.None? {
      return Ok(None);
    }
    var pushed := PushModelRows(tableData, properties.value);
    if pushed.Err? {
      return Err(pushed.fault);
    }
    tableData := pushed.value;
    r := Ok(Some(Join(tableData, "\n") + "\n\n"));
  }

  // ---------------------------------------------------------------------
  // The page

  /** One model's section: its heading, then its table; a missing table
      joins as the empty text, leaving the heading and a blank line. */
  function ModelSection(ctx: Context, definitionPath: string): (r: Result<string>)
    ensures r.Err? <==> ModelTable(ctx, definitionPath).Err?
    ensures ModelTable(ctx, definitionPath) == Ok(None) ==>
      r == Ok("### " + ModelName(definitionPath) + " Model" + "\n\n")
    ensures r.Ok? ==> StartsWith(r.value, "### " + ModelName(definitionPath) + " Model")
  {
    var heading := "### " + ModelName(definitionPath) + " Model";
    match ModelTable(ctx, definitionPath)
    case Err(f) => Err(f)
    case Ok(table) =>
      var s := heading + "\n\n" + (if table.Some? then table.value else "");
      assert s[..|heading|] == heading;
      assert table.None? ==> s == heading + "\n\n";
      Ok(s)
  }

  function SectionOf(ctx: Context): string -> Result<string>
  {
    p => ModelSection(ctx, p)
  }

  /** `_getModelDefinitions(definitionPaths)`: the page heading, then the
      sections of the sorted references, separated by blank lines. */
  function ModelDefinitions(ctx: Context, definitionPaths: seq<string>): (r: Result<string>)
    ensures definitionPaths == [] ==> r == Ok("## Type Definitions")
    ensures r.Ok? ==> StartsWith(r.value, "## Type Definitions")
  {
    match TryMap(Sort(definitionPaths), SectionOf(ctx))
    case Err(f) => Err(f)
    case Ok(sections) =>
      var parts := ["## Type Definitions"] + sections;
      if sections == [] then
        assert parts == ["## Type Definitions"];
        Ok(Join(parts, "\n\n"))
      else
        assert parts[1..] == sections;
        var s := Join(parts, "\n\n");
        assert s == "## Type Definitions" + "\n\n" + Join(sections, "\n\n");
        assert s[..|"## Type Definitions"|] == "## Type Definitions";
        Ok(s)
  }

  /** The page is written exactly when every referenced model's section
      can be; which references these are does not depend on their order. */
  lemma ModelDefinitionsSucceed(ctx: Context, definitionPaths: seq<string>)
    ensures ModelDefinitions(ctx, definitionPaths).Ok? <==>
      forall i :: 0 <= i < |definitionPaths| ==> ModelSection(ctx, definitionPaths[i]).Ok?
  {
    var sorted := Sort(definitionPaths);
    if forall i :: 0 <= i < |definitionPaths| ==> ModelSection(ctx, definitionPaths[i]).Ok? {
      forall j | 0 <= j < |sorted| ensures SectionOf(ctx)(sorted[j]).Ok? {
        assert sorted[j] in multiset(definitionPaths);
      }
    } else {
      var i :| 0 <= i < |definitionPaths| && ModelSection(ctx, definitionPaths[i]).Err?;
      assert definitionPaths[i] in multiset(sorted);
      var j :| 0 <= j < |sorted| && sorted[j] == definitionPaths[i];
      assert SectionOf(ctx)(sorted[j]).Err?;
    }
  }

  /** The page is the heading followed by one section per reference, in
      ascending order, each section led by `### <model name> Model` and
      separated from the next by a blank line. */
  lemma ModelDefinitionsLayout(ctx: Context, definitionPaths: seq<string>)
    ensures var sorted := Sort(definitionPaths);
      && |sorted| == |definitionPaths|
      && multiset(sorted) == multiset(definitionPaths)
      && (forall i, j :: 0 <= i < j < |sorted| ==> Below(sorted[i], sorted[j]))
      && (ModelDefinitions(ctx, definitionPaths).Ok? ==>
            var sections := TryMap(sorted, SectionOf(ctx)).value;
            && |sections| == |definitionPaths|
            && ModelDefinitions(ctx, definitionPaths).value == Join(["## Type Definitions"] + sections, "\n\n")
            && forall i :: 0 <= i < |sections| ==>
                 && ModelSection(ctx, sorted[i]) == Ok(sections[i])
                 && StartsWith(sections[i], "### " + ModelName(sorted[i]) + " Model"))
  {
    var sorted := Sort(definitionPaths);
    assert |multiset(sorted)| == |multiset(definitionPaths)|;
    if ModelDefinitions(ctx, definitionPaths).Ok? {
      var sections := TryMap(sorted, SectionOf(ctx)).value;
      forall i | 0 <= i < |sections|
        ensures ModelSection(ctx, sorted[i]) == Ok(sections[i])
        ensures StartsWith(sections[i], "### " + ModelName(sorted[i]) + " Model")
      {
        assert SectionOf(ctx)(sorted[i]) == ModelSection(ctx, sorted[i]);
      }
    }
  }

  // ---------------------------------------------------------------------
  // The referenced models

  /** `statusCode < 300`: the key read as a number is below 300
      (`Number('')` is 0; a key that is not a number compares false). */
  predicate IsSuccessStatus(code: string)
  {
    DecimalValue(code).Some? && DecimalValue(code).value < 300
  }

  /** The `$ref` a response's schema names, directly or through its
      `items`; `undefined` without either. */
  function ResponseRef(resp: Response): (r: Option<string>)
    ensures resp.schema.None? ==> r.None?
    ensures resp.schema.Some? && Truthy(resp.schema.value.ref) ==> r == resp.schema.value.ref
  {
    match resp.schema
    case None => None
    case Some(schema) =>
      if Truthy(schema.ref) then schema.ref
      else if schema.items.None? then None
      else schema.items.value.ref
  }

  /** The truthy references of the responses under a success status, in
      order. */
  function SuccessRefs(responses: seq<Entry<Response>>): (r: seq<string>)
    ensures forall i :: 0 <= i < |r| ==> r[i] != ""
  {
    if responses == [] then []
    else
      var e := responses[0];
      var ref := ResponseRef(e.value);
      (if IsSuccessStatus(e.key) && Truthy(ref) then [ref.value] else []) + SuccessRefs(responses[1..])
  }

  /** A reference is collected from a list of responses exactly when one
      of them has a success status and names it. */
  lemma {:induction false} SuccessRefsMember(responses: seq<Entry<Response>>, x: string)
    ensures x in SuccessRefs(responses) <==>
      x != "" && exists i :: 0 <= i < |responses| && IsSuccessStatus(responses[i].key) && ResponseRef(responses[i].value) == Some(x)
  {
    if responses != [] {
      var rest := responses[1..];
      SuccessRefsMember(rest, x);
      if x in SuccessRefs(rest) {
        var i :| 0 <= i < |rest| && IsSuccessStatus(rest[i].key) && ResponseRef(rest[i].value) == Some(x);
        assert responses[i + 1] == rest[i];
      }
      if x != "" && exists i :: 0 <= i < |responses| && IsSuccessStatus(responses[i].key) && ResponseRef(responses[i].value) == Some(x) {
        var i :| 0 <= i < |responses| && IsSuccessStatus(responses[i].key) && ResponseRef(responses[i].value) == Some(x);
        if i > 0 {
          assert rest[i - 1] == responses[i];
        }
      }
    }
  }

  /** What one member of an annotated path item contributes: nothing for
      `_path` or an operation without `responses`. */
  function MemberRefs(e: Entry<Operation>): seq<string>
  {
    if e.key == "_path" || e.value.responses.None? then [] else SuccessRefs(e.value.responses.value)
  }

  function ItemRefs(item: Annotated): seq<string>
  {
    Flatten(Map(item.operations, MemberRefs))
  }

  function GroupRefs(group: Entry<seq<Annotated>>): seq<string>
  {
    Flatten(Map(group.value, ItemRefs))
  }

  /** Every reference of every success response, group by group, item by
      item, member by member (`flattenDeep` and `compact`). */
  function AllRefs(groups: seq<Entry<seq<Annotated>>>): seq<string>
  {
    Flatten(Map(groups, GroupRefs))
  }

  /** `_getReturnModelsFromResources(pathItemCollection)`: the collected
      references without repeats, sorted. */
  function ReturnModels(groups: seq<Entry<seq<Annotated>>>): seq<string>
  {
    Sort(Uniq(AllRefs(groups)))
  }

  /** The list is strictly ascending. */
  lemma ReturnModelsAscending(groups: seq<Entry<seq<Annotated>>>)
    ensures var r := ReturnModels(groups);
      forall i, j :: 0 <= i < j < |r| ==> Below(r[i], r[j]) && r[i] != r[j]
  {
    SortDistinct(Uniq(AllRefs(groups)));
  }

  /** A reference is listed exactly when some group collects it. */
  lemma ReturnModelsMember(groups: seq<Entry<seq<Annotated>>>, x: string)
    ensures x in ReturnModels(groups) <==> x in AllRefs(groups)
  {
    var u := Uniq(AllRefs(groups));
    assert x in ReturnModels(groups) <==> x in multiset(u);
  }

  /** Every non-empty reference named by a success response of an
      operation in a group is listed. */
  lemma ReturnModelsCover(groups: seq<Entry<seq<Annotated>>>, g: nat, k: nat, m: nat, i: nat)
    requires g < |groups| && k < |groups[g].value|
    requires m < |groups[g].value[k].operations|
    requires groups[g].value[k].operations[m].key != "_path"
    requires groups[g].value[k].operations[m].value.responses.Some?
    requires i < |groups[g].value[k].operations[m].value.responses.value|
    requires IsSuccessStatus(groups[g].value[k].operations[m].value.responses.value[i].key)
    requires Truthy(ResponseRef(groups[g].value[k].operations[m].value.responses.value[i].value))
    ensures ResponseRef(groups[g].value[k].operations[m].value.responses.value[i].value).value in ReturnModels(groups)
  {
    var item := groups[g].value[k];
    var member := item.operations[m];
    var responses := member.value.responses.value;
    var x := ResponseRef(responses[i].value).value;
    SuccessRefsMember(responses, x);
    assert x in MemberRefs(member);
    FlattenMember(Map(item.operations, MemberRefs), x);
    assert x in ItemRefs(item);
    FlattenMember(Map(groups[g].value, ItemRefs), x);
    assert x in GroupRefs(groups[g]);
    FlattenMember(Map(groups, GroupRefs), x);
    ReturnModelsMember(groups, x);
  }
}
