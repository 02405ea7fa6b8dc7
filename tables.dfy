/**
 * The two parameter tables of an endpoint section: query parameters,
 * required ones first, and the fields of the body parameter's type,
 * required ones first and each part by name. Both are Markdown tables
 * whose rows are pushed into an array and joined with newlines.
 */
module Tables {

  import opened Js
  import opened Strings
  import opened Collections
  import opened Swagger
  import opened Endpoint

  /** The two header rows every table starts with. */
  const TableHead: seq<string> := ["Parameter | Type | Description", "---|---|---"]

  /** The row the query table always ends with. */
  const PaginationRow := "&nbsp;|&nbsp;|[See search and pagination for more parameters](#search)"

  // ---------------------------------------------------------------------
  // Query parameters

  function IsRequired(p: Parameter): bool
  {
    p.required
  }

  function IsOptional(p: Parameter): bool
  {
    !p.required
  }

  /** `_.sortBy(params, qp => !qp.required)`: a stable sort on a boolean
      key, so the required parameters come first and each part keeps its
      declaration order. */
  function QueryOrder(ps: seq<Parameter>): seq<Parameter>
  {
    Filter(ps, IsRequired) + Filter(ps, IsOptional)
  }

  /** The order is a permutation with every required parameter ahead of
      every optional one. */
  lemma QueryOrderSorts(ps: seq<Parameter>)
    ensures multiset(QueryOrder(ps)) == multiset(ps)
    ensures forall i, j :: 0 <= i < j < |QueryOrder(ps)| && QueryOrder(ps)[j].required ==> QueryOrder(ps)[i].required
  {
    FilterSplits(ps, IsRequired, IsOptional);
  }

  /** The first cell of a row: the name in backticks, marked when the
      parameter is optional. */
  function NameCell(name: string, required: bool): string
  {
    if required then "`" + name else "`" + name + " (optional)"
  }

  function QueryRow(p: Parameter): string
  {
    NameCell(p.name, p.required) + "`|`" + Text(p.typ) + "`|" + Text(p.description)
  }

  /** The lines of the query table: the header rows, one row per query
      parameter in table order, and the pagination row. */
  function QueryLines(ps: seq<Parameter>): seq<string>
  {
    TableHead + Map(QueryOrder(ps), QueryRow) + [PaginationRow]
  }

  /** The text of `_getQueryParametersAsTable`: empty exactly when the
      operation has no query parameters. */
  function QueryTable(op: Operation): (r: string)
    ensures r == "" <==> QueryParameters(op) == []
  {
    var ps := QueryParameters(op);
    if |ps| == 0 then "" else Join(QueryLines(ps), "\n") + "\n\n"
  }

  /** The table has one row per query parameter between the two header
      rows and the pagination row. */
  lemma QueryLinesShape(ps: seq<Parameter>)
    ensures |QueryLines(ps)| == |ps| + 3
    ensures QueryLines(ps)[0] == TableHead[0] && QueryLines(ps)[1] == TableHead[1]
    ensures QueryLines(ps)[|ps| + 2] == PaginationRow
  {
    FilterSplitsLength(ps, IsRequired, IsOptional);
    Framed(TableHead, Map(QueryOrder(ps), QueryRow), PaginationRow);
  }

  /** Those rows are the parameters in table order, required ones first. */
  lemma QueryLinesRows(ps: seq<Parameter>)
    ensures |QueryLines(ps)| == |ps| + 3
    ensures forall i :: 0 <= i < |ps| ==> QueryLines(ps)[i + 2] == QueryRow(QueryOrder(ps)[i])
  {
    QueryLinesShape(ps);
    forall i | 0 <= i < |ps|
      ensures QueryLines(ps)[i + 2] == QueryRow(QueryOrder(ps)[i])
    {
      QueryRowAt(ps, i);
    }
  }

  lemma QueryRowAt(ps: seq<Parameter>, i: nat)
    requires i < |ps|
    ensures |QueryOrder(ps)| == |ps|
    ensures QueryLines(ps)[i + 2] == QueryRow(QueryOrder(ps)[i])
  {
    QueryOrderLength(ps);
    var rows := Map(QueryOrder(ps), QueryRow);
    Framed(TableHead, rows, PaginationRow);
    assert QueryLines(ps) == TableHead + rows + [PaginationRow];
  }

  lemma QueryOrderLength(ps: seq<Parameter>)
    ensures |QueryOrder(ps)| == |ps|
  {
    FilterSplitsLength(ps, IsRequired, IsOptional);
  }

  /** Where the header rows, the rows and the closing row of a table sit. */
  lemma Framed(head: seq<string>, rows: seq<string>, last: string)
    ensures |head + rows + [last]| == |head| + |rows| + 1
    ensures forall i :: 0 <= i < |head| ==> (head + rows + [last])[i] == head[i]
    ensures forall i :: 0 <= i < |rows| ==> (head + rows + [last])[|head| + i] == rows[i]
    ensures (head + rows + [last])[|head| + |rows|] == last
  {
  }

  /** Pushing a row after the header rows and earlier rows. */
  lemma AppendAssoc(head: seq<string>, rows: seq<string>, row: string)
    ensures head + rows + [row] == head + (rows + [row])
  {
  }

  /** One row of the query table, built the way the loop body builds it. */
  method BuildQueryRow(queryParam: Parameter) returns (row: string)
    ensures row == QueryRow(queryParam)
  {
    row := "`" + queryParam.name;
    if !queryParam.required {
      row := row + " (optional)";
    }
    assert row == NameCell(queryParam.name, queryParam.required);
    row := row + "`|`" + Text(queryParam.typ) + "`|" + Text(queryParam.description);
  }

  /** The `forEach` over the ordered query parameters: one row pushed per
      parameter. */
  method PushQueryRows(tableData0: seq<string>, sortedQueryParams: seq<Parameter>) returns (tableData: seq<string>)
    ensures tableData == tableData0 + Map(sortedQueryParams, QueryRow)
  {
    tableData := tableData0;
    for i := 0 to |sortedQueryParams|
      invariant tableData == tableData0 + Map(sortedQueryParams[..i], QueryRow)
    {
      var queryParam := sortedQueryParams[i];
      var row := BuildQueryRow(queryParam);
      MapStep(sortedQueryParams, i, QueryRow);
      AppendAssoc(tableData0, Map(sortedQueryParams[..i], QueryRow), row);
      tableData := tableData + [row];
    }
    assert sortedQueryParams[..|sortedQueryParams|] == sortedQueryParams;
  }

  /** `_getQueryParametersAsTable(httpMethod, pathItem)`. */
  method QueryParametersAsTable(op: Operation) returns (s: string)
    ensures s == QueryTable(op)
  {
    var queryParams := QueryParameters(op);
    if |queryParams| == 0 {
      return "";
    }
    var sortedQueryParams := QueryOrder(queryParams);
    var tableData := TableHead;
    tableData := PushQueryRows(tableData, sortedQueryParams);
    tableData := tableData + [PaginationRow];
    s := Join(tableData, "\n") + "\n\n";
  }

  // ---------------------------------------------------------------------
  // Body parameter

  /** `getParameterType(prop)`: the `type` when it is set, otherwise the
      last segment of the `$ref`, or `undefined` without either. */
  function ParameterType(typ: Option<string>, ref: Option<string>): (r: Option<string>)
    ensures Truthy(typ) ==> r == typ
    ensures !Truthy(typ) && !Truthy(ref) ==> r.None?
    ensures !Truthy(typ) && Truthy(ref) ==> r == Some(LastSegment(ref.value, '/'))
  {
    if Truthy(typ) then typ
    else if !Truthy(ref) then None
    else Some(LastSegment(ref.value, '/'))
  }

  /** A field of a definition as the table sees it: the property, its
      name, and `required`, which holds the name when the definition lists
      it as required and is `undefined` otherwise. */
  datatype Field = Field(name: string, prop: Property, required: Option<string>)

  function FieldOf(d: Definition, e: Entry<Property>): (f: Field)
    ensures f.name == e.key && f.prop == e.value
    ensures f.required.Some? <==> d.required.Some? && e.key in d.required.value
    ensures f.required.Some? ==> f.required.value == e.key
  {
    Field(e.key, e.value, if d.required.Some? && e.key in d.required.value then Some(e.key) else None)
  }

  function Fields(d: Definition, props: seq<Entry<Property>>): seq<Field>
  {
    Map(props, e => FieldOf(d, e))
  }

  function ListedRequired(f: Field): bool
  {
    f.required.Some?
  }

  function NotListedRequired(f: Field): bool
  {
    f.required.None?
  }

  function FieldName(f: Field): string
  {
    f.name
  }

  /** `orderBy(['required', 'name'], ['asc', 'asc'])`: the fields whose
      `required` is set, by name, then the others, by name (the value of
      `required` is the name itself, and `undefined` sorts last). */
  function BodyOrder(fs: seq<Field>): seq<Field>
  {
    SortBy(Filter(fs, ListedRequired), FieldName) + SortBy(Filter(fs, NotListedRequired), FieldName)
  }

  /** The order is a permutation that puts the required fields first and
      orders each part by name. */
  lemma BodyOrderSorts(fs: seq<Field>)
    ensures multiset(BodyOrder(fs)) == multiset(fs)
    ensures forall i, j :: 0 <= i < j < |BodyOrder(fs)| && BodyOrder(fs)[j].required.Some? ==>
      BodyOrder(fs)[i].required.Some?
    ensures forall i, j ::
      0 <= i < j < |BodyOrder(fs)| && BodyOrder(fs)[i].required.Some? == BodyOrder(fs)[j].required.Some? ==>
      Below(BodyOrder(fs)[i].name, BodyOrder(fs)[j].name)
  {
    FilterSplits(fs, ListedRequired, NotListedRequired);
    var a := SortBy(Filter(fs, ListedRequired), FieldName);
    var b := SortBy(Filter(fs, NotListedRequired), FieldName);
    forall k | 0 <= k < |a| ensures a[k].required.Some? {
      assert a[k] in multiset(Filter(fs, ListedRequired));
    }
    forall k | 0 <= k < |b| ensures b[k].required.None? {
      assert b[k] in multiset(Filter(fs, NotListedRequired));
    }
    PartsInOrder(a, b);
  }

  lemma PartsInOrder(a: seq<Field>, b: seq<Field>)
    requires forall k :: 0 <= k < |a| ==> a[k].required.Some?
    requires forall k :: 0 <= k < |b| ==> b[k].required.None?
    requires SortedBy(a, FieldName) && SortedBy(b, FieldName)
    ensures forall i, j :: 0 <= i < j < |a + b| && (a + b)[j].required.Some? ==> (a + b)[i].required.Some?
    ensures forall i, j ::
      0 <= i < j < |a + b| && (a + b)[i].required.Some? == (a + b)[j].required.Some? ==>
      Below((a + b)[i].name, (a + b)[j].name)
  {
    var c := a + b;
    forall i, j | 0 <= i < j < |c| && c[i].required.Some? == c[j].required.Some?
      ensures Below(c[i].name, c[j].name)
    {
      if j < |a| {
        assert Below(FieldName(a[i]), FieldName(a[j]));
      } else {
        assert i >= |a|;
        assert Below(FieldName(b[i - |a|]), FieldName(b[j - |a|]));
      }
    }
  }

  /** The `type` column for a typed property: `type`, `(maxLength)` when
      that is non-zero, ` format` when that is set, in backticks. */
  function TypedColumn(p: Property): string
  {
    "`" + OrEmpty(p.typ)
    + (if p.maxLength.Some? && p.maxLength.value != 0 then "(" + NatToString(p.maxLength.value) + ")" else "")
    + (if Truthy(p.format) then " " + p.format.value else "")
    + "`"
  }

  function BodyTypeColumn(p: Property): string
  {
    if Truthy(p.typ) then TypedColumn(p) else "`" + Text(ParameterType(p.typ, p.ref)) + "`"
  }

  function BodyRow(f: Field): string
  {
    NameCell(f.name, Truthy(f.required)) + "`|" + BodyTypeColumn(f.prop) + "|" + OrEmpty(f.prop.description)
  }

  /** The rows of a definition's fields in table order. */
  function BodyRows(d: Definition, props: seq<Entry<Property>>): seq<string>
  {
    Map(BodyOrder(Fields(d, props)), BodyRow)
  }

  /** The value `_getBodyParametersAsTable` returns: `''` without a body
      parameter, `undefined` (`None`) when the schema, its type name, the
      definition or its properties are missing, and a throw when the
      document has no definitions to look the type up in. */
  function BodyTable(ctx: Context, op: Operation): (r: Result<Option<string>>)
    ensures BodyParameter(ctx, op).Err? ==> r.Err?
    ensures BodyParameter(ctx, op) == Ok(None) ==> r == Ok(Some(""))
    ensures r.Ok? && r.value.Some? && r.value.value != "" ==>
      StartsWith(r.value.value, TableHead[0] + "\n" + TableHead[1]) && EndsWith(r.value.value, "\n\n")
    ensures BodyParameter(ctx, op).Ok? && BodyParameter(ctx, op).value.Some? ==>
      var schema := BodyParameter(ctx, op).value.value.schema;
      && (schema.None? ==> r == Ok(None))
      && (schema.Some? && !Truthy(ParameterType(schema.value.typ, schema.value.ref)) ==> r == Ok(None))
      && (schema.Some? && Truthy(ParameterType(schema.value.typ, schema.value.ref)) ==>
            var typeName := ParameterType(schema.value.typ, schema.value.ref).value;
            && (ctx.definitions.None? ==> r == Err(TypeError))
            && (ctx.definitions.Some? && Get(ctx.definitions.value, typeName).None? ==> r == Ok(None))
            && (ctx.definitions.Some? && Get(ctx.definitions.value, typeName).Some? ==>
                  var d := Get(ctx.definitions.value, typeName).value;
                  && (d.properties.None? ==> r == Ok(None))
                  && (d.properties.Some? ==>
                        r == Ok(Some(Join(TableHead + Map(BodyOrder(Fields(d, d.properties.value)), BodyRow), "\n") + "\n\n")))))
  {
    match BodyParameter(ctx, op)
    case Err(f) => Err(f)
    case Ok(None) => Ok(Some(""))
    case Ok(Some(body)) =>
      if body.schema.None? then Ok(None)
      else
        var typeName := ParameterType(body.schema.value.typ, body.schema.value.ref);
        if !Truthy(typeName) then Ok(None)
        else if ctx.definitions.None? then Err(TypeError)
        else match Get(ctx.definitions.value, typeName.value)
          case None => Ok(None)
          case Some(d) =>
            if d.properties.None? then Ok(None)
            else
              var rows := BodyRows(d, d.properties.value);
              TableStarts(rows);
              Ok(Some(Join(TableHead + rows, "\n") + "\n\n"))
  }

  /** A table starts with its header rows. */
  lemma TableStarts(rows: seq<string>)
    ensures StartsWith(Join(TableHead + rows, "\n"), TableHead[0] + "\n" + TableHead[1])
  {
    assert TableHead[1..] == [TableHead[1]];
    if rows != [] {
      JoinAppend(TableHead, rows, "\n");
    }
  }

  /** One row of the body table, built the way the loop body builds it. */
  method BuildBodyRow(field: Field) returns (row: string)
    ensures row == BodyRow(field)
  {
    row := "`" + field.name;
    if !Truthy(field.required) {
      row := row + " (optional)";
    }
    assert row == NameCell(field.name, Truthy(field.required));
    var typeColumnValue := BodyTypeColumn(field.prop);
    row := row + "`|" + typeColumnValue + "|" + OrEmpty(field.prop.description);
  }

  /** The `forEach` over the ordered fields: one row pushed per field. */
  method PushBodyRows(tableData0: seq<string>, sortedFields: seq<Field>) returns (tableData: seq<string>)
    ensures tableData == tableData0 + Map(sortedFields, BodyRow)
  {
    tableData := tableData0;
    for i := 0 to |sortedFields|
      invariant tableData == tableData0 + Map(sortedFields[..i], BodyRow)
    {
      var field := sortedFields[i];
      var row := BuildBodyRow(field);
      MapStep(sortedFields, i, BodyRow);
      AppendAssoc(tableData0, Map(sortedFields[..i], BodyRow), row);
      tableData := tableData + [row];
    }
    assert sortedFields[..|sortedFields|] == sortedFields;
  }

  /** `_getBodyParametersAsTable(httpMethod, pathItem)`. */
  method BodyParametersAsTable(ctx: Context, op: Operation) returns (r: Result<Option<string>>)
    ensures r == BodyTable(ctx, op)
  {
    var bodyParam := BodyParameter(ctx, op);
    if bodyParam.Err? {
      return Err(bodyParam.fault);
    }
    if bodyParam.value.None? {
      return Ok(Some(""));
    }
    var tableData: seq<string> := TableHead;
    var schema := bodyParam.value.value.schema;
    if schema.None? {
      return Ok(None);
    }
    var typeName := ParameterType(schema.value.typ, schema.value.ref);
    if !Truthy(typeName) {
      return Ok(None);
    }
    if ctx.definitions.None? {
      return Err(TypeError);
    }
    var definition := Get(ctx.definitions.value, typeName.value);
    if definition.None? {
      return Ok(None);
    }
    var properties := definition.value.properties;
    if properties.None? {
      return Ok(None);
    }
    var sortedFields := BodyOrder(Fields(definition.value, properties.value));
    tableData := PushBodyRows(tableData, sortedFields);
    assert BodyTable(ctx, op) == Ok(Some(Join(TableHead + Map(sortedFields, BodyRow), "\n") + "\n\n"));
    r := Ok(Some(Join(tableData, "\n") + "\n\n"));
  }
}
