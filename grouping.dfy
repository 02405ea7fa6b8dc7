/**
 * `_groupPathsByResource`: every path item is tagged with its URI and the
 * items are grouped by the lower-cased first tag of their first
 * operation. Groups appear in the order their first member does and keep
 * their members in input order; an item without any operation goes to
 * the group `""`.
 *
 * When the first operation has no usable first tag the callback falls
 * back to `this._getResourceNameFromPath(paths._path)`. Inside the lodash
 * callback `this` is not the generator, so that call throws, as does
 * reading `tags[0]` of an operation without `tags`.
 */
module Grouping {

  import opened Js
  import opened Strings
  import opened Collections
  import opened Swagger

  /** The path items of `paths`, each with `_path` set to its key. */
  function Annotate(paths: seq<Entry<PathItem>>): (r: seq<Annotated>)
    ensures |r| == |paths|
    ensures forall i :: 0 <= i < |paths| ==>
      r[i].path == paths[i].key && r[i].operations == paths[i].value.operations
  {
    seq(|paths|, i requires 0 <= i < |paths| => Annotated(paths[i].key, paths[i].value.operations))
  }

  /** The keys of an annotated item other than `_path`. */
  function OperationKeys(ops: seq<Entry<Operation>>): seq<string>
  {
    Filter(Keys(ops), k => k != "_path")
  }

  /** The first operation of an item, looked up by its key; a missing or
      empty first key (`!pathKey`) stands for no operation. */
  function FirstOperation(ops: seq<Entry<Operation>>): (r: Option<Operation>)
    ensures r.Some? <==> |OperationKeys(ops)| > 0 && OperationKeys(ops)[0] != ""
    ensures r.Some? ==> exists i :: 0 <= i < |ops| && ops[i] == Entry(OperationKeys(ops)[0], r.value)
  {
    var ks := OperationKeys(ops);
    if |ks| == 0 || ks[0] == "" then None
    else
      assert ks[0] in Keys(ops);
      Get(ops, ks[0])
  }

  /** The key `groupBy` files an item under. */
  function GroupKey(item: Annotated): (r: Result<string>)
    ensures r == Ok("") <==> FirstOperation(item.operations).None?
    ensures r.Ok? && r.value != "" ==>
      var tags := FirstOperation(item.operations).value.tags;
      tags.Some? && |tags.value| > 0 && r.value == Lower(tags.value[0])
    ensures r.Err? <==>
      var op := FirstOperation(item.operations);
      op.Some? && (op.value.tags.None? || |op.value.tags.value| == 0 || op.value.tags.value[0] == "")
  {
    match FirstOperation(item.operations)
    case None => Ok("")
    case Some(op) =>
      if op.tags.None? then Err(TypeError)
      else if |op.tags.value| == 0 || op.tags.value[0] == "" then Err(TypeError)
      else Ok(Lower(op.tags.value[0]))
  }

  /** `_getResourceNameFromPath(path)`: the third `/`-separated segment once
      the first `/v{version}/` is removed, or `undefined`. */
  function ResourceNameFromPath(path: string): (r: Option<string>)
    ensures r.Some? ==> '/' !in r.value
  {
    var parts := Split(ReplaceFirst(path, "/v{version}/", ""), '/');
    if |parts| > 2 then Some(parts[2]) else None
  }

  /** On a path of two segments without braces the resource name is the
      second segment. */
  lemma ResourceNameOfPath(a: string, b: string)
    requires '/' !in a && '/' !in b && '{' !in a && '{' !in b
    ensures ResourceNameFromPath("/" + a + "/" + b) == Some(b)
  {
    var p := "/" + a + "/" + b;
    assert '{' !in p;
    NoOccurrence(p, "/v{version}/", '{');
    assert ReplaceFirst(p, "/v{version}/", "") == p;
    SplitTwoSegments(a, b, '/');
  }

  /** The groups of the annotated items, keyed by `GroupKey`. */
  function Grouped(items: seq<Annotated>): Result<seq<Entry<seq<Annotated>>>>
  {
    GroupBy(items, GroupKey)
  }

  /** Grouping the path items fails exactly when some item's first
      operation lacks a usable first tag; otherwise the groups partition
      the items by key, each group in input order, the groups in order of
      first appearance, and every item carries its URI. */
  lemma GroupsPartitionPaths(paths: seq<Entry<PathItem>>)
    ensures var items := Annotate(paths);
      && (Grouped(items).Err? <==> exists i :: 0 <= i < |items| && GroupKey(items[i]).Err?)
      && (Grouped(items).Ok? ==>
            var groups := Grouped(items).value;
            && DistinctKeys(groups)
            && Keys(groups) == Uniq(KeysOf(items, GroupKey))
            && (forall i :: 0 <= i < |items| ==> GroupKey(items[i]).value in Keys(groups))
            && (forall j :: 0 <= j < |groups| ==>
                  groups[j].value == Filter(items, HasKey(GroupKey, groups[j].key))
                  && |groups[j].value| > 0))
  {
    var items := Annotate(paths);
    if exists i :: 0 <= i < |items| && GroupKey(items[i]).Err? {
      var i :| 0 <= i < |items| && GroupKey(items[i]).Err?;
      GroupByFails(items, GroupKey, i);
    } else {
      GroupByOk(items, GroupKey);
      GroupByPartition(items, GroupKey);
      GroupByOrder(items, GroupKey);
    }
  }

  /** `_groupPathsByResource(paths)`: tag each item, then file it. */
  method GroupPathsByResource(paths: seq<Entry<PathItem>>) returns (r: Result<seq<Entry<seq<Annotated>>>>)
    ensures r == Grouped(Annotate(paths))
  {
    var items := AnnotatePaths(paths);
    r := GroupItems(items);
  }

  /** The `.map` step: each item with `_path` set to its key. */
  method AnnotatePaths(paths: seq<Entry<PathItem>>) returns (items: seq<Annotated>)
    ensures items == Annotate(paths)
  {
    items := [];
    for i := 0 to |paths|
      invariant items == Annotate(paths[..i])
    {
      items := items + [Annotated(paths[i].key, paths[i].value.operations)];
    }
    assert paths[..|paths|] == paths;
  }

  /** The `.groupBy` step: each item filed under its key in turn. */
  method GroupItems(items: seq<Annotated>) returns (r: Result<seq<Entry<seq<Annotated>>>>)
    ensures r == Grouped(items)
  {
    var groups: seq<Entry<seq<Annotated>>> := [];
    for i := 0 to |items|
      invariant Grouped(items[..i]) == Ok(groups)
    {
      var key := GroupKey(items[i]);
      ghost var seen := items[..i + 1];
      assert seen[..|seen| - 1] == items[..i] && seen[|seen| - 1] == items[i];
      if key.Err? {
        assert Grouped(seen) == Err(key.fault);
        GroupByPrefixFails(items, GroupKey, i + 1);
        return Err(key.fault);
      }
      groups := AddToGroup(groups, key.value, items[i]);
      assert Grouped(seen) == Ok(groups);
    }
    assert items[..|items|] == items;
    r := Ok(groups);
  }
}
