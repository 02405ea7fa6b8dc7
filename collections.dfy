/**
 * The lodash and Array operations the generator relies on, specified by
 * what they promise: `filter` keeps the elements that pass in order,
 * `uniq` keeps first occurrences, `sort`/`sortBy`/`orderBy` yield an
 * ordered permutation. Strings are ordered the way JavaScript's `<`
 * orders them: character by character, a prefix first.
 */
module Collections {

  import opened Js

  // ---------------------------------------------------------------------
  // The order of strings

  /** `a <= b` for JavaScript strings. */
  predicate Below(a: string, b: string)
  {
    |a| == 0 || (|b| > 0 && (a[0] < b[0] || (a[0] == b[0] && Below(a[1..], b[1..]))))
  }

  lemma BelowReflexive(a: string)
    ensures Below(a, a)
  {
  }

  lemma BelowTotal(a: string, b: string)
    ensures Below(a, b) || Below(b, a)
  {
  }

  lemma BelowTransitive(a: string, b: string, c: string)
    requires Below(a, b) && Below(b, c)
    ensures Below(a, c)
  {
  }

  lemma BelowAntisymmetric(a: string, b: string)
    requires Below(a, b) && Below(b, a)
    ensures a == b
  {
    if |a| > 0 && |b| > 0 {
      BelowAntisymmetric(a[1..], b[1..]);
      assert a == [a[0]] + a[1..] && b == [b[0]] + b[1..];
    }
  }

  // ---------------------------------------------------------------------
  // map, filter and uniq

  /** `_.map(xs, f)`. */
  function Map<T, U>(xs: seq<T>, f: T -> U): (r: seq<U>)
    ensures |r| == |xs|
    ensures forall i :: 0 <= i < |xs| ==> r[i] == f(xs[i])
  {
    if xs == [] then [] else Map(xs[..|xs| - 1], f) + [f(xs[|xs| - 1])]
  }

  /** One more element maps to one more result; the step of a loop that
      pushes `f(x)` for each `x`. */
  lemma MapStep<T, U>(xs: seq<T>, i: nat, f: T -> U)
    requires i < |xs|
    ensures Map(xs[..i + 1], f) == Map(xs[..i], f) + [f(xs[i])]
  {
    assert xs[..i + 1][..i] == xs[..i];
  }

  /** `_.filter(xs, p)`. */
  function Filter<T>(xs: seq<T>, p: T -> bool): (r: seq<T>)
    ensures |r| <= |xs|
    ensures forall i :: 0 <= i < |r| ==> p(r[i]) && r[i] in xs
    ensures forall i :: 0 <= i < |xs| && p(xs[i]) ==> xs[i] in r
  {
    if xs == [] then [] else (if p(xs[0]) then [xs[0]] else []) + Filter(xs[1..], p)
  }

  /** Filtering a longer list extends the result by the new element when
      it passes. */
  lemma {:induction false} FilterAppend<T>(xs: seq<T>, x: T, p: T -> bool)
    ensures Filter(xs + [x], p) == Filter(xs, p) + (if p(x) then [x] else [])
  {
    if xs != [] {
      assert (xs + [x])[1..] == xs[1..] + [x];
      FilterAppend(xs[1..], x, p);
    }
  }

  /** `_.filter(xs, p)` is empty exactly when nothing passes. */
  lemma {:induction false} FilterEmpty<T>(xs: seq<T>, p: T -> bool)
    ensures Filter(xs, p) == [] <==> forall i :: 0 <= i < |xs| ==> !p(xs[i])
  {
    if xs != [] {
      FilterEmpty(xs[1..], p);
      assert forall i :: 1 <= i < |xs| ==> xs[i] == xs[1..][i - 1];
    }
  }

  /** `_.filter(xs, p)[0]` is the first element that passes. */
  lemma {:induction false} FilterFirst<T>(xs: seq<T>, p: T -> bool)
    requires Filter(xs, p) != []
    ensures exists i :: 0 <= i < |xs| && xs[i] == Filter(xs, p)[0] && forall j :: 0 <= j < i ==> !p(xs[j])
  {
    if p(xs[0]) {
      assert xs[0] == Filter(xs, p)[0];
    } else {
      var rest := xs[1..];
      assert Filter(xs, p) == Filter(rest, p);
      FilterFirst(rest, p);
      var i :| 0 <= i < |rest| && rest[i] == Filter(rest, p)[0] && forall j :: 0 <= j < i ==> !p(rest[j]);
      assert xs[i + 1] == rest[i];
      forall j | 0 <= j < i + 1 ensures !p(xs[j]) {
        if j > 0 {
          assert xs[j] == rest[j - 1];
        }
      }
    }
  }

  /** Nothing passes, nothing is kept. */
  lemma {:induction false} FilterNone<T>(xs: seq<T>, p: T -> bool)
    requires forall i :: 0 <= i < |xs| ==> !p(xs[i])
    ensures Filter(xs, p) == []
  {
    if xs != [] {
      FilterNone(xs[1..], p);
    }
  }

  /** A non-empty sequence is its head followed by its tail. */
  lemma HeadTail<T>(xs: seq<T>)
    requires |xs| > 0
    ensures xs == [xs[0]] + xs[1..]
  {
  }

  /** A longer prefix is the shorter one and the next element. */
  lemma TakeStep<T>(xs: seq<T>, i: nat)
    requires i < |xs|
    ensures xs[..i + 1] == xs[..i] + [xs[i]]
  {
  }

  /** A non-empty sequence is its prefix followed by its last element. */
  lemma InitLast<T>(xs: seq<T>)
    requires |xs| > 0
    ensures xs == xs[..|xs| - 1] + [xs[|xs| - 1]]
  {
  }

  /** Filtering by a test and by its negation splits a sequence in two. */
  lemma {:induction false} FilterSplits<T>(xs: seq<T>, p: T -> bool, q: T -> bool)
    requires forall x :: q(x) == !p(x)
    ensures multiset(Filter(xs, p)) + multiset(Filter(xs, q)) == multiset(xs)
  {
    if xs != [] {
      FilterSplits(xs[1..], p, q);
      HeadTail(xs);
    }
  }

  /** The two parts of a split add up to the whole. */
  lemma {:induction false} FilterSplitsLength<T>(xs: seq<T>, p: T -> bool, q: T -> bool)
    requires forall x :: q(x) == !p(x)
    ensures |Filter(xs, p)| + |Filter(xs, q)| == |xs|
  {
    if xs != [] {
      FilterSplitsLength(xs[1..], p, q);
    }
  }

  predicate Distinct<T(==)>(xs: seq<T>)
  {
    forall i, j :: 0 <= i < j < |xs| ==> xs[i] != xs[j]
  }

  /** `_.uniq(xs)`: every value once, where it first occurs. */
  function Uniq<T(==)>(xs: seq<T>): (r: seq<T>)
    ensures Distinct(r)
    ensures forall i :: 0 <= i < |r| ==> r[i] in xs
    ensures forall i :: 0 <= i < |xs| ==> xs[i] in r
  {
    if xs == [] then []
    else
      var u := Uniq(xs[..|xs| - 1]);
      var x := xs[|xs| - 1];
      assert xs == xs[..|xs| - 1] + [x];
      if x in u then u else u + [x]
  }

  // ---------------------------------------------------------------------
  // Sorting by a string key

  /** Ascending by `key`, as a stable sort on a total order leaves it. */
  predicate SortedBy<T>(s: seq<T>, key: T -> string)
  {
    forall i, j :: 0 <= i < j < |s| ==> Below(key(s[i]), key(s[j]))
  }

  function Insert<T(==)>(x: T, s: seq<T>, key: T -> string): (r: seq<T>)
    requires SortedBy(s, key)
    ensures SortedBy(r, key)
    ensures multiset(r) == multiset(s) + multiset{x}
  {
    if s == [] then [x]
    else if Below(key(x), key(s[0])) then
      InsertFront(x, s, key);
      [x] + s
    else
      var r := Insert(x, s[1..], key);
      InsertBehind(x, s, r, key);
      assert s == [s[0]] + s[1..];
      [s[0]] + r
  }

  lemma InsertFront<T>(x: T, s: seq<T>, key: T -> string)
    requires SortedBy(s, key) && s != [] && Below(key(x), key(s[0]))
    ensures SortedBy([x] + s, key)
  {
    forall j | 1 <= j < |s| + 1
      ensures Below(key(([x] + s)[0]), key(([x] + s)[j]))
    {
      if j > 1 {
        BelowTransitive(key(x), key(s[0]), key(s[j - 1]));
      }
    }
  }

  lemma InsertBehind<T>(x: T, s: seq<T>, r: seq<T>, key: T -> string)
    requires SortedBy(s, key) && s != [] && !Below(key(x), key(s[0]))
    requires SortedBy(r, key) && multiset(r) == multiset(s[1..]) + multiset{x}
    ensures SortedBy([s[0]] + r, key)
  {
    BelowTotal(key(x), key(s[0]));
    forall j | 0 <= j < |r|
      ensures Below(key(s[0]), key(r[j]))
    {
      assert r[j] in multiset(r);
      if r[j] != x {
        assert r[j] in multiset(s[1..]);
        var k :| 0 <= k < |s[1..]| && s[1..][k] == r[j];
        assert s[k + 1] == r[j];
      }
    }
  }

  /** `xs` sorted ascending by `key` (insertion sort; the order it yields is
      the only ascending permutation when the keys are distinct). */
  function SortBy<T(==)>(xs: seq<T>, key: T -> string): (r: seq<T>)
    ensures SortedBy(r, key)
    ensures multiset(r) == multiset(xs)
  {
    if xs == [] then []
    else
      assert xs == [xs[0]] + xs[1..];
      Insert(xs[0], SortBy(xs[1..], key), key)
  }

  /** `Array.prototype.sort()` on strings. */
  function Sort(xs: seq<string>): (r: seq<string>)
    ensures SortedBy(r, s => s)
    ensures multiset(r) == multiset(xs)
  {
    SortBy(xs, s => s)
  }

  /** Sorting what is already sorted changes nothing. */
  lemma {:induction false} SortBySorted<T>(xs: seq<T>, key: T -> string)
    requires SortedBy(xs, key)
    ensures SortBy(xs, key) == xs
  {
    if xs != [] {
      assert SortedBy(xs[1..], key);
      SortBySorted(xs[1..], key);
      if |xs| > 1 {
        assert Below(key(xs[0]), key(xs[1..][0]));
      }
    }
  }

  /** In a list without repetitions every value occurs at most once. */
  lemma {:induction false} DistinctCounts<T>(xs: seq<T>)
    requires Distinct(xs)
    ensures forall v :: multiset(xs)[v] <= 1
  {
    if xs != [] {
      DistinctCounts(xs[1..]);
      assert xs == [xs[0]] + xs[1..];
      assert xs[0] !in xs[1..];
    }
  }

  lemma CountsDistinct<T>(ys: seq<T>)
    requires forall v :: multiset(ys)[v] <= 1
    ensures Distinct(ys)
  {
    forall i, j | 0 <= i < j < |ys| ensures ys[i] != ys[j] {
      assert ys == ys[..j] + ys[j..];
      assert ys[i] in multiset(ys[..j]) && ys[j] in multiset(ys[j..]);
      assert multiset(ys)[ys[i]] == multiset(ys[..j])[ys[i]] + multiset(ys[j..])[ys[i]];
    }
  }

  /** A permutation of a list without repetitions has none either. */
  lemma DistinctPermutation<T>(xs: seq<T>, ys: seq<T>)
    requires Distinct(xs) && multiset(xs) == multiset(ys)
    ensures Distinct(ys)
  {
    DistinctCounts(xs);
    CountsDistinct(ys);
  }

  /** Sorting a list without repetitions gives a strictly ascending list. */
  lemma SortDistinct(xs: seq<string>)
    requires Distinct(xs)
    ensures var r := Sort(xs);
      forall i, j :: 0 <= i < j < |r| ==> Below(r[i], r[j]) && r[i] != r[j]
  {
    DistinctPermutation(xs, Sort(xs));
  }

  // ---------------------------------------------------------------------
  // groupBy

  /** `groupBy` filing `item` under `k`: appended to the group with that
      key, or a new group at the end. */
  function AddToGroup<T>(groups: seq<Entry<seq<T>>>, k: string, item: T): (r: seq<Entry<seq<T>>>)
    requires DistinctKeys(groups)
    ensures DistinctKeys(r)
    ensures k in Keys(groups) ==> |r| == |groups|
    ensures k !in Keys(groups) ==> |r| == |groups| + 1 && r[|groups|] == Entry(k, [item])
    ensures forall j :: 0 <= j < |groups| ==> r[j].key == groups[j].key
    ensures forall j :: 0 <= j < |groups| ==>
      r[j].value == groups[j].value + (if groups[j].key == k then [item] else [])
  {
    if groups == [] then [Entry(k, [item])]
    else if groups[0].key == k then
      GroupHead(groups, item);
      [Entry(k, groups[0].value + [item])] + groups[1..]
    else
      var rest := AddToGroup(groups[1..], k, item);
      GroupBehindKeys(groups, k, item, rest);
      GroupBehindValues(groups, k, item, rest);
      [groups[0]] + rest
  }

  /** Filing under the first group's key extends that group in place. */
  lemma GroupHead<T>(groups: seq<Entry<seq<T>>>, item: T)
    requires groups != [] && DistinctKeys(groups)
    ensures var k := groups[0].key; var r := [Entry(k, groups[0].value + [item])] + groups[1..];
      && DistinctKeys(r) && k in Keys(groups) && |r| == |groups|
      && (forall j :: 0 <= j < |groups| ==> r[j].key == groups[j].key)
      && forall j :: 0 <= j < |groups| ==>
           r[j].value == groups[j].value + (if groups[j].key == k then [item] else [])
  {
    var k := groups[0].key;
    var r := [Entry(k, groups[0].value + [item])] + groups[1..];
    assert Keys(groups) == [k] + Keys(groups[1..]);
    forall j | 0 <= j < |groups| ensures r[j].key == groups[j].key
      && r[j].value == groups[j].value + (if groups[j].key == k then [item] else [])
    {
      if j > 0 {
        assert groups[j].key != groups[0].key;
      }
    }
  }

  /** Filing behind the first group keeps the keys distinct and in place. */
  lemma GroupBehindKeys<T>(groups: seq<Entry<seq<T>>>, k: string, item: T, rest: seq<Entry<seq<T>>>)
    requires groups != [] && groups[0].key != k && DistinctKeys(groups)
    requires DistinctKeys(rest)
    requires k in Keys(groups[1..]) ==> |rest| == |groups| - 1
    requires k !in Keys(groups[1..]) ==> |rest| == |groups| && rest[|groups| - 1] == Entry(k, [item])
    requires forall j :: 0 <= j < |groups| - 1 ==> rest[j].key == groups[j + 1].key
    ensures var r := [groups[0]] + rest;
      && DistinctKeys(r)
      && (k in Keys(groups) ==> |r| == |groups|)
      && (k !in Keys(groups) ==> |r| == |groups| + 1 && r[|groups|] == Entry(k, [item]))
      && forall j :: 0 <= j < |groups| ==> r[j].key == groups[j].key
  {
    assert Keys(groups) == [groups[0].key] + Keys(groups[1..]);
    forall j | 0 <= j < |rest| ensures rest[j].key != groups[0].key {
      if j < |groups| - 1 {
        assert rest[j].key == groups[j + 1].key;
      }
    }
    ConsDistinct(groups[0], rest);
  }

  /** Filing behind the first group leaves the first group's members alone. */
  lemma GroupBehindValues<T>(groups: seq<Entry<seq<T>>>, k: string, item: T, rest: seq<Entry<seq<T>>>)
    requires groups != [] && groups[0].key != k
    requires |rest| >= |groups| - 1
    requires forall j :: 0 <= j < |groups| - 1 ==>
      rest[j].value == groups[j + 1].value + (if groups[j + 1].key == k then [item] else [])
    ensures var r := [groups[0]] + rest;
      forall j :: 0 <= j < |groups| ==>
        r[j].value == groups[j].value + (if groups[j].key == k then [item] else [])
  {
    var r := [groups[0]] + rest;
    forall j | 0 <= j < |groups|
      ensures r[j].value == groups[j].value + (if groups[j].key == k then [item] else [])
    {
      if j > 0 {
        assert r[j] == rest[j - 1];
      }
    }
  }

  /** An entry whose key the others lack keeps the keys distinct. */
  lemma ConsDistinct<V>(e: Entry<V>, rest: seq<Entry<V>>)
    requires DistinctKeys(rest)
    requires forall j :: 0 <= j < |rest| ==> rest[j].key != e.key
    ensures DistinctKeys([e] + rest)
  {
    var r := [e] + rest;
    forall i, j | 0 <= i < j < |r| ensures r[i].key != r[j].key {
      if i > 0 {
        assert r[i] == rest[i - 1] && r[j] == rest[j - 1];
      } else {
        assert r[j] == rest[j - 1];
      }
    }
  }

  lemma AddToGroupKeys<T>(groups: seq<Entry<seq<T>>>, k: string, item: T)
    requires DistinctKeys(groups)
    ensures Keys(AddToGroup(groups, k, item)) == Keys(groups) + (if k in Keys(groups) then [] else [k])
  {
  }

  /** `_.groupBy(items, key)` where computing a key may throw: the groups in
      the order their first member appears; the first failure aborts. */
  function GroupBy<T>(items: seq<T>, key: T -> Result<string>): (r: Result<seq<Entry<seq<T>>>>)
    ensures r.Ok? ==> DistinctKeys(r.value)
  {
    if items == [] then Ok([])
    else
      var prev := GroupBy(items[..|items| - 1], key);
      var k := key(items[|items| - 1]);
      if prev.Err? then prev
      else if k.Err? then Err(k.fault)
      else Ok(AddToGroup(prev.value, k.value, items[|items| - 1]))
  }

  /** The test that files an item under `k`. */
  function HasKey<T>(key: T -> Result<string>, k: string): T -> bool
  {
    item => key(item) == Ok(k)
  }

  /** The key of every item, `""` standing in for a failure. */
  function KeysOf<T>(items: seq<T>, key: T -> Result<string>): (ks: seq<string>)
    ensures |ks| == |items|
    ensures forall i :: 0 <= i < |items| && key(items[i]).Ok? ==> ks[i] == key(items[i]).value
  {
    if items == [] then []
    else
      var k := key(items[|items| - 1]);
      KeysOf(items[..|items| - 1], key) + [if k.Ok? then k.value else ""]
  }

  /** Grouping succeeds when every key does. */
  lemma {:induction false} GroupByOk<T>(items: seq<T>, key: T -> Result<string>)
    requires forall i :: 0 <= i < |items| ==> key(items[i]).Ok?
    ensures GroupBy(items, key).Ok?
  {
    if items != [] {
      var n := |items| - 1;
      var pre := items[..n];
      assert forall i :: 0 <= i < n ==> pre[i] == items[i];
      GroupByOk(pre, key);
    }
  }

  /** Grouping fails when any key fails. */
  lemma {:induction false} GroupByFails<T>(items: seq<T>, key: T -> Result<string>, i: nat)
    requires i < |items| && key(items[i]).Err?
    ensures GroupBy(items, key).Err?
  {
    var n := |items| - 1;
    if i < n {
      var pre := items[..n];
      assert pre[i] == items[i];
      GroupByFails(pre, key, i);
    }
  }

  /** A failure in a prefix is the failure of the whole. */
  lemma {:induction false} GroupByPrefixFails<T>(items: seq<T>, key: T -> Result<string>, i: nat)
    requires i <= |items| && GroupBy(items[..i], key).Err?
    ensures GroupBy(items, key) == GroupBy(items[..i], key)
  {
    if i < |items| {
      var n := |items| - 1;
      assert items[..n][..i] == items[..i];
      GroupByPrefixFails(items[..n], key, i);
    } else {
      assert items[..i] == items;
    }
  }

  /** Every item is filed under its own key. */
  lemma {:induction false} GroupByCovers<T>(items: seq<T>, key: T -> Result<string>)
    requires GroupBy(items, key).Ok?
    ensures forall i :: 0 <= i < |items| ==>
      key(items[i]).Ok? && key(items[i]).value in Keys(GroupBy(items, key).value)
  {
    if items != [] {
      var n := |items| - 1;
      var init := items[..n];
      InitLast(items);
      GroupByCovers(init, key);
      var prev := GroupBy(init, key).value;
      var k := key(items[n]).value;
      assert GroupBy(items, key) == Ok(AddToGroup(prev, k, items[n]));
      forall i | 0 <= i < |items|
        ensures key(items[i]).Ok? && key(items[i]).value in Keys(AddToGroup(prev, k, items[n]))
      {
        if i < n {
          assert items[i] == init[i];
        }
        AddToGroupKeeps(prev, k, items[n], key(items[i]).value);
      }
    }
  }

  /** Filing an item keeps every key and adds its own. */
  lemma AddToGroupKeeps<T>(groups: seq<Entry<seq<T>>>, k: string, item: T, x: string)
    requires DistinctKeys(groups) && (x in Keys(groups) || x == k)
    ensures x in Keys(AddToGroup(groups, k, item))
  {
    AddToGroupKeys(groups, k, item);
  }

  /** The groups partition the items: their keys are distinct, every item
      is filed under its own key, and each group holds exactly the items
      with its key, in input order. */
  lemma {:induction false} GroupByPartition<T>(items: seq<T>, key: T -> Result<string>)
    requires GroupBy(items, key).Ok?
    ensures var groups := GroupBy(items, key).value;
      && DistinctKeys(groups)
      && (forall i :: 0 <= i < |items| ==> key(items[i]).Ok? && key(items[i]).value in Keys(groups))
      && (forall j :: 0 <= j < |groups| ==>
            groups[j].value == Filter(items, HasKey(key, groups[j].key)) && |groups[j].value| > 0)
  {
    GroupByCovers(items, key);
    if items != [] {
      var n := |items| - 1;
      var init := items[..n];
      InitLast(items);
      GroupByPartition(init, key);
      var prev := GroupBy(init, key).value;
      assert GroupBy(items, key) == Ok(AddToGroup(prev, key(items[n]).value, items[n]));
      AddToGroupFilters(items, key, prev);
    }
  }

  /** Filing one more item keeps every group equal to the items with its
      key. */
  lemma AddToGroupFilters<T>(items: seq<T>, key: T -> Result<string>, prev: seq<Entry<seq<T>>>)
    requires |items| > 0 && DistinctKeys(prev) && key(items[|items| - 1]).Ok?
    requires forall i :: 0 <= i < |items| - 1 ==> key(items[i]).Ok? && key(items[i]).value in Keys(prev)
    requires forall j :: 0 <= j < |prev| ==>
      prev[j].value == Filter(items[..|items| - 1], HasKey(key, prev[j].key)) && |prev[j].value| > 0
    ensures var groups := AddToGroup(prev, key(items[|items| - 1]).value, items[|items| - 1]);
      forall j :: 0 <= j < |groups| ==>
        groups[j].value == Filter(items, HasKey(key, groups[j].key)) && |groups[j].value| > 0
  {
    var init := items[..|items| - 1];
    var x := items[|items| - 1];
    var k := key(x).value;
    var groups := AddToGroup(prev, k, x);
    AddToGroupKeys(prev, k, x);
    InitLast(items);
    forall j | 0 <= j < |groups|
      ensures groups[j].value == Filter(items, HasKey(key, groups[j].key)) && |groups[j].value| > 0
    {
      FilterAppend(init, x, HasKey(key, groups[j].key));
      if j == |prev| {
        forall i | 0 <= i < |init| ensures !HasKey(key, k)(init[i]) {
          assert key(init[i]).value in Keys(prev);
        }
        FilterNone(init, HasKey(key, k));
      }
    }
  }

  /** The groups come in the order of the first item filed under each. */
  lemma {:induction false} GroupByOrder<T>(items: seq<T>, key: T -> Result<string>)
    requires GroupBy(items, key).Ok?
    ensures Keys(GroupBy(items, key).value) == Uniq(KeysOf(items, key))
  {
    if items != [] {
      var n := |items| - 1;
      GroupByOrder(items[..n], key);
      var prev := GroupBy(items[..n], key).value;
      AddToGroupKeys(prev, key(items[n]).value, items[n]);
    }
  }

  // ---------------------------------------------------------------------
  // Mapping a callback that may throw

  /** `xs.map(f)` where `f` may throw: the first failure, in order, aborts
      the whole map. */
  function TryMap<T, U>(xs: seq<T>, f: T -> Result<U>): (r: Result<seq<U>>)
    ensures r.Ok? <==> forall i :: 0 <= i < |xs| ==> f(xs[i]).Ok?
    ensures r.Ok? ==> |r.value| == |xs| && forall i :: 0 <= i < |xs| ==> r.value[i] == f(xs[i]).value
  {
    if xs == [] then Ok([])
    else
      var init := xs[..|xs| - 1];
      var prev := TryMap(init, f);
      var y := f(xs[|xs| - 1]);
      if prev.Err? then
        var i :| 0 <= i < |init| && f(init[i]).Err?;
        assert f(xs[i]).Err?;
        prev
      else if y.Err? then Err(y.fault)
      else Ok(prev.value + [y.value])
  }

  /** Mapping one more element extends the results or fails with it. */
  lemma TryMapStep<T, U>(xs: seq<T>, f: T -> Result<U>, i: nat)
    requires i < |xs|
    ensures TryMap(xs[..i + 1], f) ==
      match TryMap(xs[..i], f)
      case Err(e) => Err(e)
      case Ok(s) => (match f(xs[i]) case Err(e) => Err(e) case Ok(t) => Ok(s + [t]))
  {
    assert xs[..i + 1][..i] == xs[..i];
  }

  /** The failure reported is that of the first failing element. */
  lemma {:induction false} TryMapFirstFailure<T, U>(xs: seq<T>, f: T -> Result<U>, i: nat)
    requires i < |xs| && f(xs[i]).Err?
    requires forall j :: 0 <= j < i ==> f(xs[j]).Ok?
    ensures TryMap(xs, f) == Err(f(xs[i]).fault)
  {
    var n := |xs| - 1;
    if i < n {
      var init := xs[..n];
      assert init[i] == xs[i];
      TryMapFirstFailure(init, f, i);
    } else {
      assert forall j :: 0 <= j < n ==> f(xs[..n][j]).Ok?;
    }
  }

  // ---------------------------------------------------------------------
  // Flattening

  /** `_.flatten(xss)`: the lists one after another. */
  function Flatten<T>(xss: seq<seq<T>>): (r: seq<T>)
    ensures |xss| > 0 ==> r == xss[0] + Flatten(xss[1..])
  {
    if xss == [] then [] else xss[0] + Flatten(xss[1..])
  }

  /** A value is in the flattened list exactly when it is in one of the
      lists. */
  lemma {:induction false} FlattenMember<T>(xss: seq<seq<T>>, x: T)
    ensures x in Flatten(xss) <==> exists i :: 0 <= i < |xss| && x in xss[i]
  {
    if xss != [] {
      FlattenMember(xss[1..], x);
      if x in Flatten(xss[1..]) {
        var i :| 0 <= i < |xss[1..]| && x in xss[1..][i];
        assert x in xss[i + 1];
      }
      if exists i :: 0 <= i < |xss| && x in xss[i] {
        var i :| 0 <= i < |xss| && x in xss[i];
        if i > 0 {
          assert x in xss[1..][i - 1];
        }
      }
    }
  }

  // ---------------------------------------------------------------------
  // Appending the texts of a callback that may throw

  /** `xs.forEach(x => text += f(x))` where `f` may throw: the texts one
      after another, or the first failure, in order. */
  function TryConcat<T>(xs: seq<T>, f: T -> Result<string>): (r: Result<string>)
    ensures r.Ok? <==> forall i :: 0 <= i < |xs| ==> f(xs[i]).Ok?
  {
    if xs == [] then Ok("")
    else
      var init := xs[..|xs| - 1];
      var prev := TryConcat(init, f);
      var y := f(xs[|xs| - 1]);
      if prev.Err? then
        var i :| 0 <= i < |init| && f(init[i]).Err?;
        assert f(xs[i]).Err?;
        prev
      else if y.Err? then Err(y.fault)
      else Ok(prev.value + y.value)
  }

  /** The text of the first `i + 1` elements extends that of the first
      `i`, and a failure among them is the failure of the whole. */
  lemma TryConcatStep<T>(xs: seq<T>, f: T -> Result<string>, i: nat)
    requires i < |xs|
    ensures TryConcat(xs[..i + 1], f) ==
      match TryConcat(xs[..i], f)
      case Err(e) => Err(e)
      case Ok(s) => (match f(xs[i]) case Err(e) => Err(e) case Ok(t) => Ok(s + t))
  {
    assert xs[..i + 1][..i] == xs[..i];
  }

  /** A failure in a prefix is the failure of the whole. */
  lemma {:induction false} TryConcatPrefixFails<T>(xs: seq<T>, f: T -> Result<string>, i: nat)
    requires i <= |xs| && TryConcat(xs[..i], f).Err?
    ensures TryConcat(xs, f) == TryConcat(xs[..i], f)
  {
    if i < |xs| {
      var n := |xs| - 1;
      assert xs[..n][..i] == xs[..i];
      TryConcatPrefixFails(xs[..n], f, i);
    } else {
      assert xs[..i] == xs;
    }
  }
}
