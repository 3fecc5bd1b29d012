/** Pipeline definitions: work items, steps, routes, and the pure parts of the engine (grouping,
    batching, route predicates). */
module Pipeline {
  import opened Prelude

  /** A work item. `fields` renders the non-null named fields that a grouping key may read. */
  datatype Item = Item(id: string, unitId: Option<string>, size: Option<int>, status: string, attempts: int,
                       fields: map<string, string>)

  datatype When = When(sizeBelow: Option<int>, status: Option<seq<string>>, minAttempts: Option<int>,
                       maxAttempts: Option<int>)

  datatype Route = Route(when: Option<When>, to: string, maxAttempts: Option<int>)

  datatype Step =
    | Agent
    | Shell
    | Verify(verifier: string)
    | Transform
    | Select
    | Gate
    | AgentLoop(rejectionRetries: Option<int>)
    | Foreach(batch: int, key: Option<string>, steps: seq<Step>, onReject: seq<Route>, hasSetup: bool)

  // ----- Identity of items: ids are distinct -----

  /** No item occurs twice and no two items share an id. */
  ghost predicate Distinct(m: multiset<Item>) {
    && (forall x :: m[x] <= 1)
    && (forall x, y :: x in m && y in m && x.id == y.id ==> x == y)
  }

  function Ids(items: seq<Item>): (r: set<string>)
    ensures forall x :: x in items ==> x.id in r
    ensures forall i :: i in r ==> exists x :: x in items && x.id == i
  {
    set x | x in items :: x.id
  }

  function Without(items: seq<Item>, ids: set<string>): seq<Item> {
    if items == [] then []
    else if items[0].id in ids then Without(items[1..], ids)
    else [items[0]] + Without(items[1..], ids)
  }

  function Only(items: seq<Item>, ids: set<string>): (r: seq<Item>)
    ensures |r| <= |items|
  {
    if items == [] then []
    else if items[0].id in ids then [items[0]] + Only(items[1..], ids)
    else Only(items[1..], ids)
  }

  /** Splitting by id conserves the items. */
  lemma {:induction false} OnlyAndWithout(items: seq<Item>, ids: set<string>)
    ensures multiset(Only(items, ids)) + multiset(Without(items, ids)) == multiset(items)
    decreases |items|
  {
    if items != [] {
      assert items == [items[0]] + items[1..];
      OnlyAndWithout(items[1..], ids);
    }
  }

  lemma {:induction false} WithoutCount(items: seq<Item>, ids: set<string>, x: Item)
    ensures multiset(Without(items, ids))[x] == if x.id in ids then 0 else multiset(items)[x]
    decreases |items|
  {
    if items != [] {
      assert items == [items[0]] + items[1..];
      WithoutCount(items[1..], ids, x);
    }
  }

  /** Dropping the accepted ids from the items in play conserves the items exactly when what was
      accepted is a sub-collection of the items in play. */
  lemma AcceptingConserves(inPlay: seq<Item>, accepted: seq<Item>)
    requires Distinct(multiset(inPlay))
    ensures multiset(accepted) + multiset(Without(inPlay, Ids(accepted))) == multiset(inPlay)
            <==> multiset(accepted) <= multiset(inPlay)
  {
    if multiset(accepted) <= multiset(inPlay) {
      forall x: Item
        ensures multiset(accepted)[x] + multiset(Without(inPlay, Ids(accepted)))[x] == multiset(inPlay)[x]
      {
        WithoutCount(inPlay, Ids(accepted), x);
        if x.id in Ids(accepted) && x in multiset(inPlay) {
          var y :| y in accepted && y.id == x.id;
          assert y in multiset(accepted) && y in multiset(inPlay);
        }
        assert x in multiset(accepted) ==> x in accepted;
      }
      assert multiset(accepted) + multiset(Without(inPlay, Ids(accepted))) == multiset(inPlay);
    }
  }

  // ----- Batches -----

  function Flat(batches: seq<seq<Item>>): seq<Item> {
    if batches == [] then [] else batches[0] + Flat(batches[1..])
  }

  lemma {:induction false} FlatAppend(a: seq<seq<Item>>, b: seq<seq<Item>>)
    ensures Flat(a + b) == Flat(a) + Flat(b)
    decreases |a|
  {
    if a == [] {
      assert a + b == b;
    } else {
      assert (a + b)[1..] == a[1..] + b;
      FlatAppend(a[1..], b);
    }
  }

  /** Every batch is non-empty and no longer than `size`. */
  ghost predicate WithinSize(batches: seq<seq<Item>>, size: int) {
    forall i :: 0 <= i < |batches| ==> 1 <= |batches[i]| <= size
  }

  function ChunksFrom(items: seq<Item>, start: nat, size: nat): seq<seq<Item>>
    requires size > 0
    decreases |items| - start
  {
    if start >= |items| then []
    else [items[start..Min(start + size, |items|)]] + ChunksFrom(items, start + size, size)
  }

  method Chunk(items: seq<Item>, size: nat) returns (out: seq<seq<Item>>)
    requires size > 0
    ensures out == ChunksFrom(items, 0, size)
  {
    out := [];
    var i := 0;
    while i < |items|
      invariant out + ChunksFrom(items, i, size) == ChunksFrom(items, 0, size)
      decreases |items| - i
    {
      out := out + [items[i..Min(i + size, |items|)]];
      i := i + size;
    }
  }

  /** Chunks cut a sequence into pieces without reordering. */
  lemma {:induction false} ChunksCut(items: seq<Item>, start: nat, size: nat)
    requires size > 0
    ensures Flat(ChunksFrom(items, start, size)) == items[Min(start, |items|)..]
    ensures WithinSize(ChunksFrom(items, start, size), size)
    decreases |items| - start
  {
    if start < |items| {
      ChunksCut(items, start + size, size);
    }
  }

  // ----- Grouping -----

  function GroupKey(item: Item, key: string): string {
    if key == "unit" then (if item.unitId.Some? then item.unitId.value else "")
    else if key in item.fields then item.fields[key] else ""
  }

  /** The group keys in the order of their first item. */
  function GroupKeys(items: seq<Item>, key: string): seq<string> {
    if items == [] then []
    else
      var keys, k := GroupKeys(items[..|items| - 1], key), GroupKey(items[|items| - 1], key);
      if k in keys then keys else keys + [k]
  }

  function Group(items: seq<Item>, key: string, k: string): seq<Item> {
    if items == [] then []
    else
      var init, last := Group(items[..|items| - 1], key, k), items[|items| - 1];
      if GroupKey(last, key) == k then init + [last] else init
  }

  /** The items of the groups `keys`, group after group. */
  function Grouped(items: seq<Item>, key: string, keys: seq<string>): seq<Item> {
    if keys == [] then [] else Group(items, key, keys[0]) + Grouped(items, key, keys[1..])
  }

  function ChunkedGroups(items: seq<Item>, key: string, keys: seq<string>, batch: nat): seq<seq<Item>>
    requires batch > 0
  {
    if keys == [] then []
    else ChunksFrom(Group(items, key, keys[0]), 0, batch) + ChunkedGroups(items, key, keys[1..], batch)
  }

  function Batches(items: seq<Item>, batch: nat, key: Option<string>): seq<seq<Item>>
    requires batch > 0
  {
    if key.None? then ChunksFrom(items, 0, batch)
    else ChunkedGroups(items, key.value, GroupKeys(items, key.value), batch)
  }

  /** The order in which the batches of a foreach present its items. */
  function BatchOrder(items: seq<Item>, key: Option<string>): seq<Item> {
    if key.None? then items else Grouped(items, key.value, GroupKeys(items, key.value))
  }

  lemma GroupsOfOneMore(items: seq<Item>, i: nat, key: string, k: string)
    requires i < |items|
    ensures GroupKeys(items[..i + 1], key) ==
            if GroupKey(items[i], key) in GroupKeys(items[..i], key) then GroupKeys(items[..i], key)
            else GroupKeys(items[..i], key) + [GroupKey(items[i], key)]
    ensures Group(items[..i + 1], key, k) ==
            if GroupKey(items[i], key) == k then Group(items[..i], key, k) + [items[i]] else Group(items[..i], key, k)
  {
    assert items[..i + 1][..i] == items[..i];
  }

  ghost predicate GroupsOf(groups: map<string, seq<Item>>, keys: seq<string>, items: seq<Item>, key: string) {
    && keys == GroupKeys(items, key)
    && (forall k :: k in groups <==> k in keys)
    && (forall k :: Group(items, key, k) == if k in groups then groups[k] else [])
  }

  /** The groups by key, in the order of their first item. */
  method GroupItems(items: seq<Item>, key: string) returns (keys: seq<string>, groups: map<string, seq<Item>>)
    ensures GroupsOf(groups, keys, items, key)
  {
    keys, groups := [], map[];
    for i := 0 to |items|
      invariant GroupsOf(groups, keys, items[..i], key)
    {
      forall k {
        GroupsOfOneMore(items, i, key, k);
      }
      var k := GroupKey(items[i], key);
      if k !in groups {
        groups := groups[k := []];
        keys := keys + [k];
      }
      groups := groups[k := groups[k] + [items[i]]];
    }
    assert items[..|items|] == items;
  }

  /** Group by `key` first when there is one, then cut each group into batches. */
  method Partition(items: seq<Item>, batch: nat, key: Option<string>) returns (out: seq<seq<Item>>)
    requires batch > 0
    ensures out == Batches(items, batch, key)
  {
    if key.None? {
      out := Chunk(items, batch);
      return;
    }
    var keys, groups := GroupItems(items, key.value);
    ghost var all := Batches(items, batch, key);
    out := [];
    for i := 0 to |keys|
      invariant out + ChunkedGroups(items, key.value, keys[i..], batch) == all
    {
      var chunks := Chunk(groups[keys[i]], batch);
      ChunkedGroupsFrom(items, key.value, keys, i, batch);
      Associative(out, chunks, ChunkedGroups(items, key.value, keys[i + 1..], batch));
      out := out + chunks;
    }
  }

  lemma ChunkedGroupsFrom(items: seq<Item>, key: string, keys: seq<string>, i: nat, batch: nat)
    requires batch > 0 && i < |keys|
    ensures ChunkedGroups(items, key, keys[i..], batch) ==
            ChunksFrom(Group(items, key, keys[i]), 0, batch) + ChunkedGroups(items, key, keys[i + 1..], batch)
  {
    assert keys[i..][1..] == keys[i + 1..];
  }

  lemma {:induction false} ChunkedGroupsCut(items: seq<Item>, key: string, keys: seq<string>, batch: nat)
    requires batch > 0
    ensures Flat(ChunkedGroups(items, key, keys, batch)) == Grouped(items, key, keys)
    ensures WithinSize(ChunkedGroups(items, key, keys, batch), batch)
    decreases |keys|
  {
    if keys != [] {
      ChunksCut(Group(items, key, keys[0]), 0, batch);
      ChunkedGroupsCut(items, key, keys[1..], batch);
      FlatAppend(ChunksFrom(Group(items, key, keys[0]), 0, batch), ChunkedGroups(items, key, keys[1..], batch));
    }
  }

  lemma {:induction false} GroupCount(items: seq<Item>, key: string, k: string, x: Item)
    ensures multiset(Group(items, key, k))[x] == if GroupKey(x, key) == k then multiset(items)[x] else 0
    decreases |items|
  {
    if items != [] {
      assert items == items[..|items| - 1] + [items[|items| - 1]];
      GroupCount(items[..|items| - 1], key, k, x);
    }
  }

  lemma {:induction false} GroupedCount(items: seq<Item>, key: string, keys: seq<string>, x: Item)
    requires forall i, j :: 0 <= i < j < |keys| ==> keys[i] != keys[j]
    ensures multiset(Grouped(items, key, keys))[x] == if GroupKey(x, key) in keys then multiset(items)[x] else 0
    decreases |keys|
  {
    if keys != [] {
      GroupCount(items, key, keys[0], x);
      GroupedCount(items, key, keys[1..], x);
      assert keys == [keys[0]] + keys[1..];
    }
  }

  lemma {:induction false} GroupKeysCover(items: seq<Item>, key: string)
    ensures forall i, j :: 0 <= i < j < |GroupKeys(items, key)| ==> GroupKeys(items, key)[i] != GroupKeys(items, key)[j]
    ensures forall x :: x in items ==> GroupKey(x, key) in GroupKeys(items, key)
    decreases |items|
  {
    if items != [] {
      GroupKeysCover(items[..|items| - 1], key);
      assert items == items[..|items| - 1] + [items[|items| - 1]];
    }
  }

  /** The batches present every item once, group after group, in pieces of at most `batch`. */
  lemma BatchesRefineSource(items: seq<Item>, batch: nat, key: Option<string>)
    requires batch > 0
    ensures Flat(Batches(items, batch, key)) == BatchOrder(items, key)
    ensures WithinSize(Batches(items, batch, key), batch)
    ensures multiset(BatchOrder(items, key)) == multiset(items)
  {
    if key.None? {
      ChunksCut(items, 0, batch);
    } else {
      ChunkedGroupsCut(items, key.value, GroupKeys(items, key.value), batch);
      GroupKeysCover(items, key.value);
      forall x: Item
        ensures multiset(BatchOrder(items, key))[x] == multiset(items)[x]
      {
        GroupedCount(items, key.value, GroupKeys(items, key.value), x);
        assert x in items <==> x in multiset(items);
      }
    }
  }

  // ----- Routes -----

  predicate RouteMatches(when: Option<When>, item: Item) {
    when.None? ||
    var w := when.value;
    && (w.sizeBelow.Some? ==> item.size.Some? && item.size.value < w.sizeBelow.value)
    && (w.status.Some? ==> item.status in w.status.value)
    && (w.minAttempts.Some? ==> item.attempts >= w.minAttempts.value)
    && (w.maxAttempts.Some? ==> item.attempts <= w.maxAttempts.value)
  }

  /** The first route, in order, whose predicate matches the item. */
  function FirstMatch(routes: seq<Route>, item: Item): (index: Option<nat>)
    ensures index.Some? ==>
      && index.value < |routes| && RouteMatches(routes[index.value].when, item)
      && forall j :: 0 <= j < index.value ==> !RouteMatches(routes[j].when, item)
    ensures index.None? ==> forall j :: 0 <= j < |routes| ==> !RouteMatches(routes[j].when, item)
  {
    if routes == [] then None
    else if RouteMatches(routes[0].when, item) then Some(0)
    else
      var rest := FirstMatch(routes[1..], item);
      if rest.None? then None else Some(rest.value + 1)
  }

  method MatchRoute(routes: seq<Route>, item: Item) returns (index: Option<nat>)
    ensures index == FirstMatch(routes, item)
  {
    for i := 0 to |routes|
      invariant forall j :: 0 <= j < i ==> !RouteMatches(routes[j].when, item)
    {
      if RouteMatches(routes[i].when, item) {
        return Some(i);
      }
    }
    return None;
  }

  /** Every route target in `steps`, nested foreach bodies included. */
  function RouteTargets(steps: seq<Step>): seq<string> {
    if steps == [] then []
    else
      (if steps[0].Foreach? then TargetsOf(steps[0].onReject) + RouteTargets(steps[0].steps) else [])
      + RouteTargets(steps[1..])
  }

  function TargetsOf(routes: seq<Route>): seq<string> {
    if routes == [] then [] else [routes[0].to] + TargetsOf(routes[1..])
  }

  /** The collection, pushing onto the caller's list. */
  method CollectRouteTargets(steps: seq<Step>, out0: seq<string>) returns (out: seq<string>)
    ensures out == out0 + RouteTargets(steps)
    decreases steps
  {
    out := out0;
    for i := 0 to |steps|
      invariant out + RouteTargets(steps[i..]) == out0 + RouteTargets(steps)
    {
      assert steps[i..][1..] == steps[i + 1..];
      ghost var entering := out;
      if steps[i].Foreach? {
        var routes := steps[i].onReject;
        ghost var before := out;
        for j := 0 to |routes|
          invariant out + TargetsOf(routes[j..]) == before + TargetsOf(routes)
        {
          assert routes[j..][1..] == routes[j + 1..];
          out := out + [routes[j].to];
        }
        assert routes[|routes|..] == [];
        assert out == before + TargetsOf(routes);
        out := CollectRouteTargets(steps[i].steps, out);
        assert out == entering + (TargetsOf(steps[i].onReject) + RouteTargets(steps[i].steps));
      }
      assert out + RouteTargets(steps[i + 1..]) == entering + RouteTargets(steps[i..]);
    }
  }

  lemma {:induction false} TargetsOfRoute(routes: seq<Route>, i: nat)
    requires i < |routes|
    ensures routes[i].to in TargetsOf(routes)
  {
    if i > 0 {
      TargetsOfRoute(routes[1..], i - 1);
    }
  }

  /** The targets of a foreach, and of its body, are among those of the steps it belongs to. */
  lemma {:induction false} RouteTargetsOfStep(steps: seq<Step>, i: nat)
    requires i < |steps| && steps[i].Foreach?
    ensures forall t :: t in TargetsOf(steps[i].onReject) ==> t in RouteTargets(steps)
    ensures forall t :: t in RouteTargets(steps[i].steps) ==> t in RouteTargets(steps)
    decreases i
  {
    if i > 0 {
      RouteTargetsOfStep(steps[1..], i - 1);
    }
  }
}
