/** Splitting collected test files into shards: whole files, heaviest first, each to the lightest shard. */
module ShardPlanner {
  import opened Options
  import opened ShardOrder
  import opened ShardBalance

  const DEFAULT_TEST_MS := 500

  datatype Item = Item(file: string, nodeid: string)

  predicate ItemBelow(a: Item, b: Item) {
    Below(a.nodeid, b.nodeid) || (a.nodeid == b.nodeid && Below(a.file, b.file))
  }

  /** A non-empty collection of distinct, in-scope tests. */
  predicate ValidItems(items: seq<Item>, scoped: Item -> bool) {
    && items != [] && (forall i :: 0 <= i < |items| ==> scoped(items[i]))
    && (forall i, j :: 0 <= i < j < |items| ==> items[i].nodeid != items[j].nodeid)
  }

  predicate ValidWeights(weights: map<string, int>) {
    forall f :: f in weights ==> weights[f] >= 0
  }

  /** The files of the first n tests, in order of first appearance. */
  function FilesTo(items: seq<Item>, n: nat): (out: seq<string>)
    requires n <= |items|
    ensures Distinct(out)
    ensures forall f :: f in out <==> exists i :: 0 <= i < n && items[i].file == f
  {
    if n == 0 then []
    else
      var rest := FilesTo(items, n - 1);
      if items[n - 1].file in rest then rest else rest + [items[n - 1].file]
  }

  function FilesOf(items: seq<Item>): seq<string> {
    FilesTo(items, |items|)
  }

  function TestsIn(items: seq<Item>, file: string, n: nat): nat
    requires n <= |items|
  {
    if n == 0 then 0 else TestsIn(items, file, n - 1) + if items[n - 1].file == file then 1 else 0
  }

  /** Every cost is at least 1. */
  function CostOf(items: seq<Item>, weights: map<string, int>): (cost: string -> nat)
    ensures forall f :: cost(f) > 0
  {
    (file: string) =>
      var ms := if file in weights then weights[file] else TestsIn(items, file, |items|) * DEFAULT_TEST_MS;
      if ms < 1 then 1 else ms
  }

  function Heavier(cost: string -> nat): (string, string) -> bool {
    (a: string, b: string) => cost(a) > cost(b) || (cost(a) == cost(b) && Below(a, b))
  }

  /** Files by descending cost, then by name. */
  function Order(items: seq<Item>, cost: string -> nat): seq<string> {
    Sort(FilesOf(items), Heavier(cost))
  }

  function Costs(files: seq<string>, cost: string -> nat): (c: seq<nat>)
    ensures |c| == |files| && forall i :: 0 <= i < |files| ==> c[i] == cost(files[i])
  {
    seq(|files|, i requires 0 <= i < |files| => cost(files[i]))
  }

  /** The shards after the first k files. */
  function Shards(files: seq<string>, c: seq<nat>, m: nat, k: nat): (shards: seq<seq<string>>)
    requires m > 0 && k <= |files| == |c|
    ensures |shards| == m
  {
    if k == 0 then seq(m, _ => [])
    else
      var before, x := Shards(files, c, m, k - 1), Slot(c, m, k - 1);
      before[x := before[x] + [files[k - 1]]]
  }

  function SortEach(shards: seq<seq<string>>): (out: seq<seq<string>>)
    ensures |out| == |shards| && forall x :: 0 <= x < |shards| ==> out[x] == Sort(shards[x], Below)
  {
    seq(|shards|, x requires 0 <= x < |shards| => Sort(shards[x], Below))
  }

  predicate NoneEmpty(shards: seq<seq<string>>) {
    forall x :: 0 <= x < |shards| ==> shards[x] != []
  }

  function Planned(items: seq<Item>, count: nat, weights: map<string, int>): seq<seq<string>>
    requires count > 0
  {
    var files := Order(items, CostOf(items, weights));
    Shards(files, Costs(files, CostOf(items, weights)), count, |files|)
  }

  /** `partition`; None stands for a ValueError. */
  function PartitionOf(items: seq<Item>, count: int, weights: map<string, int>,
        scoped: Item -> bool): Option<seq<seq<string>>> {
    if !ValidItems(items, scoped) || !ValidWeights(weights) then None
    else
      var sorted := Sort(items, ItemBelow);
      if !(1 <= count <= |FilesOf(sorted)|) then None
      else if !NoneEmpty(Planned(sorted, count, weights)) then None
      else Some(SortEach(Planned(sorted, count, weights)))
  }

  // ---- The loop ----

  method FindLightest(loads: seq<nat>) returns (index: nat)
    requires loads != []
    ensures index == Lightest(loads, |loads|)
  {
    index := 0;
    for n := 1 to |loads|
      invariant index == Lightest(loads, n)
    {
      if loads[n] < loads[index] { index := n; }
    }
  }

  method Allocate(files: seq<string>, c: seq<nat>, m: nat) returns (shards: seq<seq<string>>, loads: seq<nat>)
    requires m > 0 && |files| == |c|
    ensures shards == Shards(files, c, m, |files|) && loads == Loads(c, m, |files|)
  {
    shards, loads := seq(m, _ => []), seq(m, _ => 0);
    for k := 0 to |files|
      invariant shards == Shards(files, c, m, k) && loads == Loads(c, m, k)
    {
      var index := FindLightest(loads);
      shards := shards[index := shards[index] + [files[k]]];
      loads := loads[index := loads[index] + c[k]];
    }
  }

  method Partition(items: seq<Item>, count: int, weights: map<string, int>, scoped: Item -> bool)
    returns (r: Option<seq<seq<string>>>)
    ensures r == PartitionOf(items, count, weights, scoped)
  {
    if !ValidItems(items, scoped) || !ValidWeights(weights) { return None; }
    var sorted := Sort(items, ItemBelow);
    if !(1 <= count <= |FilesOf(sorted)|) { return None; }
    var cost := CostOf(sorted, weights);
    var files := Order(sorted, cost);
    var shards, loads := Allocate(files, Costs(files, cost), count);
    if !NoneEmpty(shards) { return None; }
    return Some(SortEach(shards));
  }

  // ---- Orders ----

  lemma ItemBelowIsStrict()
    ensures StrictOrder(ItemBelow)
  {
    BelowIsStrict();
  }

  lemma HeavierIsStrict(cost: string -> nat)
    ensures StrictOrder(Heavier(cost))
  {
    BelowIsStrict();
  }

  lemma ValidItemsDistinct(items: seq<Item>, scoped: Item -> bool)
    requires ValidItems(items, scoped)
    ensures Distinct(items)
  {
  }

  lemma OrderDescends(items: seq<Item>, cost: string -> nat)
    ensures var files := Order(items, cost);
            Distinct(files) && Descending(Costs(files, cost)) && |files| == |FilesOf(items)|
                && forall f :: f in files <==> f in FilesOf(items)
  {
    var files := Order(items, cost);
    HeavierIsStrict(cost);
    SortAscends(FilesOf(items), Heavier(cost));
    SameMembers(files, FilesOf(items));
    AscendingIsDistinct(files, Heavier(cost));
    forall i, j | 0 <= i < j < |files|
      ensures Costs(files, cost)[i] >= Costs(files, cost)[j]
    {
      assert Heavier(cost)(files[i], files[j]);
    }
  }

  // ---- Every file in exactly one shard ----

  /** Among the first k files, shard x holds exactly those sent to it, in order. */
  lemma {:induction false} ShardHolds(files: seq<string>, c: seq<nat>, m: nat, k: nat, x: nat)
    requires m > 0 && k <= |files| == |c| && x < m && Distinct(files)
    ensures forall f :: f in Shards(files, c, m, k)[x] <==>
              exists i :: 0 <= i < k && files[i] == f && Slot(c, m, i) == x
    ensures Distinct(Shards(files, c, m, k)[x])
  {
    if k > 0 {
      ShardHolds(files, c, m, k - 1, x);
      var before := Shards(files, c, m, k - 1)[x];
      if Slot(c, m, k - 1) == x {
        assert files[k - 1] !in before;
        assert Shards(files, c, m, k)[x] == before + [files[k - 1]];
      }
    }
  }

  lemma NoShardIsEmpty(files: seq<string>, c: seq<nat>, m: nat)
    requires 0 < m <= |files| == |c| && Distinct(files) && forall i :: 0 <= i < |c| ==> c[i] > 0
    ensures NoneEmpty(Shards(files, c, m, |files|))
  {
    forall x | 0 <= x < m
      ensures Shards(files, c, m, |files|)[x] != []
    {
      FirstOnesSpread(c, m, x);
      ShardHolds(files, c, m, |files|, x);
      assert files[x] in Shards(files, c, m, |files|)[x];
    }
  }

  /** A partition is refused exactly for invalid input or a count that would leave a shard empty. */
  lemma PartitionSucceedsExactly(items: seq<Item>, count: int, weights: map<string, int>, scoped: Item -> bool)
    ensures PartitionOf(items, count, weights, scoped).Some? <==>
            ValidItems(items, scoped) && ValidWeights(weights) && 1 <= count <= |FilesOf(Sort(items, ItemBelow))|
  {
    var sorted := Sort(items, ItemBelow);
    if ValidItems(items, scoped) && ValidWeights(weights) && 1 <= count <= |FilesOf(sorted)| {
      var cost := CostOf(sorted, weights);
      OrderDescends(sorted, cost);
      NoShardIsEmpty(Order(sorted, cost), Costs(Order(sorted, cost), cost), count);
    }
  }

  /** Some test of the collection is in the file. */
  predicate HasTests(items: seq<Item>, file: string) {
    exists i :: 0 <= i < |items| && items[i].file == file
  }

  ghost predicate Covers(shards: seq<seq<string>>, items: seq<Item>) {
    && (forall x :: 0 <= x < |shards| ==> shards[x] != [] && Ascending(shards[x], Below))
    && (forall f :: HasTests(items, f) ==> exists x :: 0 <= x < |shards| && f in shards[x])
    && (forall x, f :: 0 <= x < |shards| && f in shards[x] ==> HasTests(items, f))
    && (forall x, y, f :: 0 <= x < |shards| && 0 <= y < |shards| && f in shards[x] && f in shards[y] ==> x == y)
  }

  lemma SortedShardIs(shard: seq<string>)
    requires Distinct(shard)
    ensures Ascending(Sort(shard, Below), Below) && |Sort(shard, Below)| == |shard|
            && forall f :: f in Sort(shard, Below) <==> f in shard
  {
    BelowIsStrict();
    SortAscends(shard, Below);
    SameMembers(Sort(shard, Below), shard);
  }

  /** The greedy rule sends the file to shard x. */
  ghost predicate SentTo(files: seq<string>, c: seq<nat>, m: nat, f: string, x: nat)
    requires m > 0 && |files| == |c|
  {
    exists i :: 0 <= i < |files| && files[i] == f && Slot(c, m, i) == x
  }

  lemma SentOnce(files: seq<string>, c: seq<nat>, m: nat, f: string, x: nat, y: nat)
    requires m > 0 && |files| == |c| && Distinct(files) && SentTo(files, c, m, f, x) && SentTo(files, c, m, f, y)
    ensures x == y
  {
    var i :| 0 <= i < |files| && files[i] == f && Slot(c, m, i) == x;
    var j :| 0 <= j < |files| && files[j] == f && Slot(c, m, j) == y;
    assert i == j;
  }

  lemma SentSomewhere(files: seq<string>, c: seq<nat>, m: nat, f: string)
    requires m > 0 && |files| == |c| && f in files
    ensures exists x: nat :: x < m && SentTo(files, c, m, f, x)
  {
    var i :| 0 <= i < |files| && files[i] == f;
    assert SentTo(files, c, m, f, Slot(c, m, i));
  }

  lemma SentCovers(out: seq<seq<string>>, files: seq<string>, c: seq<nat>, items: seq<Item>)
    requires |out| > 0 && |files| == |c| && Distinct(files) && forall f :: f in files <==> HasTests(items, f)
    requires forall x :: 0 <= x < |out| ==> out[x] != [] && Ascending(out[x], Below)
    requires forall x, f :: 0 <= x < |out| ==> (f in out[x] <==> SentTo(files, c, |out|, f, x))
    ensures Covers(out, items)
  {
    forall f | HasTests(items, f)
      ensures exists x :: 0 <= x < |out| && f in out[x]
    {
      SentSomewhere(files, c, |out|, f);
      var x: nat :| x < |out| && SentTo(files, c, |out|, f, x);
      assert f in out[x];
    }
    forall x, y, f | 0 <= x < |out| && 0 <= y < |out| && f in out[x] && f in out[y]
      ensures x == y
    {
      SentOnce(files, c, |out|, f, x, y);
    }
  }

  lemma PlannedCovers(files: seq<string>, c: seq<nat>, m: nat, items: seq<Item>)
    requires 0 < m <= |files| == |c| && Distinct(files) && forall i :: 0 <= i < |c| ==> c[i] > 0
    requires forall f :: f in files <==> HasTests(items, f)
    ensures Covers(SortEach(Shards(files, c, m, |files|)), items)
  {
    var shards := Shards(files, c, m, |files|);
    var out := SortEach(shards);
    NoShardIsEmpty(files, c, m);
    forall x | 0 <= x < m
      ensures out[x] != [] && Ascending(out[x], Below) && forall f :: f in out[x] <==> SentTo(files, c, m, f, x)
    {
      ShardHolds(files, c, m, |files|, x);
      SortedShardIs(shards[x]);
    }
    SentCovers(out, files, c, items);
  }

  /** Every collected file is in exactly one shard, no shard is empty, and nothing else is in any. */
  lemma PartitionCovers(items: seq<Item>, count: int, weights: map<string, int>, scoped: Item -> bool)
    requires PartitionOf(items, count, weights, scoped).Some?
    ensures |PartitionOf(items, count, weights, scoped).value| == count
    ensures Covers(PartitionOf(items, count, weights, scoped).value, items)
  {
    var sorted := Sort(items, ItemBelow);
    var cost := CostOf(sorted, weights);
    var files := Order(sorted, cost);
    OrderDescends(sorted, cost);
    SameMembers(sorted, items);
    SameFiles(sorted, items);
    PlannedCovers(files, Costs(files, cost), count, items);
  }

  lemma SameFiles(a: seq<Item>, b: seq<Item>)
    requires forall it :: it in a <==> it in b
    ensures forall f :: f in FilesOf(a) <==> HasTests(b, f)
  {
    forall f
      ensures f in FilesOf(a) <==> HasTests(b, f)
    {
      if f in FilesOf(a) {
        var i :| 0 <= i < |a| && a[i].file == f;
        assert a[i] in b;
      }
      if HasTests(b, f) {
        var i :| 0 <= i < |b| && b[i].file == f;
        assert b[i] in a;
      }
    }
  }

  /** The order in which tests were collected does not matter. */
  lemma PartitionForgetsOrder(a: seq<Item>, b: seq<Item>, count: int, weights: map<string, int>, scoped: Item -> bool)
    requires multiset(a) == multiset(b)
    ensures PartitionOf(a, count, weights, scoped) == PartitionOf(b, count, weights, scoped)
  {
    if ValidItems(a, scoped) || ValidItems(b, scoped) {
      if ValidItems(a, scoped) { ValidityForgetsOrder(a, b, scoped); } else { ValidityForgetsOrder(b, a, scoped); }
      ItemBelowIsStrict();
      ValidItemsDistinct(a, scoped);
      ValidItemsDistinct(b, scoped);
      SortForgetsOrder(a, b, ItemBelow);
    }
  }

  lemma ValidityForgetsOrder(a: seq<Item>, b: seq<Item>, scoped: Item -> bool)
    requires multiset(a) == multiset(b) && ValidItems(a, scoped)
    ensures ValidItems(b, scoped)
  {
    SameMembers(a, b);
    ValidItemsDistinct(a, scoped);
    DistinctForgetsOrder(a, b);
    assert |multiset(a)| == |multiset(b)|;
    forall i | 0 <= i < |b|
      ensures scoped(b[i])
    {
      assert b[i] in a;
      var k :| 0 <= k < |a| && a[k] == b[i];
    }
    forall i, j | 0 <= i < j < |b|
      ensures b[i].nodeid != b[j].nodeid
    {
      assert b[i] in a && b[j] in a;
    }
  }

  // ---- Balance ----

  function ShardCost(shard: seq<string>, cost: string -> nat): nat {
    if shard == [] then 0 else cost(shard[0]) + ShardCost(shard[1..], cost)
  }

  lemma {:induction false} InsertCost(f: string, s: seq<string>, cost: string -> nat)
    ensures ShardCost(Insert(f, s, Below), cost) == cost(f) + ShardCost(s, cost)
  {
    if s == [] || Below(f, s[0]) {
      assert ([f] + s)[1..] == s;
    } else {
      InsertCost(f, s[1..], cost);
      assert Insert(f, s, Below)[1..] == Insert(f, s[1..], Below);
    }
  }

  lemma {:induction false} SortCost(s: seq<string>, cost: string -> nat)
    ensures ShardCost(Sort(s, Below), cost) == ShardCost(s, cost)
  {
    if s != [] {
      SortCost(s[1..], cost);
      InsertCost(s[0], Sort(s[1..], Below), cost);
    }
  }

  lemma {:induction false} CostAppend(s: seq<string>, f: string, cost: string -> nat)
    ensures ShardCost(s + [f], cost) == ShardCost(s, cost) + cost(f)
  {
    if s == [] {
      assert s + [f] == [f];
    } else {
      CostAppend(s[1..], f, cost);
      assert (s + [f])[1..] == s[1..] + [f];
    }
  }

  lemma {:induction false} ShardCostIsLoad(files: seq<string>, cost: string -> nat, m: nat, k: nat, x: nat)
    requires m > 0 && k <= |files| && x < m
    ensures ShardCost(Shards(files, Costs(files, cost), m, k)[x], cost) == Loads(Costs(files, cost), m, k)[x]
  {
    if k > 0 {
      ShardCostIsLoad(files, cost, m, k - 1, x);
      CostAppend(Shards(files, Costs(files, cost), m, k - 1)[x], files[k - 1], cost);
    }
  }

  /** The shard every file goes to under some other plan. */
  function Elsewhere(files: seq<string>, to: string -> nat): (at: seq<nat>)
    ensures |at| == |files| && forall i :: 0 <= i < |files| ==> at[i] == to(files[i])
  {
    seq(|files|, i requires 0 <= i < |files| => to(files[i]))
  }

  /**
   Whatever other plan sends the files to `count` shards of at most t each, no shard here exceeds (4/3 - 1/(3
   count)) t.
   */
  lemma PartitionIsNearBest(items: seq<Item>, count: int, weights: map<string, int>, scoped: Item -> bool,
        to: string -> nat, t: nat, x: nat)
    requires PartitionOf(items, count, weights, scoped).Some? && x < count
    requires var cost := CostOf(Sort(items, ItemBelow), weights);
             var files := Order(Sort(items, ItemBelow), cost);
             Fits(Elsewhere(files, to), Costs(files, cost), count, t)
    ensures var cost := CostOf(Sort(items, ItemBelow), weights);
            3 * count * ShardCost(PartitionOf(items, count, weights, scoped).value[x], cost) <= (4 * count - 1) * t
  {
    var sorted := Sort(items, ItemBelow);
    var cost := CostOf(sorted, weights);
    var files := Order(sorted, cost);
    OrderDescends(sorted, cost);
    GreedyIsNearBest(Costs(files, cost), count, Elsewhere(files, to), t, |files|);
    ShardCostIsLoad(files, cost, count, |files|, x);
    SortCost(Planned(sorted, count, weights)[x], cost);
  }
}
