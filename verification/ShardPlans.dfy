/** Shard plans: one per shard, and the check that a set of them covers the collection. */
module ShardPlans {
  import opened Options
  import opened ShardOrder
  import opened ShardPlanner

  const SCHEMA_VERSION := 2

  datatype Plan = Plan(version: int, index: int, count: int, items: seq<Item>, weights: map<string, int>,
        files: seq<string>)

  /** `make_plan`; None stands for a ValueError. */
  function MakePlan(items: seq<Item>, index: int, count: int, weights: map<string, int>,
        scoped: Item -> bool): (p: Option<Plan>)
    ensures p.Some? ==>
              0 <= index < count && p.value.index == index && p.value.count == count && p.value.weights == weights
  {
    var shards := PartitionOf(items, count, weights, scoped);
    if shards.None? || !(0 <= index < count) || index >= |shards.value| then None
    else Some(Plan(SCHEMA_VERSION, index, count, Sort(items, ItemBelow), weights, shards.value[index]))
  }

  predicate ValidPlan(p: Plan, scoped: Item -> bool) {
    p.version == SCHEMA_VERSION && MakePlan(p.items, p.index, p.count, p.weights, scoped) == Some(p)
  }

  function AllFiles(plans: seq<Plan>): seq<string> {
    if plans == [] then [] else AllFiles(plans[..|plans| - 1]) + plans[|plans| - 1].files
  }

  predicate Contains(plans: seq<Plan>, index: int) {
    exists j :: 0 <= j < |plans| && plans[j].index == index
  }

  /** `verify_plans`: true where it raises nothing. */
  predicate VerifyPlans(plans: seq<Plan>, count: int, weights: Option<map<string, int>>, scoped: Item -> bool) {
    && count >= 1 && |plans| == count
    && (forall j :: 0 <= j < |plans| ==> ValidPlan(plans[j], scoped))
    && (weights.Some? ==> ValidWeights(weights.value) && plans[0].weights == weights.value)
    && (forall i :: 0 <= i < count ==> Contains(plans, i))
        && (forall j :: 0 <= j < |plans| ==> 0 <= plans[j].index < count)
    && (forall j :: 0 <= j < |plans| ==>
          plans[j].count == count && plans[j].items == plans[0].items && plans[j].weights == plans[0].weights)
    && FilesMatch(AllFiles(plans), plans[0].items)
  }

  /** No file is listed twice, and the files listed are those of the collected tests. */
  predicate FilesMatch(files: seq<string>, items: seq<Item>) {
    && Distinct(files)
    && (forall k :: 0 <= k < |files| ==> HasTests(items, files[k]))
    && (forall i :: 0 <= i < |items| ==> items[i].file in files)
  }

  /** The plans of every shard, in order. */
  ghost function PlansOf(items: seq<Item>, count: nat, weights: map<string, int>,
        scoped: Item -> bool): (plans: seq<Plan>)
    requires PartitionOf(items, count, weights, scoped).Some?
             && |PartitionOf(items, count, weights, scoped).value| == count
    ensures |plans| == count
    ensures forall i :: 0 <= i < count ==> MakePlan(items, i, count, weights, scoped) == Some(plans[i])
  {
    seq(count, i requires 0 <= i < count => MakePlan(items, i, count, weights, scoped).value)
  }

  /** Exactly the plans of all shards of one collection and one set of weights, in any order. */
  ghost predicate FullSetOf(plans: seq<Plan>, items: seq<Item>, ws: map<string, int>, count: int,
        scoped: Item -> bool) {
    && PartitionOf(items, count, ws, scoped).Some? && |PartitionOf(items, count, ws, scoped).value| == count
    && multiset(plans) == multiset(PlansOf(items, count, ws, scoped))
  }

  ghost predicate FullSet(plans: seq<Plan>, count: int, weights: Option<map<string, int>>, scoped: Item -> bool) {
    exists items, ws :: FullSetOf(plans, items, ws, count, scoped) && (weights.Some? ==> ws == weights.value)
  }

  lemma {:induction false} PlansDistinct(items: seq<Item>, count: nat, ws: map<string, int>, scoped: Item -> bool)
    requires PartitionOf(items, count, ws, scoped).Some? && |PartitionOf(items, count, ws, scoped).value| == count
    ensures Distinct(PlansOf(items, count, ws, scoped))
  {
  }

  // ---- Indices ----

  function IndicesOf(plans: seq<Plan>): (out: seq<int>)
    ensures |out| == |plans| && forall j :: 0 <= j < |plans| ==> out[j] == plans[j].index
  {
    seq(|plans|, j requires 0 <= j < |plans| => plans[j].index)
  }

  function Without(s: seq<int>, at: nat): (rest: seq<int>)
    requires at < |s|
    ensures |rest| == |s| - 1
  {
    s[..at] + s[at + 1..]
  }

  lemma WithoutKeeps(s: seq<int>, at: nat, x: int)
    requires at < |s| && x in s && x != s[at]
    ensures x in Without(s, at)
  {
    var k :| 0 <= k < |s| && s[k] == x;
    assert Without(s, at)[if k < at then k else k - 1] == x;
  }

  lemma WithoutIsDistinct(s: seq<int>, at: nat)
    requires at < |s| && Distinct(Without(s, at)) && s[at] !in Without(s, at)
    ensures Distinct(s)
  {
    var rest := Without(s, at);
    forall i, j | 0 <= i < j < |s|
      ensures s[i] != s[j]
    {
      if i == at { assert rest[j - 1] == s[j]; }
      else if j == at { assert rest[i] == s[i]; }
      else { assert rest[if i < at then i else i - 1] == s[i] && rest[if j < at then j else j - 1] == s[j]; }
    }
  }

  /** n numbers that include each of 0..n-1 repeat none. */
  lemma {:induction false} CoveringIsDistinct(s: seq<int>, n: nat)
    requires |s| == n && forall i :: 0 <= i < n ==> i in s
    ensures Distinct(s) && forall x :: x in s ==> 0 <= x < n
    decreases n
  {
    if n > 0 {
      assert n - 1 in s;
      var at :| 0 <= at < |s| && s[at] == n - 1;
      var rest := Without(s, at);
      forall i | 0 <= i < n - 1
        ensures i in rest
      {
        WithoutKeeps(s, at, i);
      }
      CoveringIsDistinct(rest, n - 1);
      WithoutIsDistinct(s, at);
      forall x | x in s && x != n - 1
        ensures 0 <= x < n
      {
        WithoutKeeps(s, at, x);
      }
    }
  }

  // ---- Accepted plans are a full set ----

  /** Each plan is the one of its own index. */
  ghost predicate ByIndex(plans: seq<Plan>, all: seq<Plan>) {
    forall j :: 0 <= j < |plans| ==> 0 <= plans[j].index < |all| && plans[j] == all[plans[j].index]
  }

  lemma {:induction false} ContainsAll(plans: seq<Plan>, n: nat)
    requires |plans| == n && forall i :: 0 <= i < n ==> Contains(plans, i)
    ensures forall i, j :: 0 <= i < j < |plans| ==> plans[i].index != plans[j].index
  {
    var indices := IndicesOf(plans);
    forall i | 0 <= i < n
      ensures i in indices
    {
      assert Contains(plans, i);
      var j :| 0 <= j < |plans| && plans[j].index == i;
      assert indices[j] == i;
    }
    CoveringIsDistinct(indices, n);
    assert forall i, j :: 0 <= i < j < |plans| ==> indices[i] != indices[j];
  }

  /** One plan of every index, each the right one, is a rearrangement of them all. */
  lemma {:induction false} RearrangesAll(plans: seq<Plan>, all: seq<Plan>)
    requires |plans| == |all| && ByIndex(plans, all) && Distinct(all)
    requires forall i :: 0 <= i < |all| ==> Contains(plans, i)
    ensures multiset(plans) == multiset(all)
  {
    ContainsAll(plans, |all|);
    assert Distinct(plans);
    forall i | 0 <= i < |all|
      ensures all[i] in plans
    {
      assert Contains(plans, i);
      var j :| 0 <= j < |plans| && plans[j].index == i;
    }
    DistinctSameMembers(plans, all);
  }

  lemma {:induction false} AcceptedIsFull(plans: seq<Plan>, count: int, weights: Option<map<string, int>>,
        scoped: Item -> bool)
    requires VerifyPlans(plans, count, weights, scoped)
    ensures FullSet(plans, count, weights, scoped)
  {
    var items, ws := plans[0].items, plans[0].weights;
    assert ValidPlan(plans[0], scoped);
    PartitionCovers(items, count, ws, scoped);
    var all := PlansOf(items, count, ws, scoped);
    assert ByIndex(plans, all) by { AcceptedByIndex(plans, count, weights, scoped, all); }
    PlansDistinct(items, count, ws, scoped);
    RearrangesAll(plans, all);
    assert FullSetOf(plans, items, ws, count, scoped);
  }

  lemma {:induction false} AcceptedByIndex(plans: seq<Plan>, count: int, weights: Option<map<string, int>>,
        scoped: Item -> bool, all: seq<Plan>)
    requires VerifyPlans(plans, count, weights, scoped) && |all| == count
    requires forall i :: 0 <= i < count ==> MakePlan(plans[0].items, i, count, plans[0].weights, scoped) == Some(all[i])
    ensures ByIndex(plans, all)
  {
    forall j | 0 <= j < |plans|
      ensures 0 <= plans[j].index < |all| && plans[j] == all[plans[j].index]
    {
      assert ValidPlan(plans[j], scoped);
    }
  }

  // ---- A full set is accepted ----

  lemma {:induction false} SortedItemsPlanTheSame(items: seq<Item>, count: int, ws: map<string, int>,
        scoped: Item -> bool)
    requires ValidItems(items, scoped)
    ensures var sorted := Sort(items, ItemBelow);
            PartitionOf(sorted, count, ws, scoped) == PartitionOf(items, count, ws, scoped)
                && Sort(sorted, ItemBelow) == sorted
  {
    var sorted := Sort(items, ItemBelow);
    PartitionForgetsOrder(sorted, items, count, ws, scoped);
    ItemBelowIsStrict();
    ValidItemsDistinct(items, scoped);
    SortAscends(items, ItemBelow);
    SortKeepsAscending(sorted, ItemBelow);
  }

  /** Each of the first n plans lists its files once, and no two share a file. */
  ghost predicate Apart(plans: seq<Plan>, n: nat)
    requires n <= |plans|
  {
    && (forall j :: 0 <= j < n ==> Distinct(plans[j].files))
    && (forall i, j, f :: 0 <= i < j < n && f in plans[i].files ==> f !in plans[j].files)
  }

  lemma {:induction false} FilesIn(plans: seq<Plan>, n: nat)
    requires n <= |plans|
    ensures forall f :: f in AllFiles(plans[..n]) <==> exists j :: 0 <= j < n && f in plans[j].files
    ensures Apart(plans, n) ==> Distinct(AllFiles(plans[..n]))
  {
    if n > 0 {
      FilesIn(plans, n - 1);
      assert plans[..n][..n - 1] == plans[..n - 1];
      if Apart(plans, n) {
        DistinctConcat(AllFiles(plans[..n - 1]), plans[n - 1].files);
      }
    }
  }

  /** A rearrangement of all plans has each of them, at its own index. */
  lemma {:induction false} RearrangedByIndex(plans: seq<Plan>, all: seq<Plan>)
    requires multiset(plans) == multiset(all) && Distinct(all) && forall i :: 0 <= i < |all| ==> all[i].index == i
    ensures |plans| == |all| && ByIndex(plans, all) && Distinct(plans)
    ensures forall i :: 0 <= i < |all| ==> Contains(plans, i)
  {
    SameMembers(plans, all);
    assert |multiset(plans)| == |multiset(all)|;
    DistinctForgetsOrder(all, plans);
    forall j | 0 <= j < |plans|
      ensures 0 <= plans[j].index < |all| && plans[j] == all[plans[j].index]
    {
      assert plans[j] in all;
      var i :| 0 <= i < |all| && all[i] == plans[j];
    }
    forall i | 0 <= i < |all|
      ensures Contains(plans, i)
    {
      assert all[i] in plans;
      var j :| 0 <= j < |plans| && plans[j] == all[i];
    }
  }

  lemma {:induction false} MadePlanIsValid(items: seq<Item>, index: int, count: int, ws: map<string, int>,
        scoped: Item -> bool, p: Plan)
    requires ValidItems(items, scoped) && MakePlan(items, index, count, ws, scoped) == Some(p)
    ensures ValidPlan(p, scoped)
  {
    SortedItemsPlanTheSame(items, count, ws, scoped);
  }

  /** What a full set of plans holds, plan by plan. */
  lemma {:induction false} FullSetPlans(plans: seq<Plan>, items: seq<Item>, ws: map<string, int>, count: int,
        scoped: Item -> bool)
    requires FullSetOf(plans, items, ws, count, scoped)
    ensures |plans| == count >= 1
    ensures forall j :: 0 <= j < |plans| ==>
              0 <= plans[j].index < count && MakePlan(items, plans[j].index, count, ws, scoped) == Some(plans[j])
                  && ValidPlan(plans[j], scoped)
    ensures forall i :: 0 <= i < count ==> Contains(plans, i)
    ensures forall i, j :: 0 <= i < j < |plans| ==> plans[i].index != plans[j].index
  {
    var all := PlansOf(items, count, ws, scoped);
    PlansDistinct(items, count, ws, scoped);
    RearrangedByIndex(plans, all);
    PartitionSucceedsExactly(items, count, ws, scoped);
    forall j | 0 <= j < |plans|
      ensures 0 <= plans[j].index < count && MakePlan(items, plans[j].index, count, ws, scoped) == Some(plans[j])
              && ValidPlan(plans[j], scoped)
    {
      MadePlanIsValid(items, plans[j].index, count, ws, scoped, plans[j]);
    }
  }

  lemma {:induction false} FullSetApart(plans: seq<Plan>, items: seq<Item>, shards: seq<seq<string>>)
    requires Covers(shards, items)
    requires forall j :: 0 <= j < |plans| ==> 0 <= plans[j].index < |shards| && plans[j].files == shards[plans[j].index]
    requires forall i, j :: 0 <= i < j < |plans| ==> plans[i].index != plans[j].index
    ensures Apart(plans, |plans|)
  {
    BelowIsStrict();
    forall j | 0 <= j < |plans|
      ensures Distinct(plans[j].files)
    {
      AscendingIsDistinct(shards[plans[j].index], Below);
    }
  }

  lemma {:induction false} FullSetFiles(plans: seq<Plan>, items: seq<Item>, shards: seq<seq<string>>)
    requires Covers(shards, items)
    requires forall j :: 0 <= j < |plans| ==> 0 <= plans[j].index < |shards| && plans[j].files == shards[plans[j].index]
    requires forall i, j :: 0 <= i < j < |plans| ==> plans[i].index != plans[j].index
    requires forall i :: 0 <= i < |shards| ==> Contains(plans, i)
    ensures Distinct(AllFiles(plans)) && forall f :: f in AllFiles(plans) <==> HasTests(items, f)
  {
    FullSetApart(plans, items, shards);
    FilesIn(plans, |plans|);
    assert plans[..|plans|] == plans;
    forall f | HasTests(items, f)
      ensures f in AllFiles(plans)
    {
      var x :| 0 <= x < |shards| && f in shards[x];
      assert Contains(plans, x);
      var j :| 0 <= j < |plans| && plans[j].index == x;
      assert f in plans[j].files;
    }
  }

  lemma {:induction false} FullSetChecks(files: seq<string>, items: seq<Item>, sorted: seq<Item>)
    requires multiset(sorted) == multiset(items) && Distinct(files) && forall f :: f in files <==> HasTests(items, f)
    ensures FilesMatch(files, sorted)
  {
    SameMembers(sorted, items);
    forall k | 0 <= k < |files|
      ensures HasTests(sorted, files[k])
    {
      assert HasTests(items, files[k]);
      var i :| 0 <= i < |items| && items[i].file == files[k];
      assert items[i] in sorted;
    }
    forall i | 0 <= i < |sorted|
      ensures sorted[i].file in files
    {
      assert sorted[i] in items;
      assert HasTests(items, sorted[i].file);
    }
  }

  lemma {:induction false} FullSetMatches(plans: seq<Plan>, items: seq<Item>, ws: map<string, int>, count: int,
        scoped: Item -> bool)
    requires FullSetOf(plans, items, ws, count, scoped)
    ensures plans != [] && FilesMatch(AllFiles(plans), plans[0].items)
  {
    FullSetPlans(plans, items, ws, count, scoped);
    PartitionCovers(items, count, ws, scoped);
    FullSetFiles(plans, items, PartitionOf(items, count, ws, scoped).value);
    assert plans[0].items == Sort(items, ItemBelow);
    FullSetChecks(AllFiles(plans), items, plans[0].items);
  }

  lemma {:induction false} FullSetShape(plans: seq<Plan>, items: seq<Item>, ws: map<string, int>, count: int,
        scoped: Item -> bool)
    requires FullSetOf(plans, items, ws, count, scoped)
    ensures |plans| == count >= 1 && ValidWeights(ws) && forall i :: 0 <= i < count ==> Contains(plans, i)
    ensures forall j :: 0 <= j < |plans| ==> ValidPlan(plans[j], scoped) && 0 <= plans[j].index < count
    ensures forall j :: 0 <= j < |plans| ==>
              plans[j].count == count && plans[j].items == Sort(items, ItemBelow) && plans[j].weights == ws
  {
    FullSetPlans(plans, items, ws, count, scoped);
    PartitionSucceedsExactly(items, count, ws, scoped);
  }

  lemma {:induction false} FullIsAccepted(plans: seq<Plan>, count: int, weights: Option<map<string, int>>,
        scoped: Item -> bool)
    requires FullSet(plans, count, weights, scoped)
    ensures VerifyPlans(plans, count, weights, scoped)
  {
    var items: seq<Item>, ws: map<string, int> :| FullSetOf(plans, items, ws, count, scoped)
        && (weights.Some? ==> ws == weights.value);
    FullSetMatches(plans, items, ws, count, scoped);
    FullSetShape(plans, items, ws, count, scoped);
  }

  /** The verifier accepts exactly the full set of plans of one collection, in any order. */
  lemma {:induction false} AcceptsExactlyFullSets(plans: seq<Plan>, count: int, weights: Option<map<string, int>>,
        scoped: Item -> bool)
    ensures VerifyPlans(plans, count, weights, scoped) <==> FullSet(plans, count, weights, scoped)
  {
    if VerifyPlans(plans, count, weights, scoped) { AcceptedIsFull(plans, count, weights, scoped); }
    if FullSet(plans, count, weights, scoped) { FullIsAccepted(plans, count, weights, scoped); }
  }
}
