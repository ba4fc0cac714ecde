/**
 Longest-processing-time-first balancing: where each cost goes, and how far the heaviest shard can be from the
 best.
 */
module ShardBalance {

  function Sum(s: seq<nat>): nat {
    if s == [] then 0 else Sum(s[..|s| - 1]) + s[|s| - 1]
  }

  /** The least loaded shard, the lowest index among equals. */
  function Lightest(loads: seq<nat>, n: nat): (x: nat)
    requires 0 < n <= |loads|
    ensures x < n
    ensures forall y :: 0 <= y < n ==> loads[x] <= loads[y]
    ensures forall y :: 0 <= y < x ==> loads[x] < loads[y]
  {
    if n == 1 then 0
    else
      var best := Lightest(loads, n - 1);
      if loads[n - 1] < loads[best] then n - 1 else best
  }

  /** Shard loads after the first k costs. */
  function Loads(c: seq<nat>, m: nat, k: nat): (loads: seq<nat>)
    requires m > 0 && k <= |c|
    ensures |loads| == m
  {
    if k == 0 then seq(m, _ => 0)
    else
      var before := Loads(c, m, k - 1);
      before[Lightest(before, m) := before[Lightest(before, m)] + c[k - 1]]
  }

  /** Where the k-th cost goes. */
  function Slot(c: seq<nat>, m: nat, k: nat): (x: nat)
    requires m > 0 && k < |c|
    ensures x < m
  {
    Lightest(Loads(c, m, k), m)
  }

  // ---- Any allocation ----

  /** Total weight an allocation puts on shard x among the first k. */
  function LoadOf(at: seq<nat>, w: seq<nat>, x: nat, k: nat): nat
    requires k <= |at| && k <= |w|
  {
    if k == 0 then 0 else LoadOf(at, w, x, k - 1) + if at[k - 1] == x then w[k - 1] else 0
  }

  function LoadsOf(at: seq<nat>, w: seq<nat>, m: nat, k: nat): (loads: seq<nat>)
    requires k <= |at| && k <= |w|
    ensures |loads| == m && forall x :: 0 <= x < m ==> loads[x] == LoadOf(at, w, x, k)
  {
    seq(m, x requires 0 <= x < m => LoadOf(at, w, x, k))
  }

  ghost predicate Allocation(at: seq<nat>, m: nat) {
    forall i :: 0 <= i < |at| ==> at[i] < m
  }

  lemma {:induction false} SumUpdate(s: seq<nat>, x: nat, v: nat)
    requires x < |s|
    ensures Sum(s[x := v]) == Sum(s) - s[x] + v
  {
    var n := |s| - 1;
    if x == n {
      assert s[x := v][..n] == s[..n];
    } else {
      assert s[x := v][..n] == s[..n][x := v];
      SumUpdate(s[..n], x, v);
    }
  }

  lemma {:induction false} SumZeros(m: nat)
    ensures Sum(seq(m, _ => 0)) == 0
  {
    if m > 0 {
      assert seq(m, _ => 0)[..m - 1] == seq(m - 1, _ => 0);
      SumZeros(m - 1);
    }
  }

  /** Nothing is lost between shards: their loads add up to what was placed. */
  lemma {:induction false} LoadsAddUp(at: seq<nat>, w: seq<nat>, m: nat, k: nat)
    requires Allocation(at, m) && k <= |at| && k <= |w|
    ensures Sum(LoadsOf(at, w, m, k)) == Sum(w[..k])
  {
    if k == 0 {
      assert LoadsOf(at, w, m, 0) == seq(m, _ => 0);
      SumZeros(m);
    } else {
      LoadsAddUp(at, w, m, k - 1);
      var before := LoadsOf(at, w, m, k - 1);
      var x := at[k - 1];
      assert LoadsOf(at, w, m, k) == before[x := before[x] + w[k - 1]];
      SumUpdate(before, x, before[x] + w[k - 1]);
      assert w[..k][..k - 1] == w[..k - 1];
    }
  }

  lemma {:induction false} SumAtLeast(s: seq<nat>, v: nat)
    requires forall i :: 0 <= i < |s| ==> s[i] >= v
    ensures Sum(s) >= |s| * v
  {
    if s != [] {
      SumAtLeast(s[..|s| - 1], v);
    }
  }

  lemma {:induction false} SumAtMost(s: seq<nat>, v: nat)
    requires forall i :: 0 <= i < |s| ==> s[i] <= v
    ensures Sum(s) <= |s| * v
  {
    if s != [] {
      SumAtMost(s[..|s| - 1], v);
    }
  }

  // ---- The greedy allocation ----

  function Greedy(c: seq<nat>, m: nat): (at: seq<nat>)
    requires m > 0
    ensures |at| == |c|
  {
    seq(|c|, i requires 0 <= i < |c| => Slot(c, m, i))
  }

  lemma {:induction false} GreedyLoads(c: seq<nat>, m: nat, k: nat)
    requires m > 0 && k <= |c|
    ensures Loads(c, m, k) == LoadsOf(Greedy(c, m), c, m, k)
  {
    if k > 0 {
      GreedyLoads(c, m, k - 1);
    }
  }

  lemma GreedySum(c: seq<nat>, m: nat, k: nat)
    requires m > 0 && k <= |c|
    ensures Sum(Loads(c, m, k)) == Sum(c[..k])
  {
    GreedyLoads(c, m, k);
    LoadsAddUp(Greedy(c, m), c, m, k);
  }

  /** The first m costs open the m shards in turn. */
  lemma {:induction false} FirstOnesSpread(c: seq<nat>, m: nat, k: nat)
    requires m > 0 && k <= m && k <= |c| && forall i :: 0 <= i < |c| ==> c[i] > 0
    ensures forall x :: 0 <= x < m ==> (Loads(c, m, k)[x] > 0 <==> x < k)
    ensures k < |c| && k < m ==> Slot(c, m, k) == k
  {
    if k > 0 {
      FirstOnesSpread(c, m, k - 1);
    }
    if k < |c| && k < m {
      var loads := Loads(c, m, k);
      assert loads[Lightest(loads, m)] <= loads[k];
    }
  }

  // ---- The bound ----

  ghost predicate Descending(c: seq<nat>) {
    forall i, j :: 0 <= i < j < |c| ==> c[i] >= c[j]
  }

  /** No shard of the allocation carries more than t. */
  ghost predicate Fits(at: seq<nat>, c: seq<nat>, m: nat, t: nat) {
    |at| == |c| && Allocation(at, m) && forall x :: 0 <= x < m ==> LoadOf(at, c, x, |c|) <= t
  }

  lemma {:induction false} LoadGrows(at: seq<nat>, c: seq<nat>, x: nat, k: nat, n: nat)
    requires k <= n <= |at| && n <= |c|
    ensures LoadOf(at, c, x, k) <= LoadOf(at, c, x, n)
    ensures forall i :: k <= i < n && at[i] == x ==> LoadOf(at, c, x, k) + c[i] <= LoadOf(at, c, x, n)
  {
    if k < n {
      LoadGrows(at, c, x, k, n - 1);
    }
  }

  /** A cost counts double when it cannot share a shard of size t with the k-th cost. */
  function Weights(c: seq<nat>, k: nat, t: nat): (w: seq<nat>)
    requires k < |c|
    ensures |w| == k + 1
  {
    seq(k + 1, i requires 0 <= i <= k => if i < k && c[i] + c[k] > t then 2 else 1)
  }

  /** When three costs never fit, a shard that fits weighs at most two. */
  lemma {:induction false} FittingShardWeighsTwo(at: seq<nat>, c: seq<nat>, x: nat, k: nat, t: nat, n: nat)
    requires k < |c| == |at| && n <= k + 1 && 3 * c[k] > t && Descending(c)
    ensures var load := LoadOf(at, c, x, n);
            match LoadOf(at, Weights(c, k, t), x, n)
            case 0 => true
            case 1 => load >= c[k]
            case 2 => load >= 2 * c[k] || load + c[k] > t
            case _ => load > t
  {
    if n > 0 {
      FittingShardWeighsTwo(at, c, x, k, t, n - 1);
      assert c[n - 1] >= c[k];
    }
  }

  /** A greedy shard that the k-th cost would overfill weighs at least two. */
  lemma {:induction false} FullShardWeighsTwo(at: seq<nat>, c: seq<nat>, x: nat, k: nat, t: nat, n: nat)
    requires k < |c| == |at| && n <= k && c[k] <= t
    ensures var load := LoadOf(at, c, x, n);
            match LoadOf(at, Weights(c, k, t), x, n)
            case 0 => load == 0
            case 1 => load + c[k] <= t
            case _ => true
  {
    if n > 0 {
      FullShardWeighsTwo(at, c, x, k, t, n - 1);
    }
  }

  /** Any allocation that fits in t weighs at most two per shard. */
  lemma FittingWeighsTwoEach(c: seq<nat>, m: nat, at: seq<nat>, t: nat, k: nat, w: seq<nat>)
    requires Descending(c) && Fits(at, c, m, t) && k < |c| && 3 * c[k] > t && w == Weights(c, k, t)
    ensures Sum(w[..k + 1]) <= 2 * m
  {
    var loads := LoadsOf(at, w, m, k + 1);
    forall x | 0 <= x < m
      ensures loads[x] <= 2
    {
      FittingShardWeighsTwo(at, c, x, k, t, k + 1);
      LoadGrows(at, c, x, k + 1, |c|);
    }
    SumAtMost(loads, 2);
    LoadsAddUp(at, w, m, k + 1);
  }

  /** If the k-th cost overfills even the lightest shard, the costs before it weigh at least two per shard. */
  lemma OverfullWeighsTwoEach(c: seq<nat>, m: nat, greedy: seq<nat>, t: nat, k: nat, w: seq<nat>)
    requires |greedy| == |c| && Allocation(greedy, m) && k < |c| && c[k] <= t && w == Weights(c, k, t)
    requires forall x :: 0 <= x < m ==> LoadOf(greedy, c, x, k) + c[k] > t
    ensures Sum(w[..k]) >= 2 * m
  {
    var loads := LoadsOf(greedy, w, m, k);
    forall x | 0 <= x < m
      ensures loads[x] >= 2
    {
      FullShardWeighsTwo(greedy, c, x, k, t, k);
    }
    SumAtLeast(loads, 2);
    LoadsAddUp(greedy, w, m, k);
  }

  lemma LightestIsLeast(c: seq<nat>, m: nat, k: nat)
    requires m > 0 && k < |c|
    ensures forall x :: 0 <= x < m ==> Loads(c, m, k)[Slot(c, m, k)] <= LoadOf(Greedy(c, m), c, x, k)
  {
    var loads := Loads(c, m, k);
    GreedyLoads(c, m, k);
    assert forall x :: 0 <= x < m ==> loads[x] == LoadOf(Greedy(c, m), c, x, k);
    assert forall x :: 0 <= x < m ==> loads[Lightest(loads, m)] <= loads[x];
  }

  /** A cost above a third of t still fits within t where the greedy rule puts it. */
  lemma LargeCostsFit(c: seq<nat>, m: nat, at: seq<nat>, t: nat, k: nat)
    requires m > 0 && Descending(c) && Fits(at, c, m, t) && k < |c| && 3 * c[k] > t
    ensures Loads(c, m, k)[Slot(c, m, k)] + c[k] <= t
  {
    var w, greedy := Weights(c, k, t), Greedy(c, m);
    LoadGrows(at, c, at[k], 0, |c|);
    FittingWeighsTwoEach(c, m, at, t, k, w);
    LightestIsLeast(c, m, k);
    assert w[..k + 1][..k] == w[..k] && w[..k + 1][k] == 1;
    if forall x :: 0 <= x < m ==> LoadOf(greedy, c, x, k) + c[k] > t {
      OverfullWeighsTwoEach(c, m, greedy, t, k, w);
      assert false;
    }
  }

  lemma FittingSum(c: seq<nat>, m: nat, at: seq<nat>, t: nat, k: nat)
    requires Fits(at, c, m, t) && k <= |c|
    ensures Sum(c[..k]) <= m * t
  {
    var loads := LoadsOf(at, c, m, k);
    forall x | 0 <= x < m
      ensures loads[x] <= t
    {
      LoadGrows(at, c, x, k, |c|);
    }
    SumAtMost(loads, t);
    LoadsAddUp(at, c, m, k);
  }

  /** A cost of at most a third of t lands within the bound, because the lightest shard is below average. */
  lemma {:induction false} SmallCostsFit(c: seq<nat>, m: nat, at: seq<nat>, t: nat, k: nat)
    requires m > 0 && Fits(at, c, m, t) && k < |c| && 3 * c[k] <= t
    ensures 3 * m * (Loads(c, m, k)[Slot(c, m, k)] + c[k]) <= (4 * m - 1) * t
  {
    var loads := Loads(c, m, k);
    var least := loads[Lightest(loads, m)];
    SumAtLeast(loads, least);
    GreedySum(c, m, k);
    FittingSum(c, m, at, t, k + 1);
    assert c[..k + 1][..k] == c[..k];
    AverageBound(m, least, c[k], t);
  }

  lemma AverageBound(m: nat, least: nat, cost: nat, t: nat)
    requires m > 0 && m * least + cost <= m * t && 3 * cost <= t
    ensures 3 * m * (least + cost) <= (4 * m - 1) * t
  {
    calc {
      3 * m * (least + cost);
      3 * (m * least + cost) + (m - 1) * (3 * cost);
    <=
      3 * (m * t) + (m - 1) * (3 * cost);
    <= { Scale(m - 1, 3 * cost, t); }
      3 * (m * t) + (m - 1) * t;
      (4 * m - 1) * t;
    }
  }

  lemma Scale(a: nat, x: nat, y: nat)
    requires x <= y
    ensures a * x <= a * y
  {
  }

  /** The heaviest greedy shard is at most 4/3 - 1/(3m) of the heaviest shard of any allocation. */
  lemma {:induction false} GreedyIsNearBest(c: seq<nat>, m: nat, at: seq<nat>, t: nat, k: nat)
    requires m > 0 && Descending(c) && Fits(at, c, m, t) && k <= |c|
    ensures forall x :: 0 <= x < m ==> 3 * m * Loads(c, m, k)[x] <= (4 * m - 1) * t
  {
    if k > 0 {
      GreedyIsNearBest(c, m, at, t, k - 1);
      var slot := Slot(c, m, k - 1);
      var load := Loads(c, m, k - 1)[slot] + c[k - 1];
      if 3 * c[k - 1] > t {
        LargeCostsFit(c, m, at, t, k - 1);
        WithinBound(m, load, t);
      } else {
        SmallCostsFit(c, m, at, t, k - 1);
      }
    } else {
      WithinBound(m, 0, t);
    }
  }

  lemma WithinBound(m: nat, load: nat, t: nat)
    requires m > 0 && load <= t
    ensures 3 * m * load <= (4 * m - 1) * t
  {
    Scale(3 * m, load, t);
    assert (4 * m - 1) * t == 3 * m * t + (m - 1) * t;
  }
}
