/** What every recovery and correction run keeps: exact counters, and one correction per physical record. */
module RecoveryTheorems {
  import opened Recovery

  // ---- Counters ----

  ghost predicate JobOk(job: Job) {
    && job.requested == |job.items|
    && job.succeeded == Count(job.items, Succeeded) && job.failed == Count(job.items, Failed)
    && job.skipped == Count(job.items, Skipped) + Count(job.items, Cancelled)
    && (job.status == CompletedClean || job.status == CompletedWithAttention || job.status == CancelledJob ==>
        Count(job.items, Pending) == 0)
    && (job.status == CompletedClean ==> job.failed == 0 && job.skipped == 0)
  }

  lemma {:induction false} CountsCover(items: seq<Item>, n: nat)
    requires n <= |items|
    ensures n == CountTo(items, n, Pending) + CountTo(items, n, Succeeded) + CountTo(items, n, Failed)
                 + CountTo(items, n, Skipped) + CountTo(items, n, Cancelled)
  {
    if n > 0 {
      CountsCover(items, n - 1);
    }
  }

  function One(b: bool): int {
    if b then 1 else 0
  }

  lemma {:induction false} CountUpdate(items: seq<Item>, i: nat, it: Item, n: nat, s: ItemStatus)
    requires i < |items| && n <= |items|
    ensures CountTo(items[i := it], n, s)
            == CountTo(items, n, s) + if i < n then One(it.status == s) - One(items[i].status == s) else 0
  {
    if n > 0 {
      CountUpdate(items, i, it, n - 1, s);
    }
  }

  lemma WithItemKeeps(job: Job, i: nat, status: ItemStatus, unexpected: bool)
    requires JobOk(job) && i < |job.items| && job.items[i].status == Pending && job.status == Running
    requires status == Succeeded || status == Failed || status == Skipped
    ensures JobOk(WithItem(job, i, status, unexpected))
  {
    var it := job.items[i].(status := status, unexpected := unexpected);
    var n := |job.items|;
    CountUpdate(job.items, i, it, n, Succeeded);
    CountUpdate(job.items, i, it, n, Failed);
    CountUpdate(job.items, i, it, n, Skipped);
    CountUpdate(job.items, i, it, n, Cancelled);
  }

  lemma {:induction false} SwapCancels(items: seq<Item>, n: nat, s: ItemStatus)
    requires n <= |items|
    ensures var out := Swapped(items, (it: Item) => it.status == Pending, Cancelled);
            CountTo(out, n, s) == if s == Pending then 0
                else CountTo(items, n, s) + if s == Cancelled then CountTo(items, n, Pending) else 0
  {
    if n > 0 {
      SwapCancels(items, n - 1, s);
    }
  }

  lemma {:induction false} SwapRetries(items: seq<Item>, n: nat, s: ItemStatus)
    requires n <= |items|
    ensures CountTo(Swapped(items, Retryable, Pending), n, s)
            == CountTo(items, n, s) - (if s == Failed then RetryCount(items, n) else 0)
                + (if s == Pending then RetryCount(items, n) else 0)
  {
    if n > 0 {
      SwapRetries(items, n - 1, s);
      var out := Swapped(items, Retryable, Pending);
      assert out[n - 1].status == if Retryable(items[n - 1]) then Pending else items[n - 1].status;
    }
  }

  lemma ControlKeeps(job: Job, c: Control)
    requires JobOk(job)
    ensures JobOk(ControlledJob(job, c))
  {
    var n := |job.items|;
    if c == Cancel {
      SwapCancels(job.items, n, Pending);
      SwapCancels(job.items, n, Succeeded);
      SwapCancels(job.items, n, Failed);
      SwapCancels(job.items, n, Skipped);
      SwapCancels(job.items, n, Cancelled);
    } else if c == Retry {
      SwapRetries(job.items, n, Succeeded);
      SwapRetries(job.items, n, Failed);
      SwapRetries(job.items, n, Skipped);
      SwapRetries(job.items, n, Cancelled);
    }
  }

  // ---- Corrections ----

  /** No two created corrections hold the same physical record, and no two share a version of one source. */
  ghost predicate OnePerRecord(corrections: seq<Correction>, physical: Source -> Physical) {
    forall a, b :: 0 <= a < b < |corrections| ==>
      && !(corrections[a].created && corrections[b].created
          && physical(corrections[a].source) == physical(corrections[b].source))
      && !(corrections[a].source == corrections[b].source && corrections[a].version == corrections[b].version)
  }

  /** Terminal records and Hikvision events are different things. */
  ghost predicate KindsApart(physical: Source -> Physical) {
    forall s: Source :: physical(s).TerminalRecord? <==> s.kind == ZktManifest
  }

  /** Every derived punch comes from a created correction. */
  ghost predicate EventsDerived(st: Store) {
    forall d :: d in st.events ==>
        exists k :: 0 <= k < |st.corrections| && st.corrections[k].created && DerivedOf(st.corrections[k]) == d
  }

  /** A correction of the source to this time exists, with the derived punch of its version at that time. */
  ghost predicate HasPunch(st: Store, source: Source, time: int) {
    exists k :: 0 <= k < |st.corrections| && st.corrections[k].created && st.corrections[k].source == source
        && st.corrections[k].time == time && Derived(source, st.corrections[k].version, time) in st.events
  }

  /** A correction's version is one above the highest of its source before it, and 1 where it is the first. */
  ghost predicate VersionsRise(corrections: seq<Correction>) {
    forall b :: 0 <= b < |corrections| ==> VersionIsNext(corrections[..b], corrections[b])
  }

  ghost predicate VersionIsNext(earlier: seq<Correction>, c: Correction) {
    (forall a :: 0 <= a < |earlier| && earlier[a].source == c.source ==> earlier[a].version < c.version)
    && (c.version == 1
        || exists a :: 0 <= a < |earlier| && earlier[a].source == c.source && earlier[a].version + 1 == c.version)
  }

  ghost predicate Backed(st: Store, job: Job) {
    job.correction ==> forall i :: 0 <= i < |job.items| && job.items[i].status == Succeeded ==>
        HasPunch(st, job.items[i].source, job.items[i].time)
  }

  ghost predicate StoreOk(st: Store, physical: Source -> Physical) {
    && (forall j :: 0 <= j < |st.jobs| ==> JobOk(st.jobs[j]) && Backed(st, st.jobs[j]))
    && OnePerRecord(st.corrections, physical) && EventsDerived(st) && VersionsRise(st.corrections)
  }

  lemma BackedStays(a: Store, b: Store, job: Job)
    requires Backed(a, job) && a.corrections <= b.corrections && a.events <= b.events
    ensures Backed(b, job)
  {
    if job.correction {
      forall i | 0 <= i < |job.items| && job.items[i].status == Succeeded
        ensures HasPunch(b, job.items[i].source, job.items[i].time)
      {
        PunchStays(a, b, job.items[i].source, job.items[i].time);
      }
    }
  }

  lemma PunchStays(a: Store, b: Store, source: Source, time: int)
    requires HasPunch(a, source, time) && a.corrections <= b.corrections && a.events <= b.events
    ensures HasPunch(b, source, time)
  {
    var k :| 0 <= k < |a.corrections| && a.corrections[k].created && a.corrections[k].source == source
             && a.corrections[k].time == time && Derived(source, a.corrections[k].version, time) in a.events;
    assert b.corrections[k] == a.corrections[k];
  }

  /** A job with fewer or the same succeeded items stays backed. */
  lemma BackedByItems(st: Store, a: Job, b: Job)
    requires Backed(st, a) && a.correction == b.correction && |a.items| == |b.items|
    requires forall i :: 0 <= i < |a.items| ==>
               b.items[i].source == a.items[i].source && b.items[i].time == a.items[i].time
                   && (b.items[i].status == Succeeded ==> a.items[i].status == Succeeded)
    ensures Backed(st, b)
  {
  }

  lemma CorrectionIsNew(st: Store, it: Item, physical: Source -> Physical)
    requires KindsApart(physical) && OnePerRecord(st.corrections, physical) && EventsDerived(st)
    requires !HasCreated(st.corrections, it.source) && !HasTwin(st.corrections, it.source, physical)
    ensures var c := NewCorrection(st, it);
            OnePerRecord(st.corrections + [c], physical)
            && EventsDerived(st.(corrections := st.corrections + [c], events := st.events + {DerivedOf(c)}))
  {
    var c := NewCorrection(st, it);
    var all := st.corrections + [c];
    forall a | 0 <= a < |st.corrections|
      ensures !(all[a].created && physical(all[a].source) == physical(c.source))
      ensures !(all[a].source == c.source && all[a].version == c.version)
    {
      assert all[a] == st.corrections[a];
    }
    forall d | d in st.events + {DerivedOf(c)}
      ensures exists k :: 0 <= k < |all| && all[k].created && DerivedOf(all[k]) == d
    {
      if d == DerivedOf(c) {
        assert all[|st.corrections|] == c;
      } else {
        var k :| 0 <= k < |st.corrections| && st.corrections[k].created && DerivedOf(st.corrections[k]) == d;
        assert all[k] == st.corrections[k];
      }
    }
  }

  lemma {:induction false} HighestIsThere(corrections: seq<Correction>, source: Source)
    ensures var v := LastVersion(corrections, source);
            v == 0
            || exists a :: 0 <= a < |corrections| && corrections[a].source == source && corrections[a].version == v
  {
    if corrections != [] {
      var n := |corrections| - 1;
      HighestIsThere(corrections[..n], source);
      var rest := LastVersion(corrections[..n], source);
      if rest != 0 {
        var a :| 0 <= a < n && corrections[..n][a].source == source && corrections[..n][a].version == rest;
        assert corrections[a].version == rest;
      }
    }
  }

  lemma NewVersionIsNext(st: Store, it: Item)
    ensures VersionIsNext(st.corrections, NewCorrection(st, it))
  {
    HighestIsThere(st.corrections, it.source);
  }

  lemma VersionsRiseOn(corrections: seq<Correction>, c: Correction)
    requires VersionsRise(corrections) && VersionIsNext(corrections, c)
    ensures VersionsRise(corrections + [c])
  {
    var all := corrections + [c];
    forall b | 0 <= b < |all| ensures VersionIsNext(all[..b], all[b]) {
      assert all[..b] == corrections[..b];
      if b == |corrections| { assert corrections[..b] == corrections; }
    }
  }

  lemma ProcessedBacked(st: Store, j: nat, i: nat, attempt: Attempt, physical: Source -> Physical)
    requires StoreOk(st, physical) && j < |st.jobs| && i < |st.jobs[j].items|
    ensures var n := Processed(st, j, i, attempt, physical);
            forall k :: 0 <= k < |n.jobs| ==> Backed(n, n.jobs[k])
  {
    var n, it := Processed(st, j, i, attempt, physical), st.jobs[j].items[i];
    forall k | 0 <= k < |n.jobs|
      ensures Backed(n, n.jobs[k])
    {
      BackedStays(st, n, st.jobs[k]);
      if k == j && n.jobs[j].correction && n.jobs[j].items[i].status == Succeeded {
        assert n.corrections[|st.corrections|] == NewCorrection(st, it);
        assert HasPunch(n, it.source, it.time);
      }
    }
  }

  lemma ProcessedKeeps(st: Store, j: nat, i: nat, attempt: Attempt, physical: Source -> Physical)
    requires KindsApart(physical) && StoreOk(st, physical) && j < |st.jobs| && i < |st.jobs[j].items|
    requires st.jobs[j].status == Running && st.jobs[j].items[i].status == Pending
    ensures var n := Processed(st, j, i, attempt, physical);
            && StoreOk(n, physical) && n.jobs[j].status == Running
            && forall k :: 0 <= k < |st.jobs[j].items| && k != i ==> n.jobs[j].items[k] == st.jobs[j].items[k]
  {
    var job, it := st.jobs[j], st.jobs[j].items[i];
    WithItemKeeps(job, i, Succeeded, it.unexpected);
    WithItemKeeps(job, i, Skipped, it.unexpected);
    WithItemKeeps(job, i, Failed, false);
    WithItemKeeps(job, i, Failed, true);
    ProcessedBacked(st, j, i, attempt, physical);
    if !HasCreated(st.corrections, it.source) && !HasTwin(st.corrections, it.source, physical) {
      CorrectionIsNew(st, it, physical);
      NewVersionIsNext(st, it);
      VersionsRiseOn(st.corrections, NewCorrection(st, it));
    }
  }

  lemma {:induction false} ProcessedAllKeeps(st: Store, j: nat, todo: seq<nat>, attempts: nat -> Attempt,
        physical: Source -> Physical, n: nat)
    requires KindsApart(physical) && StoreOk(st, physical) && j < |st.jobs| && st.jobs[j].status == Running
             && n <= |todo|
    requires forall k :: 0 <= k < |todo| ==> todo[k] < |st.jobs[j].items| && st.jobs[j].items[todo[k]].status == Pending
    requires forall a, b :: 0 <= a < b < |todo| ==> todo[a] < todo[b]
    ensures var out := ProcessedAll(st, j, todo, attempts, physical, n);
            && StoreOk(out, physical) && out.jobs[j].status == Running
            && forall k :: n <= k < |todo| ==> out.jobs[j].items[todo[k]] == st.jobs[j].items[todo[k]]
  {
    if n > 0 {
      ProcessedAllKeeps(st, j, todo, attempts, physical, n - 1);
      var before := ProcessedAll(st, j, todo, attempts, physical, n - 1);
      ProcessedKeeps(before, j, todo[n - 1], attempts(todo[n - 1]), physical);
    }
  }

  lemma AdvancedKeeps(st: Store, j: nat, limit: nat, locked: set<nat>, attempts: nat -> Attempt,
        physical: Source -> Physical)
    requires KindsApart(physical) && StoreOk(st, physical)
    ensures StoreOk(Advanced(st, j, limit, locked, attempts, physical), physical)
  {
    if j < |st.jobs| && (st.jobs[j].status == Queued || st.jobs[j].status == Running) {
      var started := WithJob(st, j, st.jobs[j].(status := Running));
      var items := started.jobs[j].items;
      var todo := Batch(items, locked, if limit > 1 then limit else 1, |items|);
      StartedOk(st, j, physical);
      ProcessedAllKeeps(started, j, todo, attempts, physical, |todo|);
      var done := ProcessedAll(started, j, todo, attempts, physical, |todo|);
      ReplacedOk(done, j, Closed(done.jobs[j]), physical);
    }
  }

  lemma StartedOk(st: Store, j: nat, physical: Source -> Physical)
    requires StoreOk(st, physical) && j < |st.jobs| && (st.jobs[j].status == Queued || st.jobs[j].status == Running)
    ensures StoreOk(WithJob(st, j, st.jobs[j].(status := Running)), physical)
  {
    ReplacedOk(st, j, st.jobs[j].(status := Running), physical);
  }

  /** Replacing a job by a sound one that claims no more successes keeps the store. */
  lemma ReplacedOk(st: Store, j: nat, job: Job, physical: Source -> Physical)
    requires StoreOk(st, physical) && j < |st.jobs| && JobOk(job) && job.correction == st.jobs[j].correction
             && |job.items| == |st.jobs[j].items|
    requires forall i :: 0 <= i < |job.items| ==>
               job.items[i].source == st.jobs[j].items[i].source && job.items[i].time == st.jobs[j].items[i].time
                   && (job.items[i].status == Succeeded ==> st.jobs[j].items[i].status == Succeeded)
    ensures StoreOk(WithJob(st, j, job), physical)
  {
    var next := WithJob(st, j, job);
    BackedByItems(st, st.jobs[j], job);
    forall k | 0 <= k < |next.jobs|
      ensures Backed(next, next.jobs[k])
    {
      BackedStays(st, next, next.jobs[k]);
    }
  }

  // ---- Whole runs ----

  datatype Step =
    | Advances(job: nat, limit: nat, locked: set<nat>, attempts: nat -> Attempt)
    | Controls(job: nat, control: Control)
    | Creates(created: Job)

  /** A job is created with every item pending. */
  predicate IsNew(job: Job) {
    job.requested == |job.items| && job.status == Queued && job.succeeded == 0 && job.failed == 0 && job.skipped == 0
    && forall i :: 0 <= i < |job.items| ==> job.items[i].status == Pending
  }

  function Apply(st: Store, step: Step, physical: Source -> Physical): Store {
    match step
    case Advances(j, limit, locked, attempts) => Advanced(st, j, limit, locked, attempts, physical)
    case Controls(j, c) => Controlled(st, j, c)
    case Creates(job) => if IsNew(job) then st.(jobs := st.jobs + [job]) else st
  }

  function After(st: Store, steps: seq<Step>, physical: Source -> Physical): Store {
    if steps == [] then st else Apply(After(st, steps[..|steps| - 1], physical), steps[|steps| - 1], physical)
  }

  lemma {:induction false} NewCounts(job: Job, n: nat, s: ItemStatus)
    requires IsNew(job) && n <= |job.items|
    ensures CountTo(job.items, n, s) == if s == Pending then n else 0
  {
    if n > 0 {
      NewCounts(job, n - 1, s);
    }
  }

  lemma NewJobOk(job: Job)
    requires IsNew(job)
    ensures JobOk(job)
  {
    NewCounts(job, |job.items|, Succeeded);
    NewCounts(job, |job.items|, Failed);
    NewCounts(job, |job.items|, Skipped);
    NewCounts(job, |job.items|, Cancelled);
  }

  lemma StepKeeps(st: Store, step: Step, physical: Source -> Physical)
    requires KindsApart(physical) && StoreOk(st, physical)
    ensures StoreOk(Apply(st, step, physical), physical)
  {
    match step
    case Advances(j, limit, locked, attempts) => AdvancedKeeps(st, j, limit, locked, attempts, physical);
    case Controls(j, c) =>
      if j < |st.jobs| {
        ControlKeeps(st.jobs[j], c);
        ControlKeepsItems(st.jobs[j], c);
        ReplacedOk(st, j, ControlledJob(st.jobs[j], c), physical);
      }
    case Creates(job) =>
      if IsNew(job) {
        NewJobOk(job);
        var next := Apply(st, step, physical);
        forall k | 0 <= k < |st.jobs| ensures Backed(next, st.jobs[k]) { BackedStays(st, next, st.jobs[k]); }
      }
  }

  lemma ControlKeepsItems(job: Job, c: Control)
    ensures var next := ControlledJob(job, c);
            next.correction == job.correction && |next.items| == |job.items|
            && forall i :: 0 <= i < |job.items| ==>
                 next.items[i].source == job.items[i].source && next.items[i].time == job.items[i].time
                     && (next.items[i].status == Succeeded ==> job.items[i].status == Succeeded)
  {
  }

  lemma {:induction false} RunKeeps(st: Store, steps: seq<Step>, physical: Source -> Physical)
    requires KindsApart(physical) && StoreOk(st, physical)
    ensures StoreOk(After(st, steps, physical), physical)
  {
    if steps != [] {
      RunKeeps(st, steps[..|steps| - 1], physical);
      StepKeeps(After(st, steps[..|steps| - 1], physical), steps[|steps| - 1], physical);
    }
  }

  const NOTHING: Store := Store([], [], {})

  /** Over every run, each job's counters add up to what was requested, and it completes only with nothing pending. */
  lemma CountersAddUp(steps: seq<Step>, physical: Source -> Physical, j: nat)
    requires KindsApart(physical) && j < |After(NOTHING, steps, physical).jobs|
    ensures var job := After(NOTHING, steps, physical).jobs[j];
            && job.requested == Count(job.items, Pending) + job.succeeded + job.failed + job.skipped
            && (job.status == CompletedClean || job.status == CompletedWithAttention || job.status == CancelledJob ==>
                Count(job.items, Pending) == 0)
            && (job.status == CompletedClean ==> job.succeeded == job.requested)
  {
    RunKeeps(NOTHING, steps, physical);
    var job := After(NOTHING, steps, physical).jobs[j];
    CountsCover(job.items, |job.items|);
  }

  /** Over every run, a physical record has at most one created correction and at most one derived punch. */
  lemma OneDerivedPunchPerRecord(steps: seq<Step>, physical: Source -> Physical, d: Derived, e: Derived)
    requires KindsApart(physical)
    requires d in After(NOTHING, steps, physical).events && e in After(NOTHING, steps, physical).events
    requires physical(d.source) == physical(e.source)
    ensures d == e
  {
    RunKeeps(NOTHING, steps, physical);
    OnePunchEach(After(NOTHING, steps, physical), physical, d, e);
  }

  lemma OnePunchEach(st: Store, physical: Source -> Physical, d: Derived, e: Derived)
    requires OnePerRecord(st.corrections, physical) && EventsDerived(st) && d in st.events && e in st.events
    requires physical(d.source) == physical(e.source)
    ensures d == e
  {
    var a :| 0 <= a < |st.corrections| && st.corrections[a].created && DerivedOf(st.corrections[a]) == d;
    var b :| 0 <= b < |st.corrections| && st.corrections[b].created && DerivedOf(st.corrections[b]) == e;
  }

  /** Over every run, the corrections of a source are numbered in order, each one above every earlier one. */
  lemma VersionsAreNumbered(steps: seq<Step>, physical: Source -> Physical, b: nat)
    requires KindsApart(physical) && b < |After(NOTHING, steps, physical).corrections|
    ensures var all := After(NOTHING, steps, physical).corrections; VersionIsNext(all[..b], all[b])
  {
    RunKeeps(NOTHING, steps, physical);
  }

  /** Over every run, a correction item that succeeded has its correction to its own time and the punch at that time. */
  lemma SucceededHasItsPunch(steps: seq<Step>, physical: Source -> Physical, j: nat, i: nat)
    requires KindsApart(physical) && j < |After(NOTHING, steps, physical).jobs|
             && i < |After(NOTHING, steps, physical).jobs[j].items|
    requires After(NOTHING, steps, physical).jobs[j].correction
    requires After(NOTHING, steps, physical).jobs[j].items[i].status == Succeeded
    ensures var it := After(NOTHING, steps, physical).jobs[j].items[i];
            HasPunch(After(NOTHING, steps, physical), it.source, it.time)
  {
    RunKeeps(NOTHING, steps, physical);
    assert Backed(After(NOTHING, steps, physical), After(NOTHING, steps, physical).jobs[j]);
  }
}
