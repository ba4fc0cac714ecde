/** What one advance or control makes of every item and job, and which corrections a batch adds. */
module RecoveryOutcomes {
  import opened Recovery
  import opened RecoveryTheorems

  // --------------------------------------------------------------- which items are taken

  predicate Waits(items: seq<Item>, locked: set<nat>, i: nat)
    requires i < |items|
  {
    items[i].status == Pending && i !in locked
  }

  /** How many pending, unlocked items come before item i. */
  function Ahead(items: seq<Item>, locked: set<nat>, i: nat): nat
    requires i <= |items|
  {
    if i == 0 then 0 else Ahead(items, locked, i - 1) + if Waits(items, locked, i - 1) then 1 else 0
  }

  lemma {:induction false} BatchSize(items: seq<Item>, locked: set<nat>, limit: nat, n: nat)
    requires n <= |items|
    ensures |Batch(items, locked, limit, n)|
            == if Ahead(items, locked, n) < limit then Ahead(items, locked, n) else limit
  {
    if n > 0 {
      BatchSize(items, locked, limit, n - 1);
    }
  }

  /** A batch takes exactly the pending, unlocked items with fewer than `limit` such items before them. */
  lemma {:induction false} BatchTakesFirst(items: seq<Item>, locked: set<nat>, limit: nat, n: nat, i: nat)
    requires i < n <= |items|
    ensures i in Batch(items, locked, limit, n) <==> Waits(items, locked, i) && Ahead(items, locked, i) < limit
  {
    BatchSize(items, locked, limit, n - 1);
    if i < n - 1 {
      BatchTakesFirst(items, locked, limit, n - 1, i);
    } else {
      var rest := Batch(items, locked, limit, n - 1);
      assert forall k :: 0 <= k < |rest| ==> rest[k] < i;
    }
  }

  // ------------------------------------------------------------------- what each ends as

  /** The item's status after an attempt; a correction that is not refused depends on the corrections made. */
  ghost predicate EndsAs(correction: bool, attempt: Attempt, before: Item, after: Item) {
    after.source == before.source && after.time == before.time
    && match attempt
       case Rejected => after.status == Failed && !after.unexpected
       case Crashed(_) => after.status == Failed && after.unexpected
       case NotEligible => if correction then after.status in {Succeeded, Skipped} else after.status == Skipped
       case Proceeds => if correction then after.status in {Succeeded, Skipped} else after.status == Succeeded
  }

  /** Processing touches its own item of its own job and nothing else of the jobs. */
  lemma ProcessedItem(st: Store, j: nat, i: nat, attempt: Attempt, physical: Source -> Physical)
    requires j < |st.jobs| && i < |st.jobs[j].items|
    ensures var n := Processed(st, j, i, attempt, physical);
            && |n.jobs| == |st.jobs| && n.jobs[j].correction == st.jobs[j].correction
            && |n.jobs[j].items| == |st.jobs[j].items|
            && EndsAs(st.jobs[j].correction, attempt, st.jobs[j].items[i], n.jobs[j].items[i])
            && (forall k :: 0 <= k < |st.jobs[j].items| && k != i ==> n.jobs[j].items[k] == st.jobs[j].items[k])
            && (forall k :: 0 <= k < |st.jobs| && k != j ==> n.jobs[k] == st.jobs[k])
  {
  }

  /** Other jobs are untouched; of this one, exactly the first n items of the batch have their outcome. */
  ghost predicate BatchDone(st: Store, j: nat, todo: seq<nat>, attempts: nat -> Attempt, n: nat, out: Store)
    requires j < |st.jobs| && n <= |todo|
  {
    && |out.jobs| == |st.jobs| && (forall k :: 0 <= k < |st.jobs| && k != j ==> out.jobs[k] == st.jobs[k])
    && out.jobs[j].correction == st.jobs[j].correction && |out.jobs[j].items| == |st.jobs[j].items|
    && (forall i: nat :: i < |st.jobs[j].items| && i !in todo[..n] ==> out.jobs[j].items[i] == st.jobs[j].items[i])
    && (forall i: nat :: i < |st.jobs[j].items| && i in todo[..n] ==>
          EndsAs(st.jobs[j].correction, attempts(i), st.jobs[j].items[i], out.jobs[j].items[i]))
  }

  ghost predicate IsBatch(items: seq<Item>, todo: seq<nat>) {
    (forall k :: 0 <= k < |todo| ==> todo[k] < |items|) && (forall a, b :: 0 <= a < b < |todo| ==> todo[a] < todo[b])
  }

  lemma {:induction false} BatchIsDone(
      st: Store, j: nat, todo: seq<nat>, attempts: nat -> Attempt, physical: Source -> Physical, n: nat)
    requires j < |st.jobs| && n <= |todo| && IsBatch(st.jobs[j].items, todo)
    ensures BatchDone(st, j, todo, attempts, n, ProcessedAll(st, j, todo, attempts, physical, n))
  {
    if n > 0 {
      BatchIsDone(st, j, todo, attempts, physical, n - 1);
      DoneOneMore(st, j, todo, attempts, physical, n, ProcessedAll(st, j, todo, attempts, physical, n - 1));
    }
  }

  lemma {:induction false} DoneOneMore(st: Store, j: nat, todo: seq<nat>, attempts: nat -> Attempt,
                                       physical: Source -> Physical, n: nat, before: Store)
    requires j < |st.jobs| && 0 < n <= |todo| && IsBatch(st.jobs[j].items, todo)
    requires BatchDone(st, j, todo, attempts, n - 1, before)
    ensures BatchDone(st, j, todo, attempts, n, Processed(before, j, todo[n - 1], attempts(todo[n - 1]), physical))
  {
    var i := todo[n - 1];
    ProcessedItem(before, j, i, attempts(i), physical);
    assert i !in todo[..n - 1];
    assert todo[..n] == todo[..n - 1] + [i];
  }

  predicate Open(job: Job) {
    job.status == Queued || job.status == Running
  }

  function Bound(limit: nat): nat {
    if limit > 1 then limit else 1
  }

  /** The advance takes this item: it waits and fewer than the batch's bound wait before it. */
  ghost predicate Takes(st: Store, j: nat, limit: nat, locked: set<nat>, i: nat) {
    j < |st.jobs| && Open(st.jobs[j]) && i < |st.jobs[j].items| && Waits(st.jobs[j].items, locked, i)
    && Ahead(st.jobs[j].items, locked, i) < Bound(limit)
  }

  function StartedAt(st: Store, j: nat): Store
    requires j < |st.jobs|
  {
    WithJob(st, j, st.jobs[j].(status := Running))
  }

  function Todo(st: Store, j: nat, limit: nat, locked: set<nat>): (todo: seq<nat>)
    requires j < |st.jobs|
    ensures IsBatch(st.jobs[j].items, todo)
  {
    Batch(st.jobs[j].items, locked, Bound(limit), |st.jobs[j].items|)
  }

  /** An advance of an open job is its batch, then the closing of the job. */
  lemma AdvanceIsBatch(st: Store, j: nat, limit: nat, locked: set<nat>, attempts: nat -> Attempt,
                       physical: Source -> Physical)
    requires j < |st.jobs| && Open(st.jobs[j])
    ensures var todo := Todo(st, j, limit, locked);
            var done := ProcessedAll(StartedAt(st, j), j, todo, attempts, physical, |todo|);
            Advanced(st, j, limit, locked, attempts, physical) == WithJob(done, j, Closed(done.jobs[j]))
  {
  }

  /** An advance settles exactly the items it takes, each as its attempt went, and touches no other job. */
  lemma {:induction false} AdvanceSettles(st: Store, j: nat, limit: nat, locked: set<nat>, attempts: nat -> Attempt,
                                          physical: Source -> Physical, i: nat)
    requires j < |st.jobs| && i < |st.jobs[j].items|
    ensures var n := Advanced(st, j, limit, locked, attempts, physical);
            && |n.jobs| == |st.jobs| && |n.jobs[j].items| == |st.jobs[j].items|
            && (forall k :: 0 <= k < |st.jobs| && k != j ==> n.jobs[k] == st.jobs[k])
            && if Takes(st, j, limit, locked, i)
               then EndsAs(st.jobs[j].correction, attempts(i), st.jobs[j].items[i], n.jobs[j].items[i])
               else n.jobs[j].items[i] == st.jobs[j].items[i]
  {
    if Open(st.jobs[j]) {
      AdvanceIsBatch(st, j, limit, locked, attempts, physical);
      var todo := Todo(st, j, limit, locked);
      BatchTakesFirst(st.jobs[j].items, locked, Bound(limit), |st.jobs[j].items|, i);
      BatchIsDone(StartedAt(st, j), j, todo, attempts, physical, |todo|);
      assert todo[..|todo|] == todo;
      DoneSettles(st, j, todo, attempts, ProcessedAll(StartedAt(st, j), j, todo, attempts, physical, |todo|), i);
    }
  }

  lemma {:induction false} DoneSettles(st: Store, j: nat, todo: seq<nat>, attempts: nat -> Attempt, done: Store, i: nat)
    requires j < |st.jobs| && i < |st.jobs[j].items| && todo[..|todo|] == todo
    requires BatchDone(StartedAt(st, j), j, todo, attempts, |todo|, done)
    ensures var n := WithJob(done, j, Closed(done.jobs[j]));
            && |n.jobs| == |st.jobs| && |n.jobs[j].items| == |st.jobs[j].items|
            && (forall k :: 0 <= k < |st.jobs| && k != j ==> n.jobs[k] == st.jobs[k])
            && if i in todo
               then EndsAs(st.jobs[j].correction, attempts(i), st.jobs[j].items[i], n.jobs[j].items[i])
               else n.jobs[j].items[i] == st.jobs[j].items[i]
  {
  }

  /** An advanced job is done when nothing is pending: cleanly if and only if every item succeeded. */
  lemma {:induction false} AdvanceCloses(st: Store, j: nat, limit: nat, locked: set<nat>, attempts: nat -> Attempt,
                                         physical: Source -> Physical)
    requires KindsApart(physical) && StoreOk(st, physical) && j < |st.jobs| && Open(st.jobs[j])
    ensures var job := Advanced(st, j, limit, locked, attempts, physical).jobs[j];
            var pending := exists i :: 0 <= i < |job.items| && job.items[i].status == Pending;
            var clean := forall i :: 0 <= i < |job.items| ==> job.items[i].status == Succeeded;
            job.status == if pending then Running else if clean then CompletedClean else CompletedWithAttention
  {
    var todo := Todo(st, j, limit, locked);
    AdvanceIsBatch(st, j, limit, locked, attempts, physical);
    StartedOk(st, j, physical);
    ProcessedAllKeeps(StartedAt(st, j), j, todo, attempts, physical, |todo|);
    ClosesExactly(ProcessedAll(StartedAt(st, j), j, todo, attempts, physical, |todo|).jobs[j]);
  }

  lemma {:induction false} ClosesExactly(job: Job)
    requires JobOk(job) && job.status == Running
    ensures var pending := exists i :: 0 <= i < |job.items| && job.items[i].status == Pending;
            var clean := forall i :: 0 <= i < |job.items| ==> job.items[i].status == Succeeded;
            Closed(job).items == job.items
            && Closed(job).status
               == if pending then Running else if clean then CompletedClean else CompletedWithAttention
  {
    var n := |job.items|;
    CountsCover(job.items, n);
    NoneCounted(job.items, n, Pending);
    NoneCounted(job.items, n, Failed);
    NoneCounted(job.items, n, Skipped);
    NoneCounted(job.items, n, Cancelled);
    AllCounted(job.items, n);
  }

  lemma {:induction false} NoneCounted(items: seq<Item>, n: nat, s: ItemStatus)
    requires n <= |items|
    ensures CountTo(items, n, s) == 0 <==> forall i :: 0 <= i < n ==> items[i].status != s
  {
    if n > 0 {
      NoneCounted(items, n - 1, s);
    }
  }

  lemma {:induction false} AllCounted(items: seq<Item>, n: nat)
    requires n <= |items|
    ensures CountTo(items, n, Succeeded) <= n
    ensures CountTo(items, n, Succeeded) == n <==> forall i :: 0 <= i < n ==> items[i].status == Succeeded
  {
    if n > 0 {
      AllCounted(items, n - 1);
    }
  }

  // ---------------------------------------------------------------- which records are corrected

  /** A created correction holds the item's record: of the same row, or of another row of that record. */
  ghost predicate Corrected(corrections: seq<Correction>, source: Source, physical: Source -> Physical) {
    exists k :: 0 <= k < |corrections| && corrections[k].created && physical(corrections[k].source) == physical(source)
  }

  lemma CorrectedIsFound(corrections: seq<Correction>, source: Source, physical: Source -> Physical)
    requires KindsApart(physical)
    ensures Corrected(corrections, source, physical) <==>
              HasCreated(corrections, source) || HasTwin(corrections, source, physical)
  {
    if Corrected(corrections, source, physical) {
      var k :| 0 <= k < |corrections| && corrections[k].created && physical(corrections[k].source) == physical(source);
      assert physical(corrections[k].source).TerminalRecord? <==> physical(source).TerminalRecord?;
      assert corrections[k].source.kind == source.kind;
    }
  }

  /** An attempted correction is made exactly where its record has none yet, and the record has one afterwards. */
  lemma CorrectsOnce(st: Store, j: nat, i: nat, attempt: Attempt, physical: Source -> Physical)
    requires KindsApart(physical) && j < |st.jobs| && i < |st.jobs[j].items| && st.jobs[j].correction
    requires !attempt.Rejected? && !attempt.Crashed?
    ensures var n, it := Processed(st, j, i, attempt, physical), st.jobs[j].items[i];
            && n.jobs[j].items[i].status
               == (if Corrected(st.corrections, it.source, physical) then Skipped else Succeeded)
            && Corrected(n.corrections, it.source, physical)
            && (Corrected(st.corrections, it.source, physical) ==>
                  n.corrections == st.corrections && n.events == st.events)
            && (!Corrected(st.corrections, it.source, physical) ==>
                  |n.corrections| == |st.corrections| + 1 && n.corrections[..|st.corrections|] == st.corrections
                  && HasPunch(n, it.source, it.time))
  {
    var n, it := Processed(st, j, i, attempt, physical), st.jobs[j].items[i];
    CorrectedIsFound(st.corrections, it.source, physical);
    if Corrected(st.corrections, it.source, physical) {
      assert n.corrections == st.corrections;
    } else {
      assert n.corrections[|st.corrections|] == NewCorrection(st, it);
      assert n.corrections[|st.corrections|].source == it.source;
    }
  }

  /** A refused or crashed attempt, and one of a delivery job, leaves corrections and derived punches as they were. */
  lemma OthersCorrectNothing(st: Store, j: nat, i: nat, attempt: Attempt, physical: Source -> Physical)
    requires j < |st.jobs| && i < |st.jobs[j].items|
    requires attempt.Rejected? || attempt.Crashed? || !st.jobs[j].correction
    ensures var n := Processed(st, j, i, attempt, physical);
            n.corrections == st.corrections && n.events == st.events
  {
  }

  /** While a batch runs, no created correction is lost. */
  lemma {:induction false} CorrectedStays(
      st: Store, j: nat, todo: seq<nat>, attempts: nat -> Attempt, physical: Source -> Physical, m: nat, n: nat)
    requires j < |st.jobs| && m <= n <= |todo| && IsBatch(st.jobs[j].items, todo)
    ensures ProcessedAll(st, j, todo, attempts, physical, m).corrections
            <= ProcessedAll(st, j, todo, attempts, physical, n).corrections
    decreases n
  {
    if m < n {
      CorrectedStays(st, j, todo, attempts, physical, m, n - 1);
    }
  }

  /** After an advance, every record whose correction was attempted without failing has a created correction. */
  lemma {:induction false} TakenIsCorrected(st: Store, j: nat, limit: nat, locked: set<nat>,
                                            attempts: nat -> Attempt, physical: Source -> Physical, i: nat)
    requires KindsApart(physical) && Takes(st, j, limit, locked, i) && st.jobs[j].correction
    requires !attempts(i).Rejected? && !attempts(i).Crashed?
    ensures Corrected(Advanced(st, j, limit, locked, attempts, physical).corrections, st.jobs[j].items[i].source,
                      physical)
  {
    var started, todo := StartedAt(st, j), Todo(st, j, limit, locked);
    AdvanceIsBatch(st, j, limit, locked, attempts, physical);
    BatchTakesFirst(st.jobs[j].items, locked, Bound(limit), |st.jobs[j].items|, i);
    var k :| 0 <= k < |todo| && todo[k] == i;
    BatchCorrects(started, j, todo, attempts, physical, k);
  }

  lemma {:induction false} BatchCorrects(
      st: Store, j: nat, todo: seq<nat>, attempts: nat -> Attempt, physical: Source -> Physical, k: nat)
    requires KindsApart(physical) && j < |st.jobs| && st.jobs[j].correction && IsBatch(st.jobs[j].items, todo)
    requires k < |todo| && !attempts(todo[k]).Rejected? && !attempts(todo[k]).Crashed?
    ensures Corrected(ProcessedAll(st, j, todo, attempts, physical, |todo|).corrections,
                      st.jobs[j].items[todo[k]].source, physical)
  {
    var i := todo[k];
    BatchIsDone(st, j, todo, attempts, physical, k);
    assert i !in todo[..k];
    var before := ProcessedAll(st, j, todo, attempts, physical, k);
    CorrectsOnce(before, j, i, attempts(i), physical);
    CorrectedStays(st, j, todo, attempts, physical, k + 1, |todo|);
    CorrectedGrows(Processed(before, j, i, attempts(i), physical).corrections,
                   ProcessedAll(st, j, todo, attempts, physical, |todo|).corrections, st.jobs[j].items[i].source,
                   physical);
  }

  lemma CorrectedGrows(a: seq<Correction>, b: seq<Correction>, source: Source, physical: Source -> Physical)
    requires a <= b && Corrected(a, source, physical)
    ensures Corrected(b, source, physical)
  {
    var k :| 0 <= k < |a| && a[k].created && physical(a[k].source) == physical(source);
    assert b[k] == a[k];
  }

  // --------------------------------------------------------------------------- control

  /** Some item among the first n failed without being rejected. */
  predicate AnyCrashed(items: seq<Item>, n: nat)
    requires n <= |items|
  {
    exists k :: 0 <= k < n && items[k].status == Failed && items[k].unexpected
  }

  /** What each control does to a job and its items, and when it does nothing; it never touches anything else. */
  lemma {:induction false} ControlsSay(st: Store, j: nat, c: Control, i: nat)
    requires j < |st.jobs| && i < |st.jobs[j].items|
    ensures var next := Controlled(st, j, c);
            next.corrections == st.corrections && next.events == st.events && |next.jobs| == |st.jobs|
            && (forall k :: 0 <= k < |st.jobs| && k != j ==> next.jobs[k] == st.jobs[k])
            && JobControlled(st.jobs[j], c, i, next.jobs[j])
  {
    JobControlSays(st.jobs[j], c, i);
  }

  ghost predicate JobControlled(job: Job, c: Control, i: nat, n: Job)
    requires i < |job.items|
  {
    var retries := c == Retry && job.status == CompletedWithAttention && job.retryable
                   && AnyCrashed(job.items, |job.items|);
    var cancels := c == Cancel && job.status in {Queued, Running, PausedJob};
    && n.status == (if c == Pause && job.status in {Queued, Running} then PausedJob
                    else if c == Resume && job.status == PausedJob then Queued
                    else if cancels then CancelledJob else if retries then Queued else job.status)
    && |n.items| == |job.items|
    && n.items[i] == if cancels && job.items[i].status == Pending then job.items[i].(status := Cancelled)
                     else if retries && job.items[i].status == Failed && job.items[i].unexpected
                     then job.items[i].(status := Pending) else job.items[i]
  }

  lemma {:induction false} JobControlSays(job: Job, c: Control, i: nat)
    requires i < |job.items|
    ensures JobControlled(job, c, i, ControlledJob(job, c))
  {
    RetryCounted(job.items, |job.items|);
    var retried := Swapped(job.items, Retryable, Pending);
    assert retried[i] == if Retryable(job.items[i]) then job.items[i].(status := Pending) else job.items[i];
  }

  lemma {:induction false} RetryCounted(items: seq<Item>, n: nat)
    requires n <= |items|
    ensures RetryCount(items, n) > 0 <==> AnyCrashed(items, n)
  {
    if n > 0 {
      RetryCounted(items, n - 1);
    }
  }
}
