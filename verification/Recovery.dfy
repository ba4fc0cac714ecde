/** Attendance recovery jobs and timestamp corrections: bounded batches, savepoints, and operator control. */
module Recovery {

  datatype ItemStatus = Pending | Succeeded | Failed | Skipped | Cancelled

  datatype JobStatus = Queued | Running | PausedJob | CompletedClean | CompletedWithAttention | CancelledJob

  datatype Kind = ZktManifest | HikvisionEvidence

  /** A preserved source row: its kind and reference. */
  datatype Source = Source(kind: Kind, ref: string)

  /** The terminal record, or the Hikvision event, that a source row holds. */
  datatype Physical =
    | TerminalRecord(zkt: int, serial: string, ordinal: int, digest: string)
    | HikvisionEvent(uid: string)

  datatype Item = Item(source: Source, time: int, status: ItemStatus, unexpected: bool)

  datatype Job = Job(correction: bool, retryable: bool, requested: nat, status: JobStatus, succeeded: nat, failed: nat,
        skipped: nat, items: seq<Item>)

  /** Content of the derived event UID. */
  datatype Derived = Derived(source: Source, version: nat, time: int)

  datatype Correction = Correction(source: Source, version: nat, time: int, created: bool)

  datatype Store = Store(jobs: seq<Job>, corrections: seq<Correction>, events: set<Derived>)

  /** How one item's savepoint ends; the last two are decided by what the code then finds. */
  datatype Attempt = Rejected | Crashed(afterWrites: bool) | NotEligible | Proceeds

  function DerivedOf(c: Correction): Derived {
    Derived(c.source, c.version, c.time)
  }

  predicate HasCreated(corrections: seq<Correction>, source: Source) {
    exists k :: 0 <= k < |corrections| && corrections[k].created && corrections[k].source == source
  }

  /** A created correction of another source row that holds the same physical record. */
  predicate HasTwin(corrections: seq<Correction>, source: Source, physical: Source -> Physical) {
    exists k :: 0 <= k < |corrections| && corrections[k].created
                && corrections[k].source.kind == source.kind && physical(corrections[k].source) == physical(source)
  }

  function LastVersion(corrections: seq<Correction>, source: Source): (v: nat)
    ensures forall k :: 0 <= k < |corrections| && corrections[k].source == source ==> corrections[k].version <= v
  {
    if corrections == [] then 0
    else
      var n := |corrections| - 1;
      var rest := LastVersion(corrections[..n], source);
      if corrections[n].source == source && corrections[n].version > rest then corrections[n].version else rest
  }

  function CountTo(items: seq<Item>, n: nat, s: ItemStatus): nat
    requires n <= |items|
  {
    if n == 0 then 0 else CountTo(items, n - 1, s) + if items[n - 1].status == s then 1 else 0
  }

  function Count(items: seq<Item>, s: ItemStatus): nat {
    CountTo(items, |items|, s)
  }

  // ---- One item ----

  function WithItem(job: Job, i: nat, status: ItemStatus, unexpected: bool): Job
    requires i < |job.items|
  {
    job.(items := job.items[i := job.items[i].(status := status, unexpected := unexpected)],
         succeeded := job.succeeded + (if status == Succeeded then 1 else 0),
         failed := job.failed + (if status == Failed then 1 else 0),
         skipped := job.skipped + (if status == Skipped then 1 else 0))
  }

  function WithJob(st: Store, j: nat, job: Job): Store
    requires j < |st.jobs|
  {
    st.(jobs := st.jobs[j := job])
  }

  function NewCorrection(st: Store, it: Item): Correction {
    Correction(it.source, LastVersion(st.corrections, it.source) + 1, it.time, true)
  }

  /** One item in its savepoint: a failure leaves nothing behind but the failed item. */
  function Processed(st: Store, j: nat, i: nat, attempt: Attempt, physical: Source -> Physical): Store
    requires j < |st.jobs| && i < |st.jobs[j].items|
  {
    var job, it := st.jobs[j], st.jobs[j].items[i];
    if attempt.Rejected? then WithJob(st, j, WithItem(job, i, Failed, false))
    else if attempt.Crashed? then WithJob(st, j, WithItem(job, i, Failed, true))
    else if !job.correction then
      WithJob(st, j, WithItem(job, i, if attempt == NotEligible then Skipped else Succeeded, it.unexpected))
    else if HasCreated(st.corrections, it.source) || HasTwin(st.corrections, it.source, physical)
    then WithJob(st, j, WithItem(job, i, Skipped, it.unexpected))
    else
      var c := NewCorrection(st, it);
      WithJob(st, j, WithItem(job, i, Succeeded, it.unexpected))
        .(corrections := st.corrections + [c], events := st.events + {DerivedOf(c)})
  }

  // ---- One bounded batch ----

  /** The first `limit` pending items that are not locked elsewhere, among the first n. */
  function Batch(items: seq<Item>, locked: set<nat>, limit: nat, n: nat): (out: seq<nat>)
    requires n <= |items|
    ensures |out| <= limit
    ensures forall k :: 0 <= k < |out| ==> out[k] < n && items[out[k]].status == Pending
    ensures forall a, b :: 0 <= a < b < |out| ==> out[a] < out[b]
  {
    if n == 0 then []
    else
      var rest := Batch(items, locked, limit, n - 1);
      if |rest| < limit && items[n - 1].status == Pending && n - 1 !in locked then rest + [n - 1] else rest
  }

  function ProcessedAll(st: Store, j: nat, todo: seq<nat>, attempts: nat -> Attempt, physical: Source -> Physical,
        n: nat): (out: Store)
    requires n <= |todo| && j < |st.jobs| && forall k :: 0 <= k < |todo| ==> todo[k] < |st.jobs[j].items|
    ensures |out.jobs| == |st.jobs| && |out.jobs[j].items| == |st.jobs[j].items|
  {
    if n == 0 then st
    else
      Processed(ProcessedAll(st, j, todo, attempts, physical, n - 1), j, todo[n - 1], attempts(todo[n - 1]), physical)
  }

  function Closed(job: Job): Job {
    if Count(job.items, Pending) > 0 then job
    else job.(status := if job.failed > 0 || job.skipped > 0 then CompletedWithAttention else CompletedClean)
  }

  function Advanced(st: Store, j: nat, limit: nat, locked: set<nat>, attempts: nat -> Attempt,
        physical: Source -> Physical): Store {
    if j >= |st.jobs| || !(st.jobs[j].status == Queued || st.jobs[j].status == Running) then st
    else
      var started := WithJob(st, j, st.jobs[j].(status := Running));
      var items := started.jobs[j].items;
      var todo := Batch(items, locked, if limit > 1 then limit else 1, |items|);
      var done := ProcessedAll(started, j, todo, attempts, physical, |todo|);
      WithJob(done, j, Closed(done.jobs[j]))
  }

  // ---- Operator control ----

  datatype Control = Pause | Resume | Cancel | Retry

  function Swapped(items: seq<Item>, pick: Item -> bool, to: ItemStatus): (out: seq<Item>)
    ensures |out| == |items|
  {
    seq(|items|, i requires 0 <= i < |items| => if pick(items[i]) then items[i].(status := to) else items[i])
  }

  predicate Retryable(it: Item) {
    it.status == Failed && it.unexpected
  }

  function ControlledJob(job: Job, c: Control): Job {
    if c == Pause && (job.status == Queued || job.status == Running) then job.(status := PausedJob)
    else if c == Resume && job.status == PausedJob then job.(status := Queued)
    else if c == Cancel && (job.status == Queued || job.status == Running || job.status == PausedJob) then
      job.(status := CancelledJob, skipped := job.skipped + Count(job.items, Pending),
           items := Swapped(job.items, (it: Item) => it.status == Pending, Cancelled))
    else if c == Retry && job.status == CompletedWithAttention && job.retryable
            && RetryCount(job.items, |job.items|) > 0 then
      job.(status := Queued,
           failed := if job.failed < RetryCount(job.items, |job.items|) then 0
                     else job.failed - RetryCount(job.items, |job.items|),
           items := Swapped(job.items, Retryable, Pending))
    else job
  }

  function RetryCount(items: seq<Item>, n: nat): nat
    requires n <= |items|
  {
    if n == 0 then 0 else RetryCount(items, n - 1) + if Retryable(items[n - 1]) then 1 else 0
  }

  function Controlled(st: Store, j: nat, c: Control): Store {
    if j >= |st.jobs| then st else WithJob(st, j, ControlledJob(st.jobs[j], c))
  }

  class RecoveryStore {
    var jobs: seq<Job>
    var corrections: seq<Correction>
    var events: set<Derived>

    ghost function State(): Store
      reads this
    {
      Store(jobs, corrections, events)
    }

    method Mark(j: nat, i: nat, status: ItemStatus, unexpected: bool)
      requires j < |jobs| && i < |jobs[j].items|
      modifies this`jobs
      ensures State() == WithJob(old(State()), j, WithItem(old(jobs[j]), i, status, unexpected))
    {
      var job := jobs[j];
      var it := job.items[i];
      job := job.(items := job.items[i := it.(status := status, unexpected := unexpected)]);
      if status == Succeeded { job := job.(succeeded := job.succeeded + 1); }
      if status == Failed { job := job.(failed := job.failed + 1); }
      if status == Skipped { job := job.(skipped := job.skipped + 1); }
      jobs := jobs[j := job];
    }

    /** `_create_timestamp_correction`. */
    method CreateCorrection(j: nat, i: nat, physical: Source -> Physical)
      requires j < |jobs| && i < |jobs[j].items| && jobs[j].correction
      modifies this
      ensures State() == Processed(old(State()), j, i, Proceeds, physical)
    {
      var it := jobs[j].items[i];
      var existing := HasCreated(corrections, it.source);
      if !existing { existing := HasTwin(corrections, it.source, physical); }
      if existing {
        Mark(j, i, Skipped, it.unexpected);
        return;
      }
      var c := Correction(it.source, LastVersion(corrections, it.source) + 1, it.time, true);
      if DerivedOf(c) !in events { events := events + {DerivedOf(c)}; }
      corrections := corrections + [c];
      Mark(j, i, Succeeded, it.unexpected);
    }

    /** The worker's savepoint: whatever was written before a failure is rolled back. */
    method ProcessItem(j: nat, i: nat, attempt: Attempt, physical: Source -> Physical)
      requires j < |jobs| && i < |jobs[j].items|
      modifies this
      ensures State() == Processed(old(State()), j, i, attempt, physical)
    {
      if attempt.Rejected? {
        Mark(j, i, Failed, false);
        return;
      }
      var savedJobs, savedCorrections, savedEvents := jobs, corrections, events;
      if !attempt.Crashed? || attempt.afterWrites {
        if jobs[j].correction {
          CreateCorrection(j, i, physical);
        } else {
          Mark(j, i, if attempt == NotEligible then Skipped else Succeeded, jobs[j].items[i].unexpected);
        }
      }
      if attempt.Crashed? {
        jobs, corrections, events := savedJobs, savedCorrections, savedEvents;
        Mark(j, i, Failed, true);
      }
    }

    method ProcessBatch(j: nat, todo: seq<nat>, attempts: nat -> Attempt, physical: Source -> Physical)
      requires j < |jobs| && forall k :: 0 <= k < |todo| ==> todo[k] < |jobs[j].items|
      modifies this
      ensures State() == ProcessedAll(old(State()), j, todo, attempts, physical, |todo|)
    {
      ghost var before := State();
      for n := 0 to |todo|
        invariant State() == ProcessedAll(before, j, todo, attempts, physical, n)
      {
        ProcessItem(j, todo[n], attempts(todo[n]), physical);
      }
    }

    method Advance(j: nat, limit: nat, locked: set<nat>, attempts: nat -> Attempt, physical: Source -> Physical)
      modifies this
      ensures State() == Advanced(old(State()), j, limit, locked, attempts, physical)
    {
      if j >= |jobs| || !(jobs[j].status == Queued || jobs[j].status == Running) { return; }
      jobs := jobs[j := jobs[j].(status := Running)];
      var todo := Batch(jobs[j].items, locked, if limit > 1 then limit else 1, |jobs[j].items|);
      ProcessBatch(j, todo, attempts, physical);
      var job := jobs[j];
      if Count(job.items, Pending) == 0 {
        var status := if job.failed > 0 || job.skipped > 0 then CompletedWithAttention else CompletedClean;
        jobs := jobs[j := job.(status := status)];
      }
      assert jobs[j := jobs[j]] == jobs;
    }

    method ControlJob(j: nat, c: Control)
      modifies this`jobs
      ensures State() == Controlled(old(State()), j, c)
    {
      if j >= |jobs| { return; }
      var job := jobs[j];
      if c == Pause && (job.status == Queued || job.status == Running) {
        job := job.(status := PausedJob);
      } else if c == Resume && job.status == PausedJob {
        job := job.(status := Queued);
      } else if c == Cancel && (job.status == Queued || job.status == Running || job.status == PausedJob) {
        var items, cancelled := CancelPending(job.items);
        job := job.(items := items, skipped := job.skipped + cancelled, status := CancelledJob);
      } else if c == Retry && job.status == CompletedWithAttention && job.retryable {
        var items, again := RetryFailed(job.items);
        if again > 0 {
          job := job.(items := items, failed := if job.failed < again then 0 else job.failed - again, status := Queued);
        }
      }
      jobs := jobs[j := job];
    }
  }

  method CancelPending(items: seq<Item>) returns (out: seq<Item>, cancelled: nat)
    ensures out == Swapped(items, (it: Item) => it.status == Pending, Cancelled) && cancelled == Count(items, Pending)
  {
    out, cancelled := items, 0;
    for n := 0 to |items|
      invariant |out| == |items| && cancelled == CountTo(items, n, Pending)
      invariant forall i :: 0 <= i < n ==>
                  out[i] == if items[i].status == Pending then items[i].(status := Cancelled) else items[i]
      invariant forall i :: n <= i < |items| ==> out[i] == items[i]
    {
      if items[n].status == Pending {
        out, cancelled := out[n := items[n].(status := Cancelled)], cancelled + 1;
      }
    }
  }

  method RetryFailed(items: seq<Item>) returns (out: seq<Item>, again: nat)
    ensures out == Swapped(items, Retryable, Pending) && again == RetryCount(items, |items|)
  {
    out, again := items, 0;
    for n := 0 to |items|
      invariant |out| == |items| && again == RetryCount(items, n)
      invariant forall i :: 0 <= i < n ==>
                  out[i] == if Retryable(items[i]) then items[i].(status := Pending) else items[i]
      invariant forall i :: n <= i < |items| ==> out[i] == items[i]
    {
      if Retryable(items[n]) {
        out, again := out[n := items[n].(status := Pending)], again + 1;
      }
    }
  }
}
