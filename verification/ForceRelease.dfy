/** A force-release run: one task per device, one item per punch, and a job stepped by the scheduler. */
module ForceRelease {

  const STEP_BATCH := 25
  const BATCH := 100
  const LOCK_CANDIDATES := 5

  datatype JobStatus =
    | Checking | Checked | Running | WaitingOracle | Paused | Stopping | Completed | CompletedWithReview | Stopped

  datatype TaskStatus = Baseline | SyncPending | Syncing | Scanning | Scanned | Releasing | Unavailable | Done

  datatype ItemStatus = Ready | NeedsReview | Excluded | Waiting | Confirmed | Skipped | Halted

  /** `updated` is when it was last served. */
  datatype Task = Task(status: TaskStatus, updated: nat)

  /** A punch of one device; items are listed in the order of their ids. */
  datatype Item = Item(task: nat, status: ItemStatus)

  datatype State = State(job: JobStatus, tasks: seq<Task>, items: seq<Item>, clock: nat)

  predicate Selectable(s: TaskStatus) {
    s != Scanned && s != Done
  }

  predicate Terminal(j: JobStatus) {
    j == Completed || j == CompletedWithReview || j == Stopped
  }

  predicate AnyItem(items: seq<Item>, s: ItemStatus) {
    exists i :: 0 <= i < |items| && items[i].status == s
  }

  predicate HasReady(items: seq<Item>, task: nat) {
    exists i :: 0 <= i < |items| && items[i].task == task && items[i].status == Ready
  }

  // ---- Moving the first items that match ----

  function Matches(items: seq<Item>, pick: Item -> bool, n: nat): nat
    requires n <= |items|
  {
    if n == 0 then 0 else Matches(items, pick, n - 1) + if pick(items[n - 1]) then 1 else 0
  }

  /** The first `limit` matching items take the status `to` gives them. */
  function Moved(items: seq<Item>, pick: Item -> bool, limit: nat, to: nat -> ItemStatus): (out: seq<Item>)
    ensures |out| == |items|
  {
    seq(|items|, i requires 0 <= i < |items| =>
      if pick(items[i]) && Matches(items, pick, i) < limit then items[i].(status := to(i)) else items[i])
  }

  /** The loop shared by releasing, skipping and stopping: a query limited to `limit` rows, each row updated. */
  method Move(items: seq<Item>, pick: Item -> bool, limit: nat, to: nat -> ItemStatus)
    returns (moved: seq<Item>, taken: nat, next: nat)
    ensures moved == Moved(items, pick, limit, to)
    ensures taken <= limit && next <= |items| && Matches(items, pick, next) == taken
            && (taken < limit ==> next == |items|)
  {
    moved, taken, next := items, 0, 0;
    while next < |items| && taken < limit
      invariant next <= |items| == |moved| && taken == Matches(items, pick, next) <= limit
      invariant forall i :: 0 <= i < next ==> moved[i] == Moved(items, pick, limit, to)[i]
      invariant forall i :: next <= i < |items| ==> moved[i] == items[i]
    {
      if pick(items[next]) {
        moved := moved[next := items[next].(status := to(next))];
        taken := taken + 1;
      }
      next := next + 1;
    }
    forall i | next <= i < |items|
      ensures Matches(items, pick, i) >= taken
    {
      MatchesGrow(items, pick, next, i);
    }
  }

  lemma {:induction false} MatchesGrow(items: seq<Item>, pick: Item -> bool, i: nat, n: nat)
    requires i <= n <= |items|
    ensures Matches(items, pick, i) <= Matches(items, pick, n)
    ensures Matches(items, pick, i) < Matches(items, pick, n) <==> exists k :: i <= k < n && pick(items[k])
  {
    if i < n {
      MatchesGrow(items, pick, i, n - 1);
    }
  }

  // ---- What a step finds on the device ----

  datatype BaselineOutcome = RosterMoved | MoreUsers | LastUsers
  datatype RequestOutcome = TooManySyncs | OwnCommandActive | OtherCommandActive | Requested
  datatype AcceptOutcome = SyncLost | NotYet | Fresh
  datatype Freshness = RolledBack | StaleSync | FreshSync
  datatype Verdict = IsReady | IsReview | IsExcluded
  datatype Applied = AppliedReview | AppliedSkip | AppliedQueued

  datatype Look = Look(bound: bool, connected: bool, enabled: bool, baseline: BaselineOutcome, request: RequestOutcome,
                       accept: AcceptOutcome, scan: seq<Verdict>, sync: Freshness, apply: nat -> Applied)

  function StatusOf(a: Applied): ItemStatus {
    match a case AppliedReview => NeedsReview case AppliedSkip => Skipped case AppliedQueued => Waiting
  }

  function ApplyWith(look: Look): (to: nat -> ItemStatus)
    ensures forall i: nat :: to(i) != Ready && to(i) != Halted
  {
    assert forall i: nat :: StatusOf(look.apply(i)) != Ready && StatusOf(look.apply(i)) != Halted;
    (i: nat) => StatusOf(look.apply(i))
  }

  function ReadyOf(k: nat): Item -> bool {
    (it: Item) => it.task == k && it.status == Ready
  }

  function SetTask(s: State, k: nat, to: TaskStatus): State
    requires k < |s.tasks|
  {
    s.(tasks := s.tasks[k := s.tasks[k].(status := to)])
  }

  function VerdictStatus(v: Verdict): ItemStatus {
    match v case IsReady => Ready case IsReview => NeedsReview case IsExcluded => Excluded
  }

  function ScanItems(k: nat, scan: seq<Verdict>): (out: seq<Item>)
    ensures |out| == |scan| && forall i :: 0 <= i < |scan| ==> out[i] == Item(k, VerdictStatus(scan[i]))
  {
    seq(|scan|, i requires 0 <= i < |scan| => Item(k, VerdictStatus(scan[i])))
  }

  /** `_release_batch`. */
  function Released(s: State, k: nat, look: Look): State
    requires k < |s.tasks|
  {
    match look.sync
    case RolledBack => SetTask(s, k, Unavailable)
    case StaleSync => SetTask(s, k, SyncPending)
    case FreshSync =>
      var items := Moved(s.items, ReadyOf(k), STEP_BATCH, ApplyWith(look));
      SetTask(s.(items := items), k, if HasReady(items, k) then Releasing else Done)
  }

  /** The step of one task, before an unavailable device's items are skipped. */
  function Worked(s: State, k: nat, look: Look): State
    requires k < |s.tasks|
  {
    if !look.bound || !look.connected || !look.enabled then SetTask(s, k, Unavailable)
    else
      match s.tasks[k].status
      case Baseline =>
        (match look.baseline
         case RosterMoved => SetTask(s, k, Unavailable)
         case MoreUsers => s
         case LastUsers => SetTask(s, k, SyncPending))
      case SyncPending =>
        (match look.request
         case TooManySyncs => s case OwnCommandActive => s
         case OtherCommandActive => SetTask(s, k, Unavailable) case Requested => SetTask(s, k, Syncing))
      case Syncing =>
        (match look.accept
         case SyncLost => SetTask(s, k, Unavailable) case NotYet => s
         case Fresh => SetTask(s, k, if s.job == Running then Releasing else Scanning))
      case Scanning =>
        var some := if |look.scan| <= STEP_BATCH then look.scan else look.scan[..STEP_BATCH];
        var next := s.(items := s.items + ScanItems(k, some));
        if |some| < STEP_BATCH then SetTask(next, k, Scanned) else next
      case Releasing => Released(s, k, look)
      case Unavailable => s
      case Scanned => s
      case Done => s
  }

  function Served(s: State, k: nat, look: Look): State
    requires k < |s.tasks|
  {
    var next := Worked(s, k, look);
    var skipped := if next.tasks[k].status == Unavailable && s.job == Running
                   then next.(items := Moved(next.items, ReadyOf(k), BATCH, _ => Skipped)) else next;
    skipped.(tasks := skipped.tasks[k := skipped.tasks[k].(updated := s.clock)], clock := s.clock + 1)
  }

  // ---- Choosing a task ----

  predicate Earlier(tasks: seq<Task>, i: nat, j: nat)
    requires i < |tasks| && j < |tasks|
  {
    tasks[i].updated < tasks[j].updated || (tasks[i].updated == tasks[j].updated && i < j)
  }

  predicate ByAge(tasks: seq<Task>, order: seq<nat>) {
    && (forall i :: 0 <= i < |order| ==> order[i] < |tasks|)
    && (forall i, j :: 0 <= i < j < |order| ==> Earlier(tasks, order[i], order[j]))
  }

  function InsertDue(tasks: seq<Task>, k: nat, order: seq<nat>): (out: seq<nat>)
    requires k < |tasks| && k !in order && ByAge(tasks, order)
    ensures ByAge(tasks, out)
    ensures forall x: nat :: x in out <==> x == k || x in order
  {
    if order == [] || Earlier(tasks, k, order[0]) then [k] + order
    else
      assert order == [order[0]] + order[1..];
      var rest := InsertDue(tasks, k, order[1..]);
      assert forall i :: 0 <= i < |rest| ==> rest[i] in rest && (rest[i] == k || rest[i] in order[1..]);
      assert forall i :: 0 <= i < |rest| ==> Earlier(tasks, order[0], rest[i]);
      [order[0]] + rest
  }

  /** The device tasks the scheduler selects, least recently served first. */
  function Due(tasks: seq<Task>, n: nat): (out: seq<nat>)
    requires n <= |tasks|
    ensures forall k: nat :: k in out <==> k < n && Selectable(tasks[k].status)
    ensures ByAge(tasks, out)
  {
    if n == 0 then []
    else if Selectable(tasks[n - 1].status) then InsertDue(tasks, n - 1, Due(tasks, n - 1))
    else Due(tasks, n - 1)
  }

  datatype Choice = Nothing | AllBusy | Chosen(task: nat)

  function FirstFree(order: seq<nat>, busy: set<nat>): (c: Choice)
    ensures c.Chosen? ==> c.task in order && c.task !in busy
    ensures c.AllBusy? ==> forall k :: k in order ==> k in busy
    ensures c.Nothing? <==> order == []
  {
    if order == [] then Nothing
    else if order[0] !in busy then Chosen(order[0])
    else
      var rest := FirstFree(order[1..], busy);
      if rest.Nothing? then AllBusy else rest
  }

  function NextTask(s: State, busy: set<nat>): (c: Choice)
    ensures c.Chosen? ==> c.task < |s.tasks| && Selectable(s.tasks[c.task].status)
    ensures c.Nothing? ==> forall k :: 0 <= k < |s.tasks| ==> !Selectable(s.tasks[k].status)
  {
    var due := Due(s.tasks, |s.tasks|);
    FirstFree(if |due| <= LOCK_CANDIDATES then due else due[..LOCK_CANDIDATES], busy)
  }

  // ---- One scheduler step ----

  /** What `_observe` learned about an item waiting for Oracle. */
  datatype Observed = Unread | StillWaiting | OracleConfirmed | OracleRefused

  function ObservedItems(items: seq<Item>, seen: nat -> Observed): (out: seq<Item>)
    ensures |out| == |items|
  {
    seq(|items|, i requires 0 <= i < |items| =>
      if items[i].status != Waiting then items[i]
      else match seen(i)
           case OracleConfirmed => items[i].(status := Confirmed)
           case OracleRefused => items[i].(status := NeedsReview)
           case _ => items[i])
  }

  function FinishTasks(tasks: seq<Task>): (out: seq<Task>)
    ensures |out| == |tasks|
  {
    seq(|tasks|, i requires 0 <= i < |tasks| =>
      if tasks[i].status == Unavailable then tasks[i] else tasks[i].(status := Done))
  }

  /** `_settle`: where the job stands after a step. */
  function Settled(s: State): State {
    if AnyItem(s.items, Ready) then s
    else if AnyItem(s.items, Waiting) then (if s.job == Stopping then s else s.(job := WaitingOracle))
    else if s.job == Stopping then s.(job := Stopped)
    else if AnyItem(s.items, NeedsReview) || AnyItem(s.items, Skipped)
              || exists k :: 0 <= k < |s.tasks| && s.tasks[k].status == Unavailable
    then s.(job := CompletedWithReview)
    else s.(job := Completed)
  }

  function CheckFinished(s: State): State {
    if forall k :: 0 <= k < |s.tasks| ==> s.tasks[k].status == Scanned || s.tasks[k].status == Unavailable
    then s.(job := Checked) else s
  }

  function AfterObserving(s: State, seen: nat -> Observed): State {
    if s.job != Checking && !AnyItem(s.items, Ready) then s.(items := ObservedItems(s.items, seen)) else s
  }

  function Halting(s: State): State {
    s.(items := Moved(s.items, (it: Item) => it.status == Ready, BATCH, _ => Halted), tasks := FinishTasks(s.tasks))
  }

  function Advanced(s: State, busy: set<nat>, look: Look, seen: nat -> Observed): State {
    if Terminal(s.job) || s.job == Checked then s
    else
      var o := AfterObserving(s, seen);
      if s.job == Stopping then Settled(Halting(o))
      else if s.job == WaitingOracle then Settled(o)
      else if s.job == Paused then o
      else Stepped(o, NextTask(o, busy), look)
  }

  /** A checking or running job serves the device it could lock. */
  function Stepped(s: State, choice: Choice, look: Look): State
    requires choice.Chosen? ==> choice.task < |s.tasks|
  {
    if choice.AllBusy? then s
    else
      var next := if choice.Chosen? then Served(s, choice.task, look) else s;
      if s.job == Checking then CheckFinished(next) else Settled(next)
  }

  // ---- Start and control ----

  function Resync(s: State, keepUnavailable: bool): seq<Task> {
    seq(|s.tasks|, k requires 0 <= k < |s.tasks| =>
      if HasReady(s.items, k) && !(keepUnavailable && s.tasks[k].status == Unavailable) then
        s.tasks[k].(status := SyncPending)
      else s.tasks[k])
  }

  function Started(s: State): State {
    if s.job != Checked || !AnyItem(s.items, Ready) then s else s.(job := Running, tasks := Resync(s, false))
  }

  datatype Control = Stop | Pause | Resume

  function Controlled(s: State, c: Control): State {
    if c == Stop && !Terminal(s.job) then s.(job := Stopping)
    else if c == Pause && (s.job == Running || s.job == WaitingOracle) then s.(job := Paused)
    else if c == Resume && s.job == Paused then s.(job := Running, tasks := Resync(s, true))
    else s
  }

  class ForceRun {
    var job: JobStatus
    var tasks: seq<Task>
    var items: seq<Item>
    var clock: nat

    ghost function Now(): State
      reads this
    {
      State(job, tasks, items, clock)
    }

    /** Releases one batch and marks the device done when nothing of it is left. */
    method ReleaseBatch(k: nat, look: Look)
      requires k < |tasks|
      modifies this`tasks, this`items
      ensures Now() == Released(old(Now()), k, look)
    {
      if look.sync == RolledBack {
        tasks := tasks[k := tasks[k].(status := Unavailable)];
      } else if look.sync == StaleSync {
        tasks := tasks[k := tasks[k].(status := SyncPending)];
      } else {
        var before := items;
        var moved, taken, next := Move(before, ReadyOf(k), STEP_BATCH, ApplyWith(look));
        items := moved;
        LeftAfterBatch(before, k, look, taken, next);
        if taken < STEP_BATCH || !(exists i :: next <= i < |before| && ReadyOf(k)(before[i])) {
          tasks := tasks[k := tasks[k].(status := Done)];
        } else {
          tasks := tasks[k := tasks[k].(status := Releasing)];
        }
      }
    }

    method Work(k: nat, look: Look)
      requires k < |tasks|
      modifies this`tasks, this`items
      ensures Now() == Worked(old(Now()), k, look)
    {
      if !look.bound || !look.connected || !look.enabled {
        SetStatus(k, Unavailable);
      } else {
        match tasks[k].status
        case Baseline =>
          if look.baseline == RosterMoved { SetStatus(k, Unavailable); }
          else if look.baseline == LastUsers { SetStatus(k, SyncPending); }
        case SyncPending =>
          if look.request == OtherCommandActive { SetStatus(k, Unavailable); }
          else if look.request == Requested { SetStatus(k, Syncing); }
        case Syncing =>
          if look.accept == SyncLost { SetStatus(k, Unavailable); }
          else if look.accept == Fresh { SetStatus(k, if job == Running then Releasing else Scanning); }
        case Scanning =>
          var some := if |look.scan| <= STEP_BATCH then look.scan else look.scan[..STEP_BATCH];
          items := items + ScanItems(k, some);
          if |some| < STEP_BATCH { SetStatus(k, Scanned); }
        case Releasing => ReleaseBatch(k, look);
        case Unavailable =>
        case Scanned =>
        case Done =>
      }
    }

    method SetStatus(k: nat, to: TaskStatus)
      requires k < |tasks|
      modifies this`tasks
      ensures Now() == SetTask(old(Now()), k, to)
    {
      tasks := tasks[k := tasks[k].(status := to)];
    }

    method Serve(k: nat, look: Look)
      requires k < |tasks|
      modifies this
      ensures Now() == Served(old(Now()), k, look)
    {
      Work(k, look);
      if tasks[k].status == Unavailable && job == Running {
        var moved, _, _ := Move(items, ReadyOf(k), BATCH, _ => Skipped);
        items := moved;
      }
      tasks, clock := tasks[k := tasks[k].(updated := clock)], clock + 1;
    }

    method Settle()
      modifies this`job
      ensures Now() == Settled(old(Now()))
    {
      if AnyItem(items, Ready) { return; }
      if AnyItem(items, Waiting) {
        if job != Stopping { job := WaitingOracle; }
        return;
      }
      if job == Stopping {
        job := Stopped;
      } else if AnyItem(items, NeedsReview) || AnyItem(items, Skipped)
          || exists k :: 0 <= k < |tasks| && tasks[k].status == Unavailable {
        job := CompletedWithReview;
      } else {
        job := Completed;
      }
    }

    method AdvanceOnce(busy: set<nat>, look: Look, seen: nat -> Observed)
      modifies this
      ensures Now() == Advanced(old(Now()), busy, look, seen)
    {
      if Terminal(job) || job == Checked { return; }
      if job != Checking && !AnyItem(items, Ready) { items := ObservedItems(items, seen); }
      if job == Stopping {
        var moved, _, _ := Move(items, (it: Item) => it.status == Ready, BATCH, _ => Halted);
        items, tasks := moved, FinishTasks(tasks);
        Settle();
      } else if job == Checking || job == Running {
        var choice := NextTask(State(job, tasks, items, clock), busy);
        Step(choice, look);
      } else if job != Paused {
        Settle();
      }
    }

    method Step(choice: Choice, look: Look)
      requires choice.Chosen? ==> choice.task < |tasks|
      modifies this
      ensures Now() == Stepped(old(Now()), choice, look)
    {
      if choice.AllBusy? { return; }
      if choice.Chosen? { Serve(choice.task, look); }
      if job == Checking {
        if forall k :: 0 <= k < |tasks| ==> tasks[k].status == Scanned || tasks[k].status == Unavailable {
          job := Checked;
        }
      } else {
        Settle();
      }
    }

    method Start()
      modifies this`job, this`tasks
      ensures Now() == Started(old(Now()))
    {
      if job == Checked && AnyItem(items, Ready) {
        tasks := Resync(State(job, tasks, items, clock), false);
        job := Running;
      }
    }

    method Apply(c: Control)
      modifies this`job, this`tasks
      ensures Now() == Controlled(old(Now()), c)
    {
      if c == Stop && !Terminal(job) {
        job := Stopping;
      } else if c == Pause && (job == Running || job == WaitingOracle) {
        job := Paused;
      } else if c == Resume && job == Paused {
        tasks := Resync(State(job, tasks, items, clock), true);
        job := Running;
      }
    }
  }

  /** After a batch, a device still has work exactly when a ready item lies beyond a full batch. */
  lemma LeftAfterBatch(items: seq<Item>, k: nat, look: Look, taken: nat, next: nat)
    requires next <= |items| && Matches(items, ReadyOf(k), next) == taken <= STEP_BATCH
             && (taken < STEP_BATCH ==> next == |items|)
    ensures var moved := Moved(items, ReadyOf(k), STEP_BATCH, ApplyWith(look));
            HasReady(moved, k) <==> taken == STEP_BATCH && exists i :: next <= i < |items| && ReadyOf(k)(items[i])
  {
    var pick := ReadyOf(k);
    var moved := Moved(items, pick, STEP_BATCH, ApplyWith(look));
    if HasReady(moved, k) {
      var i :| 0 <= i < |moved| && moved[i].task == k && moved[i].status == Ready;
      assert pick(items[i]) && Matches(items, pick, i) >= STEP_BATCH;
      if i < next { MatchesGrow(items, pick, i, next); }
      MatchesGrow(items, pick, i, |items|);
    }
    if taken == STEP_BATCH && exists i :: next <= i < |items| && pick(items[i]) {
      var i :| next <= i < |items| && pick(items[i]);
      MatchesGrow(items, pick, next, i);
      assert moved[i] == items[i];
    }
  }
}
