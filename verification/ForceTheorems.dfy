/** What every force-release run keeps: no ready punch is stranded, and a run ends only when nothing is left. */
module ForceTheorems {
  import opened ForceRelease

  ghost predicate Owned(s: State) {
    forall i :: 0 <= i < |s.items| ==> s.items[i].task < |s.tasks|
  }

  /** Every ready punch belongs to a device the scheduler still selects. */
  ghost predicate Reached(s: State) {
    forall i :: 0 <= i < |s.items| && s.items[i].status == Ready ==>
      s.items[i].task < |s.tasks| && Selectable(s.tasks[s.items[i].task].status)
  }

  ghost predicate PastChecking(s: State) {
    forall k :: 0 <= k < |s.tasks| ==> s.tasks[k].status != Baseline && s.tasks[k].status != Scanning
  }

  ghost predicate StateOk(s: State) {
    && Owned(s)
    && (s.job == Running ==> Reached(s))
    && (s.job == Running || s.job == Paused || s.job == WaitingOracle ==> PastChecking(s))
    && (s.job == Checked ==> forall k :: 0 <= k < |s.tasks| ==>
        s.tasks[k].status == Scanned || s.tasks[k].status == Unavailable)
    && (s.job == WaitingOracle || Terminal(s.job) ==> !AnyItem(s.items, Ready))
    && (Terminal(s.job) ==> !AnyItem(s.items, Waiting))
    && (s.job == Completed ==> !AnyItem(s.items, NeedsReview) && !AnyItem(s.items, Skipped))
    && (s.job == Stopping || s.job == Stopped || NoneHalted(s.items))
  }

  ghost predicate NoneHalted(items: seq<Item>) {
    forall i :: 0 <= i < |items| ==> items[i].status != Halted
  }

  /** Ready items only ever leave that state, and keep their device. */
  ghost predicate OnlyLeaves(a: seq<Item>, b: seq<Item>) {
    |a| == |b| && forall i :: 0 <= i < |a| ==> b[i].task == a[i].task && (b[i].status == Ready ==> a[i].status == Ready)
  }

  lemma MovedOnlyLeaves(items: seq<Item>, pick: Item -> bool, limit: nat, to: nat -> ItemStatus)
    requires forall i: nat :: to(i) != Ready
    ensures OnlyLeaves(items, Moved(items, pick, limit, to))
  {
  }

  lemma MovedHaltsNone(items: seq<Item>, pick: Item -> bool, limit: nat, to: nat -> ItemStatus)
    requires NoneHalted(items) && forall i: nat :: to(i) != Halted
    ensures NoneHalted(Moved(items, pick, limit, to))
  {
  }

  lemma WorkedHaltsNone(s: State, k: nat, look: Look)
    requires k < |s.tasks| && NoneHalted(s.items)
    ensures NoneHalted(Worked(s, k, look).items)
  {
    MovedHaltsNone(s.items, ReadyOf(k), STEP_BATCH, ApplyWith(look));
  }

  lemma ServedHaltsNone(s: State, k: nat, look: Look)
    requires k < |s.tasks| && NoneHalted(s.items)
    ensures NoneHalted(Served(s, k, look).items)
  {
    WorkedHaltsNone(s, k, look);
    MovedHaltsNone(Worked(s, k, look).items, ReadyOf(k), BATCH, _ => Skipped);
  }

  lemma ReleasedKeeps(s: State, k: nat, look: Look)
    requires k < |s.tasks| && Owned(s) && Reached(s) && PastChecking(s)
    ensures var n := Released(s, k, look);
            Owned(n) && Reached(n) && PastChecking(n) && |n.tasks| == |s.tasks| && n.job == s.job
  {
    MovedOnlyLeaves(s.items, ReadyOf(k), STEP_BATCH, ApplyWith(look));
    var n := Released(s, k, look);
    forall i | 0 <= i < |n.items| && n.items[i].status == Ready
      ensures n.items[i].task < |n.tasks| && Selectable(n.tasks[n.items[i].task].status)
    {
      assert s.items[i].status == Ready && n.items[i].task == s.items[i].task;
    }
  }

  lemma WorkedKeeps(s: State, k: nat, look: Look)
    requires k < |s.tasks| && Owned(s) && Reached(s) && PastChecking(s) && s.job == Running
    ensures var n := Worked(s, k, look);
            Owned(n) && Reached(n) && PastChecking(n) && |n.tasks| == |s.tasks| && n.job == s.job
  {
    if look.bound && look.connected && look.enabled && s.tasks[k].status == Releasing {
      ReleasedKeeps(s, k, look);
    }
  }

  lemma ServedKeeps(s: State, k: nat, look: Look)
    requires k < |s.tasks| && StateOk(s) && s.job == Running
    ensures var n := Served(s, k, look);
            Owned(n) && Reached(n) && PastChecking(n) && n.job == Running && NoneHalted(n.items)
  {
    ServedHaltsNone(s, k, look);
    WorkedKeeps(s, k, look);
    MovedOnlyLeaves(Worked(s, k, look).items, ReadyOf(k), BATCH, _ => Skipped);
  }

  lemma CheckServedKeeps(s: State, k: nat, look: Look)
    requires k < |s.tasks| && StateOk(s) && s.job == Checking
    ensures Owned(Served(s, k, look)) && Served(s, k, look).job == Checking && NoneHalted(Served(s, k, look).items)
  {
    ServedHaltsNone(s, k, look);
    assert |Worked(s, k, look).tasks| == |s.tasks|;
  }

  lemma SettledKeeps(s: State)
    requires Owned(s) && (s.job == Running ==> Reached(s))
             && (s.job == Running || s.job == WaitingOracle ==> PastChecking(s))
    requires s.job == Running || s.job == WaitingOracle || s.job == Stopping
    requires s.job == WaitingOracle ==> !AnyItem(s.items, Ready)
    requires s.job == Stopping || NoneHalted(s.items)
    ensures StateOk(Settled(s))
  {
  }

  lemma ObservedKeeps(s: State, seen: nat -> Observed)
    requires StateOk(s) && !Terminal(s.job)
    ensures StateOk(AfterObserving(s, seen)) && AfterObserving(s, seen).job == s.job
            && AfterObserving(s, seen).tasks == s.tasks
  {
    var items := ObservedItems(s.items, seen);
    assert forall i :: 0 <= i < |items| ==> items[i].task == s.items[i].task;
    assert forall i :: 0 <= i < |items| ==> (items[i].status == Ready <==> s.items[i].status == Ready);
  }

  lemma AdvancedKeeps(s: State, busy: set<nat>, look: Look, seen: nat -> Observed)
    requires StateOk(s)
    ensures StateOk(Advanced(s, busy, look, seen))
  {
    if !Terminal(s.job) && s.job != Checked {
      ObservedKeeps(s, seen);
      var o := AfterObserving(s, seen);
      if s.job == Stopping {
        MovedOnlyLeaves(o.items, (it: Item) => it.status == Ready, BATCH, _ => Halted);
        SettledKeeps(Halting(o));
      } else if s.job == WaitingOracle {
        SettledKeeps(o);
      } else if s.job != Paused {
        SteppedKeeps(o, NextTask(o, busy), look);
      }
    }
  }

  lemma SteppedKeeps(s: State, choice: Choice, look: Look)
    requires StateOk(s) && (s.job == Running || s.job == Checking) && (choice.Chosen? ==> choice.task < |s.tasks|)
    ensures StateOk(Stepped(s, choice, look))
  {
    if s.job == Running {
      if choice.Chosen? {
        ServedKeeps(s, choice.task, look);
        SettledKeeps(Served(s, choice.task, look));
      } else if choice.Nothing? {
        SettledKeeps(s);
      }
    } else if choice.Chosen? {
      CheckServedKeeps(s, choice.task, look);
      CheckFinishedKeeps(Served(s, choice.task, look));
    } else if choice.Nothing? {
      CheckFinishedKeeps(s);
    }
  }

  lemma CheckFinishedKeeps(s: State)
    requires Owned(s) && NoneHalted(s.items) && s.job == Checking
    ensures StateOk(CheckFinished(s))
  {
  }

  lemma ResyncReaches(s: State, keepUnavailable: bool)
    requires Owned(s)
    ensures Reached(s.(tasks := Resync(s, keepUnavailable)))
  {
    forall i | 0 <= i < |s.items| && s.items[i].status == Ready
      ensures Selectable(Resync(s, keepUnavailable)[s.items[i].task].status)
    {
      assert HasReady(s.items, s.items[i].task);
    }
  }

  lemma StartedKeeps(s: State)
    requires StateOk(s)
    ensures StateOk(Started(s))
  {
    ResyncReaches(s, false);
  }

  lemma ControlledKeeps(s: State, c: Control)
    requires StateOk(s)
    ensures StateOk(Controlled(s, c))
  {
    ResyncReaches(s, true);
  }

  // ---- Whole runs ----

  datatype Step = Advances(busy: set<nat>, look: Look, seen: nat -> Observed) | Starts | Controls(control: Control)

  function Apply(s: State, step: Step): State {
    match step
    case Advances(busy, look, seen) => Advanced(s, busy, look, seen)
    case Starts => Started(s)
    case Controls(c) => Controlled(s, c)
  }

  function After(s: State, steps: seq<Step>): State {
    if steps == [] then s else Apply(After(s, steps[..|steps| - 1]), steps[|steps| - 1])
  }

  lemma {:induction false} RunKeeps(s: State, steps: seq<Step>)
    requires StateOk(s)
    ensures StateOk(After(s, steps))
  {
    if steps != [] {
      var before := After(s, steps[..|steps| - 1]);
      RunKeeps(s, steps[..|steps| - 1]);
      match steps[|steps| - 1]
      case Advances(busy, look, seen) => AdvancedKeeps(before, busy, look, seen);
      case Starts => StartedKeeps(before);
      case Controls(c) => ControlledKeeps(before, c);
    }
  }

  /** A new check: every device at its baseline, nothing scanned yet. */
  predicate IsNew(s: State) {
    s.job == Checking && s.items == [] && forall k :: 0 <= k < |s.tasks| ==>
        s.tasks[k].status == Baseline || s.tasks[k].status == Unavailable
  }

  /** Whatever devices do and whenever the run is paused, resumed or stopped, no ready punch is stranded. */
  lemma NoReadyPunchIsStranded(s: State, steps: seq<Step>, i: nat)
    requires IsNew(s) && After(s, steps).job == Running
    requires i < |After(s, steps).items| && After(s, steps).items[i].status == Ready
    ensures var last := After(s, steps);
            last.items[i].task < |last.tasks| && last.items[i].task in Due(last.tasks, |last.tasks|)
  {
    RunKeeps(s, steps);
  }

  /**
   A run waits for Oracle, completes or stops only with nothing left to release, and ends only with nothing
   waiting.
   */
  lemma RunsEndDone(s: State, steps: seq<Step>)
    requires IsNew(s)
    ensures var last := After(s, steps);
            && (last.job == WaitingOracle || Terminal(last.job) ==> !AnyItem(last.items, Ready))
            && (Terminal(last.job) ==> !AnyItem(last.items, Waiting))
  {
    RunKeeps(s, steps);
  }

  /** The least recently served device is served next when it is free, and then goes to the back of the queue. */
  lemma OldestFreeDeviceIsServed(s: State, busy: set<nat>, k: nat, look: Look)
    requires k < |s.tasks| && Selectable(s.tasks[k].status) && k !in busy
    requires forall j :: 0 <= j < |s.tasks| && j != k && Selectable(s.tasks[j].status) ==> Earlier(s.tasks, k, j)
    requires forall j :: 0 <= j < |s.tasks| ==> s.tasks[j].updated < s.clock
    ensures NextTask(s, busy) == Chosen(k)
    ensures forall j :: 0 <= j < |s.tasks| && j != k ==> Earlier(Served(s, k, look).tasks, j, k)
  {
    var due := Due(s.tasks, |s.tasks|);
    assert k in due;
    var at :| 0 <= at < |due| && due[at] == k;
    assert due[0] in due;
    assert at == 0;
  }

  /**
   Serving a releasing device with a fresh sync takes every ready punch of a batch and marks it done exactly
   when none is left.
   */
  lemma DoneExactlyWhenNothingLeft(s: State, k: nat, look: Look)
    requires k < |s.tasks| && s.job == Running && s.tasks[k].status == Releasing
    requires look.bound && look.connected && look.enabled && look.sync == FreshSync
    ensures var n := Served(s, k, look);
            && (n.tasks[k].status == Done <==> !HasReady(n.items, k))
            && (n.tasks[k].status == Done <==> Matches(s.items, ReadyOf(k), |s.items|) <= STEP_BATCH)
  {
    var pick, n := ReadyOf(k), |s.items|;
    var moved := Moved(s.items, pick, STEP_BATCH, ApplyWith(look));
    forall i | 0 <= i < n
      ensures moved[i].task == k && moved[i].status == Ready <==>
                pick(s.items[i]) && Matches(s.items, pick, i) >= STEP_BATCH
    {
      assert moved[i].task == s.items[i].task;
    }
    if Matches(s.items, pick, n) <= STEP_BATCH {
      forall i | 0 <= i < n && pick(s.items[i])
        ensures Matches(s.items, pick, i) < STEP_BATCH
      {
        MatchesGrow(s.items, pick, i, n);
      }
    } else {
      var i := Crossing(s.items, pick, STEP_BATCH, n);
      assert moved[i].task == k && moved[i].status == Ready;
    }
  }

  /** The item that takes the count past the limit. */
  lemma {:induction false} Crossing(items: seq<Item>, pick: Item -> bool, limit: nat, n: nat) returns (i: nat)
    requires n <= |items| && Matches(items, pick, n) > limit
    ensures i < n && pick(items[i]) && Matches(items, pick, i) == limit
  {
    if Matches(items, pick, n - 1) > limit {
      i := Crossing(items, pick, limit, n - 1);
    } else {
      i := n - 1;
    }
  }

  /** The state before step n. */
  function At(s: State, steps: seq<Step>, n: nat): State
    requires n <= |steps|
  {
    After(s, steps[..n])
  }

  lemma AtNext(s: State, steps: seq<Step>, n: nat)
    requires n < |steps|
    ensures At(s, steps, n + 1) == Apply(At(s, steps, n), steps[n])
  {
    assert steps[..n + 1][..n] == steps[..n];
  }

  /** The run is started, or resumed after a pause. */
  predicate Restarts(s: State, step: Step) {
    (step.Starts? && s.job == Checked && AnyItem(s.items, Ready)) || (step == Controls(Resume) && s.job == Paused)
  }

  /** The step of a running job serves this device, which is bound, connected and enabled. */
  predicate Serves(s: State, step: Step, t: nat) {
    step.Advances? && s.job == Running && t < |s.tasks|
    && NextTask(AfterObserving(s, step.seen), step.busy) == Chosen(t)
    && step.look.bound && step.look.connected && step.look.enabled
  }

  predicate AcceptsSync(s: State, step: Step, t: nat) {
    Serves(s, step, t) && s.tasks[t].status == Syncing && step.look.accept == Fresh
  }

  /** The step serves this punch's releasing device with a fresh sync and queues the punch. */
  predicate QueuesFresh(s: State, step: Step, i: nat, t: nat) {
    Serves(s, step, t) && s.tasks[t].status == Releasing && step.look.sync == FreshSync
    && i < |s.items| && s.items[i] == Item(t, Ready) && step.look.apply(i) == AppliedQueued
    && i < |Apply(s, step).items| && Apply(s, step).items[i] == Item(t, Waiting)
  }

  /** Going back from step n, the device accepted a sync before any start or resume of the run. */
  ghost predicate SyncedSince(s: State, steps: seq<Step>, n: nat, t: nat)
    requires n <= |steps|
  {
    n > 0
    && (AcceptsSync(At(s, steps, n - 1), steps[n - 1], t)
        || (!Restarts(At(s, steps, n - 1), steps[n - 1]) && SyncedSince(s, steps, n - 1, t)))
  }

  predicate Sent(items: seq<Item>, i: nat) {
    i < |items| && (items[i].status == Waiting || items[i].status == Confirmed)
  }

  lemma QueuedOnlyAfterFreshSync(s: State, k: nat, look: Look, i: nat)
    requires k < |s.tasks| && Sent(Served(s, k, look).items, i) && !Sent(s.items, i)
    ensures i < |s.items| && s.items[i] == Item(k, Ready) && s.tasks[k].status == Releasing
    ensures look.apply(i) == AppliedQueued && look.bound && look.connected && look.enabled && look.sync == FreshSync
    ensures Served(s, k, look).items[i] == Item(k, Waiting)
  {
    var next := Worked(s, k, look);
    assert next.items[i].status == Waiting || next.items[i].status == Confirmed;
    if look.bound && look.connected && look.enabled && s.tasks[k].status == Releasing && look.sync == FreshSync {
      assert ApplyWith(look)(i) == StatusOf(look.apply(i));
    }
  }

  lemma {:induction false} ObservingSendsNone(s: State, seen: nat -> Observed, i: nat)
    ensures Sent(AfterObserving(s, seen).items, i) ==> Sent(s.items, i)
    ensures i < |s.items| && AfterObserving(s, seen).items[i].status == Ready ==>
              AfterObserving(s, seen).items[i] == s.items[i]
    ensures |AfterObserving(s, seen).items| == |s.items| && AfterObserving(s, seen).tasks == s.tasks
  {
  }

  ghost predicate NoneReleasing(s: State) {
    forall t :: 0 <= t < |s.tasks| ==> s.tasks[t].status != Releasing
  }

  /** While the check runs no device releases. */
  lemma {:induction false} CheckingReleasesNone(s: State, steps: seq<Step>, n: nat)
    requires IsNew(s) && n <= |steps|
    ensures At(s, steps, n).job == Checking ==> NoneReleasing(At(s, steps, n))
  {
    if n > 0 {
      AtNext(s, steps, n - 1);
      CheckingReleasesNone(s, steps, n - 1);
      if At(s, steps, n - 1).job == Checking {
        CheckStepReleasesNone(At(s, steps, n - 1), steps[n - 1]);
      } else {
        NeverBackToChecking(At(s, steps, n - 1), steps[n - 1]);
      }
    }
  }

  lemma {:induction false} CheckServeReleasesNone(s: State, choice: Choice, look: Look)
    requires s.job == Checking && NoneReleasing(s) && (choice.Chosen? ==> choice.task < |s.tasks|)
    ensures NoneReleasing(Stepped(s, choice, look))
  {
    if choice.Chosen? {
      forall t | 0 <= t < |s.tasks| ensures Served(s, choice.task, look).tasks[t].status != Releasing {
        if Served(s, choice.task, look).tasks[t].status == Releasing {
          ServedStatus(s, choice.task, look, t);
        }
      }
    }
  }

  lemma {:induction false} NeverBackToChecking(s: State, step: Step)
    requires s.job != Checking
    ensures Apply(s, step).job != Checking
  {
  }

  lemma {:induction false} CheckStepReleasesNone(s: State, step: Step)
    requires s.job == Checking && NoneReleasing(s)
    ensures Apply(s, step).job == Checking ==> NoneReleasing(Apply(s, step))
  {
    if step.Advances? {
      CheckServeReleasesNone(s, NextTask(s, step.busy), step.look);
      assert Apply(s, step) == Stepped(s, NextTask(s, step.busy), step.look);
    }
  }

  /** A step sends a punch only by queueing it from its own, freshly synced device. */
  lemma {:induction false} StepSendsFresh(s: State, step: Step, i: nat)
    requires Sent(Apply(s, step).items, i) && (s.job == Checking ==> NoneReleasing(s))
    ensures Sent(s.items, i) || exists t :: QueuesFresh(s, step, i, t)
  {
    if step.Advances? && !Terminal(s.job) && s.job != Checked {
      var o := AfterObserving(s, step.seen);
      ObservingSendsNone(s, step.seen, i);
      if !Sent(o.items, i) && (s.job == Checking || s.job == Running) {
        var choice := NextTask(o, step.busy);
        if choice.Chosen? {
          QueuedOnlyAfterFreshSync(o, choice.task, step.look, i);
          assert QueuesFresh(s, step, i, choice.task);
        }
      }
    }
  }

  /** A device with ready punches is releasing them. */
  predicate ReleasesReady(s: State, t: nat) {
    t < |s.tasks| && s.tasks[t].status == Releasing && HasReady(s.items, t)
  }

  lemma {:induction false} WorkAddsNoReady(s: State, k: nat, look: Look, i: nat)
    requires k < |s.tasks| && i < |Worked(s, k, look).items| && Worked(s, k, look).items[i].status == Ready
    requires Worked(s, k, look).items[i].task != k || s.tasks[k].status != Scanning
    ensures i < |s.items| && s.items[i] == Worked(s, k, look).items[i]
  {
    MovedOnlyLeaves(s.items, ReadyOf(k), STEP_BATCH, ApplyWith(look));
  }

  /** Serving a device gives no ready punch to another one, nor to itself unless it scans. */
  lemma {:induction false} ServingAddsNoReady(s: State, k: nat, look: Look, t: nat)
    requires k < |s.tasks| && HasReady(Served(s, k, look).items, t) && (t != k || s.tasks[k].status != Scanning)
    ensures HasReady(s.items, t)
  {
    var next, work := Served(s, k, look).items, Worked(s, k, look).items;
    var i :| 0 <= i < |next| && next[i].task == t && next[i].status == Ready;
    MovedOnlyLeaves(work, ReadyOf(k), BATCH, _ => Skipped);
    assert work[i].task == t && work[i].status == Ready;
    WorkAddsNoReady(s, k, look, i);
  }

  lemma {:induction false} ServedStatus(s: State, k: nat, look: Look, t: nat)
    requires k < |s.tasks| && t < |s.tasks| && Served(s, k, look).tasks[t].status == Releasing
    ensures (t == k && s.job == Running && s.tasks[k].status == Syncing && look.accept == Fresh
             && look.bound && look.connected && look.enabled)
            || s.tasks[t].status == Releasing
  {
  }

  lemma {:induction false} ObservingAddsNoReady(s: State, seen: nat -> Observed, t: nat)
    ensures HasReady(AfterObserving(s, seen).items, t) ==> HasReady(s.items, t)
  {
    var o := AfterObserving(s, seen);
    if HasReady(o.items, t) {
      var i :| 0 <= i < |o.items| && o.items[i].task == t && o.items[i].status == Ready;
      assert s.items[i].task == t && s.items[i].status == Ready;
    }
  }

  lemma {:induction false} SteppingReleases(s: State, choice: Choice, look: Look, t: nat)
    requires choice.Chosen? ==> choice.task < |s.tasks|
    requires ReleasesReady(Stepped(s, choice, look), t)
    ensures ReleasesReady(s, t)
            || (choice == Chosen(t) && t < |s.tasks| && s.job == Running && s.tasks[t].status == Syncing
                && look.accept == Fresh && look.bound && look.connected && look.enabled)
  {
    if choice.Chosen? {
      var served := Served(s, choice.task, look);
      assert served.tasks == Stepped(s, choice, look).tasks && served.items == Stepped(s, choice, look).items;
      ServedStatus(s, choice.task, look, t);
      if s.tasks[t].status == Releasing {
        ServingAddsNoReady(s, choice.task, look, t);
      }
    }
  }

  lemma {:induction false} AdvancingReleases(s: State, step: Step, t: nat)
    requires step.Advances? && ReleasesReady(Apply(s, step), t)
    ensures AcceptsSync(s, step, t) || ReleasesReady(s, t)
  {
    if !Terminal(s.job) && s.job != Checked {
      var o := AfterObserving(s, step.seen);
      ObservingAddsNoReady(s, step.seen, t);
      assert o.tasks == s.tasks && o.job == s.job;
      if s.job == Stopping {
        assert Settled(Halting(o)).tasks == FinishTasks(o.tasks);
      } else if s.job == Checking || s.job == Running {
        SteppingReleases(o, NextTask(o, step.busy), step.look, t);
      }
    }
  }

  /** Starting or resuming sends every device with ready punches back to a sync. */
  lemma {:induction false} RestartReleasesNone(s: State, step: Step, t: nat)
    requires Restarts(s, step)
    ensures !ReleasesReady(Apply(s, step), t)
  {
    var next := Apply(s, step);
    assert next.items == s.items && next.tasks == Resync(s, step.Controls?);
  }

  /** A device releases ready punches only after this step accepted its sync, or because it did before. */
  lemma {:induction false} StepReleases(s: State, step: Step, t: nat)
    requires ReleasesReady(Apply(s, step), t)
    ensures !Restarts(s, step) && (AcceptsSync(s, step, t) || ReleasesReady(s, t))
  {
    if Restarts(s, step) {
      RestartReleasesNone(s, step, t);
    } else if step.Advances? {
      AdvancingReleases(s, step, t);
    }
  }

  /** A device with ready punches releases only on a sync it accepted since the last start or resume. */
  lemma {:induction false} ReleasingWasSynced(s: State, steps: seq<Step>, n: nat, t: nat)
    requires IsNew(s) && n <= |steps| && ReleasesReady(At(s, steps, n), t)
    ensures SyncedSince(s, steps, n, t)
  {
    if n > 0 {
      AtNext(s, steps, n - 1);
      StepReleases(At(s, steps, n - 1), steps[n - 1], t);
      if !AcceptsSync(At(s, steps, n - 1), steps[n - 1], t) {
        ReleasingWasSynced(s, steps, n - 1, t);
      }
    }
  }

  /**
   Over any run, a punch waits for Oracle or is confirmed only after a step served its own releasing device and queued
   it, on a sync that device accepted since the run was last started or resumed.
   */
  lemma {:induction false} SentOnlyAfterFreshSync(s: State, steps: seq<Step>, n: nat, i: nat)
    requires IsNew(s) && n <= |steps| && Sent(At(s, steps, n).items, i)
    ensures exists k, t :: 0 <= k < n && QueuesFresh(At(s, steps, k), steps[k], i, t) && SyncedSince(s, steps, k, t)
  {
    if n > 0 {
      var before := At(s, steps, n - 1);
      AtNext(s, steps, n - 1);
      CheckingReleasesNone(s, steps, n - 1);
      StepSendsFresh(before, steps[n - 1], i);
      if Sent(before.items, i) {
        SentOnlyAfterFreshSync(s, steps, n - 1, i);
      } else {
        var t :| QueuesFresh(before, steps[n - 1], i, t);
        assert HasReady(before.items, t);
        ReleasingWasSynced(s, steps, n - 1, t);
      }
    }
  }
}
