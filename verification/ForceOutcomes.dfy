/** Why each punch of a force-release run ended as it did, and what every step makes of punches, devices and the job. */
module ForceOutcomes {
  import opened ForceRelease
  import opened ForceTheorems

  // ------------------------------------------------------------ what a step does to a punch

  /** The step asks Oracle about the punches that wait: nothing is ready and the job is past its check. */
  ghost predicate Asks(s: State, step: Step) {
    step.Advances? && s.job in {Running, WaitingOracle, Paused, Stopping}
    && forall j :: 0 <= j < |s.items| ==> s.items[j].status != Ready
  }

  /** The step serves device t of a job that checks or runs. */
  predicate Visits(s: State, step: Step, t: nat) {
    step.Advances? && (s.job == Checking || s.job == Running) && t < |s.tasks|
    && NextTask(AfterObserving(s, step.seen), step.busy) == Chosen(t)
  }

  predicate Reachable(look: Look) {
    look.bound && look.connected && look.enabled
  }

  /** The check classifies the punch: it is the next one of the scanned device, in a scan of at most 25. */
  ghost predicate ScansAs(s: State, step: Step, i: nat, v: Verdict) {
    s.job == Checking && exists t: nat :: ScansOn(s, step, i, v, t)
  }

  predicate ScansOn(s: State, step: Step, i: nat, v: Verdict, t: nat) {
    Visits(s, step, t) && Reachable(step.look) && s.tasks[t].status == Scanning
    && |s.items| <= i < |s.items| + 25 && i - |s.items| < |step.look.scan| && step.look.scan[i - |s.items|] == v
    && i < |Apply(s, step).items| && Apply(s, step).items[i].task == t
  }

  /** The punch's own releasing device is served on a fresh sync, and applying the punch gave this outcome. */
  ghost predicate ReleasesAs(s: State, step: Step, i: nat, a: Applied) {
    i < |s.items| && s.items[i].status == Ready && Visits(s, step, s.items[i].task)
    && s.tasks[s.items[i].task].status == Releasing && Reachable(step.look) && step.look.sync == FreshSync
    && step.look.apply(i) == a
  }

  ghost predicate HearsFromOracle(s: State, step: Step, i: nat, o: Observed) {
    i < |s.items| && s.items[i].status == Waiting && Asks(s, step) && step.seen(i) == o
  }

  /** The punch's device was served while running and could not be used. */
  ghost predicate LosesDevice(s: State, step: Step, i: nat) {
    i < |s.items| && s.items[i].status == Ready && s.job == Running && Visits(s, step, s.items[i].task)
    && Apply(s, step).tasks[s.items[i].task].status == Unavailable
  }

  /** What must have happened in the step that gave the punch this status. */
  ghost predicate Reason(s: State, step: Step, i: nat, to: ItemStatus) {
    match to
    case Ready => ScansAs(s, step, i, IsReady)
    case Excluded => ScansAs(s, step, i, IsExcluded)
    case NeedsReview =>
      ScansAs(s, step, i, IsReview) || ReleasesAs(s, step, i, AppliedReview)
      || HearsFromOracle(s, step, i, OracleRefused)
    case Waiting => ReleasesAs(s, step, i, AppliedQueued)
    case Confirmed => HearsFromOracle(s, step, i, OracleConfirmed)
    case Skipped => ReleasesAs(s, step, i, AppliedSkip) || LosesDevice(s, step, i)
    case Halted => i < |s.items| && s.items[i].status == Ready && s.job == Stopping && step.Advances?
  }

  lemma {:induction false} AsksMeans(s: State, step: Step)
    ensures Asks(s, step) <==>
              step.Advances? && !Terminal(s.job) && s.job != Checked && s.job != Checking && !AnyItem(s.items, Ready)
  {
  }

  /** A punch that waits takes Oracle's answer when it is asked, and otherwise goes on waiting. */
  lemma {:induction false} WaitingIsAnswered(s: State, step: Step, i: nat)
    requires i < |s.items| && s.items[i].status == Waiting
    ensures i < |Apply(s, step).items|
    ensures var to := Apply(s, step).items[i].status;
            && (to == Confirmed <==> HearsFromOracle(s, step, i, OracleConfirmed))
            && (to == NeedsReview <==> HearsFromOracle(s, step, i, OracleRefused))
            && (to == Waiting || to == Confirmed || to == NeedsReview)
  {
    AsksMeans(s, step);
    if step.Advances? && !Terminal(s.job) && s.job != Checked {
      var o := AfterObserving(s, step.seen);
      assert |o.items| == |s.items| && o.items[i].status != Ready;
      AdvancedFrom(s, step, i);
    }
  }

  /** Once Oracle has been asked, a step moves ready punches only. */
  lemma {:induction false} AdvancedFrom(s: State, step: Step, i: nat)
    requires step.Advances? && !Terminal(s.job) && s.job != Checked && i < |s.items|
    requires AfterObserving(s, step.seen).items[i].status != Ready
    ensures |Apply(s, step).items| >= |s.items| && Apply(s, step).items[i] == AfterObserving(s, step.seen).items[i]
  {
    var o := AfterObserving(s, step.seen);
    if s.job == Checking || s.job == Running {
      var choice := NextTask(o, step.busy);
      if choice.Chosen? {
        ServedKeepsOthers(o, choice.task, step.look, i);
      }
    }
  }

  lemma {:induction false} ServedKeepsOthers(s: State, k: nat, look: Look, i: nat)
    requires k < |s.tasks| && i < |s.items| && s.items[i].status != Ready
    ensures |Served(s, k, look).items| >= |s.items| && Served(s, k, look).items[i] == s.items[i]
  {
  }

  // ------------------------------------------------------- the cause of every status

  lemma {:induction false} NewItemIsScanned(s: State, k: nat, look: Look, i: nat)
    requires k < |s.tasks| && |s.items| <= i < |Served(s, k, look).items|
    ensures Reachable(look) && s.tasks[k].status == Scanning && i < |s.items| + 25 && i - |s.items| < |look.scan|
    ensures Served(s, k, look).items[i] == Item(k, VerdictStatus(look.scan[i - |s.items|]))
  {
  }

  /** Serving a device moves a ready punch only by applying it, or by giving the device up. */
  lemma {:induction false} ServedMoves(s: State, k: nat, look: Look, i: nat)
    requires k < |s.tasks| && i < |s.items| && s.items[i].status == Ready
    requires s.tasks[k].status != Releasing || s.job == Running
    ensures |Served(s, k, look).items| >= |s.items|
    ensures var to := Served(s, k, look).items[i];
            to == s.items[i]
            || (s.items[i].task == k && s.job == Running && Served(s, k, look).tasks[k].status == Unavailable
                && to.status == Skipped)
            || (s.items[i].task == k && Reachable(look) && s.tasks[k].status == Releasing && look.sync == FreshSync
                && to.status == StatusOf(look.apply(i)))
  {
    assert ApplyWith(look)(i) == StatusOf(look.apply(i));
  }

  lemma {:induction false} ObservingSparesOthers(s: State, seen: nat -> Observed, i: nat)
    ensures var o := AfterObserving(s, seen);
            |o.items| == |s.items| && o.tasks == s.tasks && o.job == s.job && o.clock == s.clock
            && (i < |s.items| && s.items[i].status != Waiting ==> o.items[i] == s.items[i])
  {
  }

  /** A step that serves device k is a step of that device alone. */
  lemma {:induction false} VisitIsServed(s: State, step: Step, k: nat)
    requires Visits(s, step, k)
    ensures var o := AfterObserving(s, step.seen);
            k < |o.tasks| && Apply(s, step).items == Served(o, k, step.look).items
            && Apply(s, step).tasks == Served(o, k, step.look).tasks
  {
  }

  lemma {:induction false} MovedByVisit(s: State, step: Step, k: nat, i: nat)
    requires Visits(s, step, k) && (s.job == Checking ==> NoneReleasing(s)) && i < |s.items|
    requires s.items[i].status == Ready && i < |Apply(s, step).items| && Apply(s, step).items[i] != s.items[i]
    ensures Reason(s, step, i, Apply(s, step).items[i].status)
  {
    ObservingSparesOthers(s, step.seen, i);
    VisitIsServed(s, step, k);
    ServedMoves(AfterObserving(s, step.seen), k, step.look, i);
  }

  lemma {:induction false} AddedByVisit(s: State, step: Step, k: nat, i: nat)
    requires Visits(s, step, k) && (s.job == Running ==> s.tasks[k].status != Scanning)
    requires |s.items| <= i < |Apply(s, step).items|
    ensures Reason(s, step, i, Apply(s, step).items[i].status)
  {
    ObservingSparesOthers(s, step.seen, i);
    VisitIsServed(s, step, k);
    NewItemIsScanned(AfterObserving(s, step.seen), k, step.look, i);
    assert ScansOn(s, step, i, step.look.scan[i - |s.items|], k);
  }

  lemma {:induction false} VisitHasReason(s: State, step: Step, i: nat)
    requires StateOk(s) && (s.job == Checking ==> NoneReleasing(s)) && (s.job == Checking || s.job == Running)
    requires step.Advances? && i < |Apply(s, step).items|
    requires i < |s.items| ==> s.items[i].status == Ready && Apply(s, step).items[i] != s.items[i]
    ensures Reason(s, step, i, Apply(s, step).items[i].status)
  {
    ObservingSparesOthers(s, step.seen, i);
    var choice := NextTask(AfterObserving(s, step.seen), step.busy);
    if choice.Chosen? {
      if i < |s.items| {
        MovedByVisit(s, step, choice.task, i);
      } else {
        AddedByVisit(s, step, choice.task, i);
      }
    }
  }

  lemma {:induction false} OtherStepsMove(s: State, step: Step, i: nat)
    requires !(step.Advances? && (s.job == Checking || s.job == Running)) && i < |Apply(s, step).items|
    ensures i < |s.items|
    ensures s.items[i].status != Waiting && Apply(s, step).items[i] != s.items[i] ==>
              s.items[i].status == Ready && s.job == Stopping && step.Advances?
              && Apply(s, step).items[i].status == Halted
  {
  }

  /** A step that gives a punch a status has the reason for it. */
  lemma {:induction false} ChangeHasReason(s: State, step: Step, i: nat)
    requires StateOk(s) && (s.job == Checking ==> NoneReleasing(s))
    requires i < |Apply(s, step).items| && (i < |s.items| ==> Apply(s, step).items[i] != s.items[i])
    ensures Reason(s, step, i, Apply(s, step).items[i].status)
  {
    if i < |s.items| && s.items[i].status == Waiting {
      WaitingIsAnswered(s, step, i);
      AnsweredKeepsTask(s, step, i);
    } else if step.Advances? && (s.job == Checking || s.job == Running) {
      if i < |s.items| { MovesReadyOnly(s, step, i); }
      VisitHasReason(s, step, i);
    } else {
      OtherStepsMove(s, step, i);
    }
  }

  lemma {:induction false} AnsweredKeepsTask(s: State, step: Step, i: nat)
    requires i < |s.items| && s.items[i].status == Waiting
    ensures i < |Apply(s, step).items| && Apply(s, step).items[i].task == s.items[i].task
  {
    if step.Advances? && !Terminal(s.job) && s.job != Checked {
      assert AfterObserving(s, step.seen).items[i].status != Ready;
      AdvancedFrom(s, step, i);
    }
  }

  lemma {:induction false} MovesReadyOnly(s: State, step: Step, i: nat)
    requires step.Advances? && (s.job == Checking || s.job == Running) && i < |s.items| && s.items[i].status != Waiting
    requires i < |Apply(s, step).items| && Apply(s, step).items[i] != s.items[i]
    ensures s.items[i].status == Ready
  {
    ObservingSparesOthers(s, step.seen, i);
    if s.items[i].status != Ready {
      AdvancedFrom(s, step, i);
    }
  }

  /** Step k gave the punch the status it still has at n. */
  ghost predicate SettledAt(s: State, steps: seq<Step>, k: nat, n: nat, i: nat)
    requires k < n <= |steps|
  {
    i < |At(s, steps, n).items|
    && Reason(At(s, steps, k), steps[k], i, At(s, steps, n).items[i].status)
    && forall j :: k < j <= n ==> i < |At(s, steps, j).items| && At(s, steps, j).items[i] == At(s, steps, n).items[i]
  }

  /** Over any run, every punch has its status for the reason of the step that gave it, and kept it since. */
  lemma {:induction false} EveryStatusHasItsReason(s: State, steps: seq<Step>, n: nat, i: nat) returns (k: nat)
    requires IsNew(s) && n <= |steps| && i < |At(s, steps, n).items|
    ensures k < n && SettledAt(s, steps, k, n, i)
    decreases n
  {
    assert n > 0;
    var before, after := At(s, steps, n - 1), At(s, steps, n);
    AtNext(s, steps, n - 1);
    if i < |before.items| && before.items[i] == after.items[i] {
      k := EveryStatusHasItsReason(s, steps, n - 1, i);
      SettledLonger(s, steps, k, n, i);
    } else {
      k := n - 1;
      SettledJust(s, steps, n, i);
    }
  }

  lemma {:induction false} SettledJust(s: State, steps: seq<Step>, n: nat, i: nat)
    requires IsNew(s) && 0 < n <= |steps| && i < |At(s, steps, n).items|
    requires i < |At(s, steps, n - 1).items| ==> At(s, steps, n - 1).items[i] != At(s, steps, n).items[i]
    ensures SettledAt(s, steps, n - 1, n, i)
  {
    AtNext(s, steps, n - 1);
    RunKeeps(s, steps[..n - 1]);
    CheckingReleasesNone(s, steps, n - 1);
    ChangeHasReason(At(s, steps, n - 1), steps[n - 1], i);
  }

  lemma {:induction false} SettledLonger(s: State, steps: seq<Step>, k: nat, n: nat, i: nat)
    requires k < n - 1 < n <= |steps| && SettledAt(s, steps, k, n - 1, i)
    requires i < |At(s, steps, n).items| && At(s, steps, n - 1).items[i] == At(s, steps, n).items[i]
    ensures SettledAt(s, steps, k, n, i)
  {
  }

  /** A run reported as completed has every punch excluded at its check, or confirmed by Oracle's own answer. */
  lemma CompletedMeansConfirmed(s: State, steps: seq<Step>, i: nat) returns (k: nat)
    requires IsNew(s) && After(s, steps).job == Completed && i < |After(s, steps).items|
    ensures k < |steps|
    ensures var status := After(s, steps).items[i].status;
            (status == Confirmed && HearsFromOracle(At(s, steps, k), steps[k], i, OracleConfirmed))
            || (status == Excluded && ScansAs(At(s, steps, k), steps[k], i, IsExcluded))
  {
    RunKeeps(s, steps);
    var last := After(s, steps);
    assert AnyItem(last.items, last.items[i].status);
    assert steps[..|steps|] == steps;
    k := EveryStatusHasItsReason(s, steps, |steps|, i);
  }

  // ---------------------------------------------------------- what a step must do

  /** How many ready punches of the device come before punch i. */
  function ReadyAhead(s: State, t: nat, i: nat): nat
    requires i <= |s.items|
  {
    Matches(s.items, ReadyOf(t), i)
  }

  function OutcomeOf(a: Applied): ItemStatus {
    match a
    case AppliedQueued => Waiting
    case AppliedSkip => Skipped
    case AppliedReview => NeedsReview
  }

  /** A releasing device with a fresh sync has its first 25 ready punches applied, and no other. */
  lemma {:induction false} FirstBatchIsApplied(s: State, step: Step, t: nat, i: nat)
    requires Visits(s, step, t) && s.job == Running && s.tasks[t].status == Releasing && Reachable(step.look)
    requires step.look.sync == FreshSync && i < |s.items| && s.items[i] == Item(t, Ready)
    ensures i < |Apply(s, step).items|
    ensures Apply(s, step).items[i].status == if ReadyAhead(s, t, i) < 25 then OutcomeOf(step.look.apply(i)) else Ready
  {
    ReadyIsNotObserved(s, step.seen, i);
    VisitIsServed(s, step, t);
    assert ApplyWith(step.look)(i) == StatusOf(step.look.apply(i));
  }

  lemma ReadyIsNotObserved(s: State, seen: nat -> Observed, i: nat)
    requires i < |s.items| && s.items[i].status == Ready
    ensures AfterObserving(s, seen) == s
  {
    assert AnyItem(s.items, Ready);
  }

  /** The device cannot be used: it is gone, or the step of its stage found that it moved on without the run. */
  predicate Lost(status: TaskStatus, look: Look) {
    !Reachable(look)
    || match status
       case Baseline => look.baseline == RosterMoved
       case SyncPending => look.request == OtherCommandActive
       case Syncing => look.accept == SyncLost
       case Releasing => look.sync == RolledBack
       case Unavailable => true
       case _ => false
  }

  /** A served device becomes unavailable exactly when it is lost. */
  lemma {:induction false} LostExactly(s: State, k: nat, look: Look)
    requires k < |s.tasks|
    ensures Served(s, k, look).tasks[k].status == Unavailable <==> Lost(s.tasks[k].status, look)
  {
  }

  /** A running job skips the next 100 ready punches of a lost device. */
  lemma {:induction false} LostDeviceIsSkipped(s: State, k: nat, look: Look, i: nat)
    requires k < |s.tasks| && s.job == Running && Lost(s.tasks[k].status, look)
    requires i < |s.items| && s.items[i] == Item(k, Ready)
    ensures i < |Served(s, k, look).items|
    ensures Served(s, k, look).items[i].status == if ReadyAhead(s, k, i) < 100 then Skipped else Ready
  {
    LostExactly(s, k, look);
    assert Worked(s, k, look).items == s.items;
  }

  /** A device that goes well is checked in four visits: every punch of its scan becomes an item. */
  lemma {:induction false} CheckedInFourVisits(s: State, k: nat, users: Look, ask: Look, accept: Look, scan: Look)
    requires k < |s.tasks| && s.job == Checking && s.tasks[k].status == Baseline
    requires Reachable(users) && users.baseline == LastUsers && Reachable(ask) && ask.request == Requested
    requires Reachable(accept) && accept.accept == Fresh && Reachable(scan) && |scan.scan| < 25
    ensures var a := Served(s, k, users); var b := Served(a, k, ask); var c := Served(b, k, accept);
            var d := Served(c, k, scan);
            && a.tasks[k].status == SyncPending && b.tasks[k].status == Syncing && c.tasks[k].status == Scanning
            && d.tasks[k].status == Scanned && |d.items| == |s.items| + |scan.scan|
            && (forall i :: 0 <= i < |s.items| ==> d.items[i] == s.items[i])
            && forall i :: 0 <= i < |scan.scan| ==> d.items[|s.items| + i] == Item(k, Classified(scan.scan[i]))
  {
    var a := Served(s, k, users);
    var b := Served(a, k, ask);
    var c := Served(b, k, accept);
    assert a.items == s.items && b.items == s.items && c.items == s.items && c.tasks[k].status == Scanning;
  }

  function Classified(v: Verdict): ItemStatus {
    match v
    case IsExcluded => Excluded
    case IsReview => NeedsReview
    case IsReady => Ready
  }

  /** A check is over when every device is scanned or lost, and then waits to be started. */
  lemma {:induction false} CheckEndsExactly(s: State, busy: set<nat>, look: Look, seen: nat -> Observed)
    requires s.job == Checking && !NextTask(s, busy).AllBusy?
    ensures var n := Advanced(s, busy, look, seen);
            && (n.job == Checked <==> forall k :: 0 <= k < |n.tasks| ==> n.tasks[k].status in {Scanned, Unavailable})
            && (n.job == Checked || n.job == Checking)
  {
  }

  /** A running device that goes well: it asks for a sync, accepts it and releases its batch, in three visits. */
  lemma {:induction false} ReleasedInThreeVisits(s: State, k: nat, ask: Look, accept: Look, release: Look)
    requires k < |s.tasks| && s.job == Running && s.tasks[k].status == SyncPending
    requires Reachable(ask) && ask.request == Requested
    requires Reachable(accept) && accept.accept == Fresh
    requires Reachable(release) && release.sync == FreshSync
    requires Matches(s.items, ReadyOf(k), |s.items|) <= 25
    ensures var a := Served(s, k, ask); var b := Served(a, k, accept); var c := Served(b, k, release);
            && a.tasks[k].status == Syncing && b.tasks[k].status == Releasing && c.tasks[k].status == Done
            && forall i :: 0 <= i < |s.items| && s.items[i] == Item(k, Ready) ==>
                 c.items[i].status == OutcomeOf(release.apply(i))
  {
    var a := Served(s, k, ask);
    var b := Served(a, k, accept);
    assert a.items == s.items && b.items == s.items && b.job == Running;
    DoneExactlyWhenNothingLeft(b, k, release);
    forall i | 0 <= i < |s.items| && s.items[i] == Item(k, Ready)
      ensures Served(b, k, release).items[i].status == OutcomeOf(release.apply(i))
    {
      MatchesGrow(s.items, ReadyOf(k), i, |s.items|);
      assert ReadyOf(k)(s.items[i]);
      assert ApplyWith(release)(i) == StatusOf(release.apply(i));
    }
  }

  ghost predicate NoItem(items: seq<Item>, status: ItemStatus) {
    forall i :: 0 <= i < |items| ==> items[i].status != status
  }

  /** Where a running, waiting or stopping job stands is decided by its punches and devices alone. */
  ghost predicate JobSays(s: State, was: JobStatus) {
    var none := NoItem(s.items, Ready) && NoItem(s.items, Waiting);
    var clean := NoItem(s.items, NeedsReview) && NoItem(s.items, Skipped)
                 && forall k :: 0 <= k < |s.tasks| ==> s.tasks[k].status != Unavailable;
    && (Terminal(s.job) <==> none)
    && (s.job == Stopped <==> none && was == Stopping)
    && (s.job == Completed <==> none && was != Stopping && clean)
    && (s.job == CompletedWithReview <==> none && was != Stopping && !clean)
    && (was != Stopping && !none ==> s.job == if NoItem(s.items, Ready) then WaitingOracle else was)
    && (was == Stopping && !none ==> s.job == Stopping)
  }

  lemma {:induction false} AdvancingSettlesJob(s: State, busy: set<nat>, look: Look, seen: nat -> Observed)
    requires s.job in {Running, WaitingOracle, Stopping}
    requires s.job == Running ==> !NextTask(AfterObserving(s, seen), busy).AllBusy?
    ensures JobSays(Advanced(s, busy, look, seen), s.job)
  {
    var o := AfterObserving(s, seen);
    if s.job == Stopping {
      SettledSays(Halting(o));
    } else if s.job == WaitingOracle {
      SettledSays(o);
    } else {
      var choice := NextTask(o, busy);
      SettledSays(if choice.Chosen? then Served(o, choice.task, look) else o);
    }
  }

  lemma {:induction false} SettledSays(s: State)
    requires s.job in {Running, WaitingOracle, Stopping}
    ensures JobSays(Settled(s), s.job)
  {
  }

  /** Stopping halts the next 100 ready punches. */
  lemma {:induction false} StoppingHalts(s: State, step: Step, i: nat)
    requires step.Advances? && s.job == Stopping && i < |s.items| && s.items[i].status == Ready
    ensures i < |Apply(s, step).items|
    ensures Apply(s, step).items[i].status
            == if Matches(s.items, (it: Item) => it.status == Ready, i) < 100 then Halted else Ready
  {
    ReadyIsNotObserved(s, step.seen, i);
  }

  /** Stopping finishes every device that is not lost. */
  lemma {:induction false} StoppingFinishesDevices(s: State, step: Step, k: nat)
    requires step.Advances? && s.job == Stopping && k < |s.tasks|
    ensures k < |Apply(s, step).tasks|
    ensures Apply(s, step).tasks[k]
            == s.tasks[k].(status := if s.tasks[k].status == Unavailable then Unavailable else Done)
  {
    ObservingSparesOthers(s, step.seen, 0);
  }

  /** What start, stop, pause and resume do, and when they do nothing. */
  lemma {:induction false} ControlsSay(s: State, step: Step, k: nat)
    requires !step.Advances? && k < |s.tasks|
    ensures var n := Apply(s, step);
            && n.items == s.items && n.clock == s.clock && |n.tasks| == |s.tasks|
            && n.job == (if step == Controls(Stop) && !Terminal(s.job) then Stopping
                         else if step == Controls(Pause) && s.job in {Running, WaitingOracle} then Paused
                         else if Restarts(s, step) then Running else s.job)
            && n.tasks[k] == if Restarts(s, step) && HasReady(s.items, k)
                                && !(step.Controls? && s.tasks[k].status == Unavailable)
                             then s.tasks[k].(status := SyncPending) else s.tasks[k]
  {
  }

  // ------------------------------------------------------------------ which device is served

  /** The devices with work left that were served less recently than k. */
  ghost function Before(s: State, k: nat): set<nat>
    requires k < |s.tasks|
  {
    set j: nat | j < |s.tasks| && s.tasks[j].status !in {Scanned, Done} && Earlier(s.tasks, j, k)
  }

  function Members(order: seq<nat>): set<nat> {
    set x | x in order
  }

  lemma {:induction false} SizeOfOrder(order: seq<nat>)
    requires forall i, j :: 0 <= i < j < |order| ==> order[i] != order[j]
    ensures |Members(order)| == |order|
  {
    if order != [] {
      var rest, last := order[..|order| - 1], order[|order| - 1];
      SizeOfOrder(rest);
      assert order == rest + [last];
      assert Members(order) == Members(rest) + {last};
    }
  }

  lemma {:induction false} FirstFreeIs(order: seq<nat>, busy: set<nat>, at: nat)
    requires at < |order| && order[at] !in busy && forall i :: 0 <= i < at ==> order[i] in busy
    ensures FirstFree(order, busy) == Chosen(order[at])
  {
    if at > 0 {
      FirstFreeIs(order[1..], busy, at - 1);
    }
  }

  /** Of the five devices served longest ago that still have work, the first free one is served next. */
  lemma {:induction false} ServesOldestFreeOfFive(s: State, busy: set<nat>, k: nat)
    requires k < |s.tasks| && s.tasks[k].status !in {Scanned, Done} && k !in busy
    requires |Before(s, k)| < 5 && Before(s, k) <= busy
    ensures NextTask(s, busy) == Chosen(k)
  {
    var due := Due(s.tasks, |s.tasks|);
    assert k in due;
    var at :| 0 <= at < |due| && due[at] == k;
    DueBefore(s, due, at);
    SizeOfOrder(due[..at]);
    forall i | 0 <= i < at ensures due[i] in busy {
      assert due[..at][i] == due[i];
      assert due[i] in Before(s, k);
    }
    FirstFreeIs(if |due| <= 5 then due else due[..5], busy, at);
  }

  lemma {:induction false} DueBefore(s: State, due: seq<nat>, at: nat)
    requires due == Due(s.tasks, |s.tasks|) && at < |due|
    ensures Before(s, due[at]) == Members(due[..at])
  {
    forall x: nat ensures x in Before(s, due[at]) <==> x in due[..at] {
      if x in Before(s, due[at]) {
        var j :| 0 <= j < |due| && due[j] == x;
        assert j < at;
        assert due[..at][j] == x;
      }
      if x in due[..at] {
        var j :| 0 <= j < at && due[j] == x;
        assert x in due;
      }
    }
  }
}
