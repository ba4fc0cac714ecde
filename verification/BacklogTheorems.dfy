/** What every zone release run keeps: each member counted once, within its cap and its in-flight limit. */
module BacklogTheorems {
  import opened BacklogMembers
  import opened BacklogRelease

  function MembersOf(run: Run): seq<int> {
    Expand(run.job.ranges)
  }

  ghost predicate Frozen(run: Run) {
    var m := MembersOf(run);
    (forall i, j :: 0 <= i < j < |m| ==> m[i] < m[j]) && (forall i :: 0 <= i < |m| ==> m[i] <= run.job.until)
  }

  /** The first p members are exactly those at or before the cursor. */
  ghost predicate Splits(m: seq<int>, p: nat, cursor: int) {
    && p <= |m| && (p < |m| ==> cursor < m[p])
    && (forall i :: 0 <= i < p ==> m[i] <= cursor) && (forall i :: p <= i < |m| ==> m[i] > cursor)
  }

  ghost predicate Capped(run: Run) {
    run.job.cursor >= run.job.until && run.job.eligible == run.job.requested
  }

  /**
   The log names the members passed, in order and each once; the cursor stands right behind them, or the cap
   is reached.
   */
  ghost predicate OnTrack(run: Run) {
    var m := MembersOf(run);
    && |run.log| <= |m| && (forall i :: 0 <= i < |run.log| ==> run.log[i].event == m[i])
    && (Splits(m, |run.log|, run.job.cursor) || Capped(run))
  }

  ghost predicate Tallied(run: Run) {
    && run.job.eligible == Fates(run.log, Released) && run.job.skipped == Fates(run.log, Kept)
    && run.job.excluded == Fates(run.log, Left) && run.job.review == Fates(run.log, Gone)
  }

  function ReleasedIds(log: seq<Passed>, n: nat): seq<int>
    requires n <= |log|
  {
    if n == 0 then [] else ReleasedIds(log, n - 1) + if log[n - 1].fate == Released then [log[n - 1].event] else []
  }

  ghost predicate SameEvents(items: seq<Item>, ids: seq<int>) {
    |items| == |ids| && forall i :: 0 <= i < |items| ==> items[i].event == ids[i]
  }

  /** One followed item per released punch, and the job's counters are those of its items. */
  ghost predicate Followable(run: Run) {
    var n := |run.items|;
    && SameEvents(run.items, ReleasedIds(run.log, |run.log|))
    && run.job.succeeded == CountTo(run.items, n, Delivered)
    && run.job.failed == CountTo(run.items, n, NeedsReview)
    && run.job.identityHeld == CountTo(run.items, n, KeptHeld)
    && (forall i :: 0 <= i < n && IsOpen(run.items[i]) ==> run.items[i].failedChecks < REHOLD_ATTEMPTS)
  }

  ghost predicate Limited(run: Run) {
    run.job.eligible <= run.job.requested && Open(run.items) <= run.job.inFlight
  }

  ghost predicate StatusOk(run: Run) {
    && (run.job.status == Completed ==> Open(run.items) == 0 && run.job.cursor >= run.job.until)
    && (run.job.status == Stopped ==> Open(run.items) == 0)
  }

  ghost predicate RunOk(run: Run) {
    Frozen(run) && OnTrack(run) && Tallied(run) && Followable(run) && Limited(run) && StatusOk(run)
  }

  // ---- Following ----

  lemma {:induction false} FollowCounts(items: seq<Item>, see: int -> Follows, limit: nat, n: nat, s: ItemStatus)
    requires n <= |items| && s != WaitingOracle && s != Reheld
    ensures CountTo(Followed(items, see, limit), n, s) == CountTo(items, n, s) + Closing(items, see, limit, n, s)
  {
    if n > 0 {
      FollowCounts(items, see, limit, n - 1, s);
    }
  }

  lemma {:induction false} FollowOpensNone(items: seq<Item>, see: int -> Follows, limit: nat, n: nat)
    requires n <= |items|
    ensures OpenTo(Followed(items, see, limit), n) <= OpenTo(items, n)
  {
    if n > 0 {
      FollowOpensNone(items, see, limit, n - 1);
    }
  }

  /** A followed item keeps its event, and stays open only with checks left. */
  lemma FollowAtKeeps(items: seq<Item>, see: int -> Follows, limit: nat, i: nat)
    requires i < |items| && (IsOpen(items[i]) ==> items[i].failedChecks < REHOLD_ATTEMPTS)
    ensures var it := FollowAt(items, see, limit, i);
            it.event == items[i].event && (IsOpen(it) ==> IsOpen(items[i]) && it.failedChecks < REHOLD_ATTEMPTS)
  {
  }

  lemma FollowedKeepsItems(run: Run, see: int -> Follows)
    requires Followable(run)
    ensures Followable(FollowedUp(run, see))
  {
    var items, limit, n := run.items, run.job.inFlight + run.job.batchSize, |run.items|;
    FollowCounts(items, see, limit, n, Delivered);
    FollowCounts(items, see, limit, n, NeedsReview);
    FollowCounts(items, see, limit, n, KeptHeld);
    var out := Followed(items, see, limit);
    forall i | 0 <= i < n
      ensures out[i].event == items[i].event && (IsOpen(out[i]) ==> out[i].failedChecks < REHOLD_ATTEMPTS)
    {
      FollowAtKeeps(items, see, limit, i);
    }
  }

  lemma FollowUpKeeps(run: Run, see: int -> Follows)
    requires RunOk(run) && run.job.status != Completed && run.job.status != Stopped
    ensures RunOk(FollowedUp(run, see))
  {
    FollowedKeepsItems(run, see);
    FollowOpensNone(run.items, see, run.job.inFlight + run.job.batchSize, |run.items|);
  }

  lemma {:induction false} OpenGrows(items: seq<Item>, i: nat, n: nat)
    requires i <= n <= |items|
    ensures OpenTo(items, i) <= OpenTo(items, n)
  {
    if i < n {
      OpenGrows(items, i, n - 1);
    }
  }

  /** The read limit never leaves an open item out: every tick looks at all of them. */
  lemma EveryOpenItemIsFollowed(run: Run, see: int -> Follows, i: nat)
    requires RunOk(run) && i < |run.items| && IsOpen(run.items[i])
    ensures FollowedUp(run, see).items[i] == Follow(run.items[i], see(run.items[i].event))
  {
    OpenGrows(run.items, i + 1, |run.items|);
  }

  // ---- Releasing ----

  ghost predicate Judged(handled: seq<Passed>, look: int -> Sees) {
    forall i :: 0 <= i < |handled| ==>
        !Stops(look(handled[i].event)) && handled[i].fate == FateOf(look(handled[i].event))
  }

  lemma {:induction false} HandledIsJudged(candidates: seq<int>, look: int -> Sees, n: nat)
    requires n <= |candidates|
    ensures Judged(Handled(candidates, look, n), look)
  {
    if n > 0 {
      HandledIsJudged(candidates, look, n - 1);
    }
  }

  lemma {:induction false} FatesAdd(a: seq<Passed>, b: seq<Passed>, n: nat, f: Fate)
    requires n <= |b|
    ensures FatesTo(a + b, |a| + n, f) == Fates(a, f) + FatesTo(b, n, f)
  {
    if n == 0 {
      FatesOfPrefix(a, b, |a|, f);
    } else {
      FatesAdd(a, b, n - 1, f);
    }
  }

  lemma {:induction false} FatesOfPrefix(a: seq<Passed>, b: seq<Passed>, n: nat, f: Fate)
    requires n <= |a|
    ensures FatesTo(a + b, n, f) == FatesTo(a, n, f)
  {
    if n > 0 {
      FatesOfPrefix(a, b, n - 1, f);
    }
  }

  lemma {:induction false} ReleasedAdd(a: seq<Passed>, b: seq<Passed>, n: nat)
    requires n <= |b|
    ensures ReleasedIds(a + b, |a| + n) == ReleasedIds(a, |a|) + ReleasedIds(b, n)
  {
    if n == 0 {
      ReleasedOfPrefix(a, b, |a|);
    } else {
      ReleasedAdd(a, b, n - 1);
    }
  }

  lemma {:induction false} ReleasedOfPrefix(a: seq<Passed>, b: seq<Passed>, n: nat)
    requires n <= |a|
    ensures ReleasedIds(a + b, n) == ReleasedIds(a, n)
  {
    if n > 0 {
      ReleasedOfPrefix(a, b, n - 1);
    }
  }

  lemma {:induction false} NewItemsAre(handled: seq<Passed>, look: int -> Sees, n: nat)
    requires n <= |handled| && Judged(handled, look)
    ensures SameEvents(NewItems(handled, look, n), ReleasedIds(handled, n))
    ensures |NewItems(handled, look, n)| == FatesTo(handled, n, Released) <= n
    ensures forall i :: 0 <= i < |NewItems(handled, look, n)| ==>
              NewItems(handled, look, n)[i].status == WaitingOracle && NewItems(handled, look, n)[i].failedChecks == 0
  {
    if n > 0 {
      NewItemsAre(handled, look, n - 1);
    }
  }

  lemma {:induction false} ItemsAdd(a: seq<Item>, b: seq<Item>, n: nat)
    requires n <= |b| && forall i :: 0 <= i < |b| ==> b[i].status == WaitingOracle
    ensures OpenTo(a + b, |a| + n) == Open(a) + n
    ensures forall s :: s != WaitingOracle ==> CountTo(a + b, |a| + n, s) == CountTo(a, |a|, s)
  {
    if n == 0 {
      ItemsOfPrefix(a, b, |a|);
    } else {
      ItemsAdd(a, b, n - 1);
    }
  }

  lemma {:induction false} ItemsOfPrefix(a: seq<Item>, b: seq<Item>, n: nat)
    requires n <= |a|
    ensures OpenTo(a + b, n) == OpenTo(a, n) && forall s :: CountTo(a + b, n, s) == CountTo(a, n, s)
  {
    if n > 0 {
      ItemsOfPrefix(a, b, n - 1);
    }
  }

  /** The members handled continue the log where it stopped. */
  lemma HandledContinues(run: Run, look: int -> Sees, limit: nat)
    requires RunOk(run) && run.job.cursor < run.job.until && Budget(run, limit) > 0
    ensures var handled := Handled(Candidates(run, limit), look, |Candidates(run, limit)|);
            && |handled| <= Budget(run, limit) && |run.log| + |handled| <= |MembersOf(run)|
            && forall i :: 0 <= i < |handled| ==> handled[i].event == MembersOf(run)[|run.log| + i]
    ensures Candidates(run, limit) == [] ==> |run.log| == |MembersOf(run)|
  {
    AfterIsSuffix(MembersOf(run), |run.log|, run.job.cursor);
  }

  lemma HandledKeepsTrack(run: Run, handled: seq<Passed>, look: int -> Sees)
    requires Frozen(run) && OnTrack(run) && run.job.cursor < run.job.until
    requires |run.log| + |handled| <= |MembersOf(run)|
    requires forall i :: 0 <= i < |handled| ==> handled[i].event == MembersOf(run)[|run.log| + i]
    ensures OnTrack(WithHandled(run, handled, look))
  {
    var next, m := WithHandled(run, handled, look), MembersOf(run);
    assert forall i :: 0 <= i < |next.log| ==> next.log[i].event == m[i];
    if handled != [] {
      assert next.job.cursor == m[|next.log| - 1];
      assert Splits(m, |next.log|, next.job.cursor);
    } else {
      assert next.log == run.log;
    }
  }

  lemma HandledKeepsTally(run: Run, handled: seq<Passed>, look: int -> Sees)
    requires Tallied(run)
    ensures Tallied(WithHandled(run, handled, look))
  {
    var n := |handled|;
    FatesAdd(run.log, handled, n, Released);
    FatesAdd(run.log, handled, n, Kept);
    FatesAdd(run.log, handled, n, Left);
    FatesAdd(run.log, handled, n, Gone);
  }

  lemma {:induction false} HandledKeepsItems(run: Run, handled: seq<Passed>, look: int -> Sees, more: seq<Item>)
    requires Followable(run) && SameEvents(more, ReleasedIds(handled, |handled|))
    requires more == NewItems(handled, look, |handled|)
    requires forall i :: 0 <= i < |more| ==> more[i].status == WaitingOracle && more[i].failedChecks == 0
    ensures Followable(WithHandled(run, handled, look))
    ensures Open(run.items + more) == Open(run.items) + |more|
  {
    ReleasedAdd(run.log, handled, |handled|);
    ItemsAdd(run.items, more, |more|);
  }

  lemma HandledKeepsCounts(run: Run, handled: seq<Passed>, look: int -> Sees)
    requires RunOk(run) && Judged(handled, look)
    ensures Tallied(WithHandled(run, handled, look)) && Followable(WithHandled(run, handled, look))
    ensures Open(WithHandled(run, handled, look).items) == Open(run.items) + Fates(handled, Released)
    ensures Fates(handled, Released) <= |handled|
  {
    HandledKeepsTally(run, handled, look);
    NewItemsAre(handled, look, |handled|);
    HandledKeepsItems(run, handled, look, NewItems(handled, look, |handled|));
  }

  lemma {:induction false} HandledKeeps(run: Run, handled: seq<Passed>, look: int -> Sees)
    requires RunOk(run) && run.job.status == Releasing && run.job.cursor < run.job.until && Judged(handled, look)
    requires |run.log| + |handled| <= |MembersOf(run)|
    requires forall i :: 0 <= i < |handled| ==> handled[i].event == MembersOf(run)[|run.log| + i]
    requires |handled| <= run.job.inFlight - Open(run.items) && |handled| <= run.job.requested - run.job.eligible
    ensures RunOk(WithHandled(run, handled, look))
  {
    HandledKeepsTrack(run, handled, look);
    HandledKeepsCounts(run, handled, look);
  }

  /** A cursor moved to the end stands behind the whole log, or marks the cap. */
  lemma EndKeeps(run: Run)
    requires RunOk(run) && run.job.cursor < run.job.until && run.job.status == Releasing
    requires run.job.eligible >= run.job.requested || |run.log| == |MembersOf(run)|
    ensures RunOk(run.(job := run.job.(cursor := run.job.until)))
  {
    var next := run.(job := run.job.(cursor := run.job.until));
    assert Capped(next) || Splits(MembersOf(next), |next.log|, next.job.until);
  }

  lemma {:induction false} BatchKeeps(run: Run, look: int -> Sees, limit: nat)
    requires RunOk(run) && run.job.status == Releasing
    ensures RunOk(Batched(run, look, limit))
  {
    if run.job.cursor < run.job.until {
      if run.job.eligible >= run.job.requested {
        EndKeeps(run);
      } else if Budget(run, limit) > 0 {
        HandledContinues(run, look, limit);
        var candidates := Candidates(run, limit);
        if candidates == [] {
          EndKeeps(run);
        } else {
          HandledIsJudged(candidates, look, |candidates|);
          HandledKeeps(run, Handled(candidates, look, |candidates|), look);
        }
      }
    }
  }

  lemma {:induction false} HandledIsWhole(candidates: seq<int>, look: int -> Sees, n: nat)
    requires n <= |candidates|
    ensures var out := Handled(candidates, look, n); |out| < n ==> Stops(look(candidates[|out|]))
  {
    if n > 0 {
      HandledIsWhole(candidates, look, n - 1);
    }
  }

  /** A member and what became of it, as the tick found it. */
  predicate AsFound(p: Passed, v: Sees) {
    match p.fate
    case Released => v.Passes?
    case Gone => v.NotHeld?
    case Left => v.OtherProof?
    case Kept => v.Fails?
  }

  lemma HandledAsFound(candidates: seq<int>, look: int -> Sees)
    ensures var out := Handled(candidates, look, |candidates|);
            && (forall i :: 0 <= i < |out| ==> AsFound(out[i], look(out[i].event)))
            && (|out| < |candidates| ==> Stops(look(candidates[|out|])))
  {
    HandledIsJudged(candidates, look, |candidates|);
    HandledIsWhole(candidates, look, |candidates|);
  }

  /**
   A batch passes exactly the members it could judge, up to the first it could not: each is logged as found, and
   the batch ends early only at a member that was locked or whose roster was not ready or changed.
   */
  lemma {:induction false} BatchLogsWhatItFound(run: Run, look: int -> Sees, limit: nat, more: seq<Passed>)
    requires RunOk(run) && run.job.cursor < run.job.until && run.job.eligible < run.job.requested
             && Budget(run, limit) > 0
    requires Batched(run, look, limit).log == run.log + more
    ensures forall i :: 0 <= i < |more| ==> AsFound(more[i], look(more[i].event))
    ensures |more| < |Candidates(run, limit)| ==>
              |run.log| + |more| < |MembersOf(run)| && Stops(look(MembersOf(run)[|run.log| + |more|]))
  {
    var candidates := Candidates(run, limit);
    HandledAsFound(candidates, look);
    assert more == if candidates == [] then [] else Handled(candidates, look, |candidates|) by {
      assert (run.log + more)[|run.log|..] == more;
    }
    CandidatesAreNext(run, limit);
  }

  lemma CandidatesAreNext(run: Run, limit: nat)
    requires RunOk(run) && run.job.cursor < run.job.until && Budget(run, limit) > 0
    ensures |run.log| + |Candidates(run, limit)| <= |MembersOf(run)|
    ensures forall i :: 0 <= i < |Candidates(run, limit)| ==> Candidates(run, limit)[i] == MembersOf(run)[|run.log| + i]
  {
    AfterIsSuffix(MembersOf(run), |run.log|, run.job.cursor);
  }

  /** A released punch stops being followed only for the reason its status names. */
  lemma ClosesForAReason(run: Run, see: int -> Follows, i: nat)
    requires RunOk(run) && i < |run.items| && IsOpen(run.items[i])
    ensures var seen, it, was := see(run.items[i].event), FollowedUp(run, see).items[i], run.items[i];
            && (it.status == Delivered <==> seen.Acknowledged?)
            && (it.status == NeedsReview <==> seen.Elsewhere?)
            && (it.status == KeptHeld <==>
                  seen.HeldAgain? && (seen.check == TerminalChanged
                                      || (seen.check == FailsAgain && seen.snapshot != was.checked
                                          && was.failedChecks + 1 == REHOLD_ATTEMPTS)))
  {
    EveryOpenItemIsFollowed(run, see, i);
  }

  // ---- Whole runs ----

  datatype Step = Tick(look: int -> Sees, see: int -> Follows, limit: nat) | OwnerStops

  function Apply(run: Run, step: Step): Run {
    match step
    case Tick(look, see, limit) => Advanced(run, look, see, limit)
    case OwnerStops => StoppedBy(run)
  }

  function After(run: Run, steps: seq<Step>): Run {
    if steps == [] then run else Apply(After(run, steps[..|steps| - 1]), steps[|steps| - 1])
  }

  lemma ClosedKeeps(run: Run)
    requires RunOk(run) && (run.job.status == Releasing || run.job.status == StoppedFollowing)
    ensures RunOk(Closed(run))
  {
  }

  lemma StepKeeps(run: Run, step: Step)
    requires RunOk(run)
    ensures RunOk(Apply(run, step))
  {
    match step
    case Tick(look, see, limit) =>
      if run.job.status == Releasing {
        FollowUpKeeps(run, see);
        BatchKeeps(FollowedUp(run, see), look, limit);
        ClosedKeeps(Batched(FollowedUp(run, see), look, limit));
      } else if run.job.status == StoppedFollowing {
        FollowUpKeeps(run, see);
        ClosedKeeps(FollowedUp(run, see));
      }
    case OwnerStops =>
  }

  lemma {:induction false} RunKeeps(run: Run, steps: seq<Step>)
    requires RunOk(run)
    ensures RunOk(After(run, steps))
  {
    if steps != [] {
      RunKeeps(run, steps[..|steps| - 1]);
      StepKeeps(After(run, steps[..|steps| - 1]), steps[|steps| - 1]);
    }
  }

  /** The run before step n. */
  function At(run: Run, steps: seq<Step>, n: nat): Run
    requires n <= |steps|
  {
    After(run, steps[..n])
  }

  lemma AtNext(run: Run, steps: seq<Step>, n: nat)
    requires n < |steps|
    ensures At(run, steps, n + 1) == Apply(At(run, steps, n), steps[n])
  {
    assert steps[..n + 1][..n] == steps[..n];
  }

  /** The step checks this open punch again on a roster snapshot other than the last one checked, and it fails. */
  predicate FailsCheck(run: Run, step: Step, i: nat) {
    step.Tick? && (run.job.status == Releasing || run.job.status == StoppedFollowing)
    && i < |run.items| && IsOpen(run.items[i])
    && var seen := step.see(run.items[i].event);
       seen.HeldAgain? && seen.check == FailsAgain && seen.snapshot != run.items[i].checked
  }

  /** How many of the first n steps failed a check of this punch. */
  ghost function FailedTo(run: Run, steps: seq<Step>, n: nat, i: nat): nat
    requires n <= |steps|
  {
    if n == 0 then 0
    else FailedTo(run, steps, n - 1, i) + if FailsCheck(At(run, steps, n - 1), steps[n - 1], i) then 1 else 0
  }

  lemma {:induction false} NewItemsStart(handled: seq<Passed>, look: int -> Sees, n: nat)
    requires n <= |handled|
    ensures forall i :: 0 <= i < |NewItems(handled, look, n)| ==>
              IsOpen(NewItems(handled, look, n)[i]) && NewItems(handled, look, n)[i].failedChecks == 0
  {
    if n > 0 {
      NewItemsStart(handled, look, n - 1);
    }
  }

  /** A batch leaves the followed items alone and appends open ones with no failed check. */
  ghost predicate OnlyAdds(items: seq<Item>, next: seq<Item>) {
    items <= next && forall i :: |items| <= i < |next| ==> IsOpen(next[i]) && next[i].failedChecks == 0
  }

  lemma {:induction false} BatchOnlyAdds(run: Run, look: int -> Sees, limit: nat)
    ensures OnlyAdds(run.items, Batched(run, look, limit).items)
  {
    var handled := Handled(Candidates(run, limit), look, |Candidates(run, limit)|);
    NewItemsStart(handled, look, |handled|);
  }

  /** What one step does to the followed items: those there are followed or left, and new ones are appended. */
  lemma {:induction false} StepItems(run: Run, step: Step)
    ensures OnlyAdds(if step.Tick? && (run.job.status == Releasing || run.job.status == StoppedFollowing)
                     then FollowedUp(run, step.see).items else run.items, Apply(run, step).items)
  {
    if step.Tick? {
      BatchOnlyAdds(FollowedUp(run, step.see), step.look, step.limit);
    }
  }

  lemma {:induction false} FollowCountsFailures(run: Run, step: Step, i: nat)
    requires RunOk(run) && i < |run.items|
    requires step.Tick? && (run.job.status == Releasing || run.job.status == StoppedFollowing)
    ensures FollowedUp(run, step.see).items[i].failedChecks ==
            run.items[i].failedChecks + if FailsCheck(run, step, i) then 1 else 0
  {
    if IsOpen(run.items[i]) {
      EveryOpenItemIsFollowed(run, step.see, i);
    }
  }

  lemma {:induction false} StepCountsFailures(run: Run, step: Step, i: nat)
    requires RunOk(run) && i < |run.items|
    ensures i < |Apply(run, step).items|
    ensures Apply(run, step).items[i].failedChecks ==
            run.items[i].failedChecks + if FailsCheck(run, step, i) then 1 else 0
  {
    StepItems(run, step);
    if step.Tick? && (run.job.status == Releasing || run.job.status == StoppedFollowing) {
      FollowCountsFailures(run, step, i);
    }
  }

  lemma {:induction false} NotFailedYet(run: Run, steps: seq<Step>, n: nat, i: nat)
    requires n <= |steps| && |At(run, steps, n).items| <= i
    ensures FailedTo(run, steps, n, i) == 0
  {
    if n > 0 {
      AtNext(run, steps, n - 1);
      StepItems(At(run, steps, n - 1), steps[n - 1]);
      NotFailedYet(run, steps, n - 1, i);
    }
  }

  /** An item's failed checks are the steps that failed one. */
  lemma {:induction false} FailuresCounted(run: Run, steps: seq<Step>, n: nat, i: nat)
    requires RunOk(run) && run.items == [] && n <= |steps| && i < |At(run, steps, n).items|
    ensures At(run, steps, n).items[i].failedChecks == FailedTo(run, steps, n, i)
  {
    if n > 0 {
      var before := At(run, steps, n - 1);
      AtNext(run, steps, n - 1);
      RunKeeps(run, steps[..n - 1]);
      if i < |before.items| {
        FailuresCounted(run, steps, n - 1, i);
        StepCountsFailures(before, steps[n - 1], i);
      } else {
        NotFailedYet(run, steps, n - 1, i);
        StepItems(before, steps[n - 1]);
      }
    }
  }

  /** The tick that closed a followed punch found what its status says; `failed` checks had failed before it. */
  predicate Explains(run: Run, step: Step, i: nat, failed: nat, status: ItemStatus) {
    step.Tick? && i < |run.items| && IsOpen(run.items[i])
    && var seen := step.see(run.items[i].event);
       match status
       case Delivered => seen.Acknowledged?
       case NeedsReview => seen.Elsewhere?
       case KeptHeld =>
         (seen.HeldAgain? && seen.check == TerminalChanged)
         || (FailsCheck(run, step, i) && failed + 1 == REHOLD_ATTEMPTS)
       case _ => false
  }

  /** A step closes an item only where it explains it. */
  lemma {:induction false} StepExplains(run: Run, step: Step, i: nat)
    requires RunOk(run) && i < |Apply(run, step).items| && !IsOpen(Apply(run, step).items[i])
    ensures i < |run.items|
    ensures Explains(run, step, i, run.items[i].failedChecks, Apply(run, step).items[i].status)
            || run.items[i] == Apply(run, step).items[i]
  {
    StepItems(run, step);
    if step.Tick? && (run.job.status == Releasing || run.job.status == StoppedFollowing) && IsOpen(run.items[i]) {
      ClosesForAReason(run, step.see, i);
    }
  }

  /**
   Over any run, a released punch stopped being followed because some tick found what its status says; one kept held
   with its terminal unchanged had failed exactly REHOLD_ATTEMPTS checks, each on a snapshot not checked just before.
   */
  lemma {:induction false} ClosedForItsReason(run: Run, steps: seq<Step>, n: nat, i: nat)
    requires RunOk(run) && run.items == [] && n <= |steps|
    requires i < |At(run, steps, n).items| && !IsOpen(At(run, steps, n).items[i])
    ensures exists k :: 0 <= k < n
              && Explains(At(run, steps, k), steps[k], i, FailedTo(run, steps, k, i), At(run, steps, n).items[i].status)
  {
    if n > 0 {
      var before := At(run, steps, n - 1);
      AtNext(run, steps, n - 1);
      RunKeeps(run, steps[..n - 1]);
      StepExplains(before, steps[n - 1], i);
      FailuresCounted(run, steps, n - 1, i);
      if before.items[i] == At(run, steps, n).items[i] {
        ClosedForItsReason(run, steps, n - 1, i);
      }
    }
  }

  /** The run `create_release` saves. */
  function Approved(ranges: seq<Range>, until: int, requested: nat, inFlight: nat, batchSize: nat): Run {
    Run(Job(ranges, until, requested, inFlight, batchSize, Releasing, 0, 0, 0, 0, 0, 0, 0, 0), [], [])
  }

  /** The punches an approval may freeze: row IDs no later than the check's last one, each once. */
  predicate Freezable(ids: seq<int>, until: int) {
    Distinct(ids) && forall i :: 0 <= i < |ids| ==> 0 < ids[i] <= until
  }

  lemma ApprovedIsOk(ids: seq<int>, ranges: seq<Range>, until: int, requested: nat, inFlight: nat, batchSize: nat)
    requires Freezable(ids, until) && Expand(ranges) == Sorted(ids)
    ensures RunOk(Approved(ranges, until, requested, inFlight, batchSize))
  {
    SortedIsStrict(ids);
    var m := Expand(ranges);
    forall i | 0 <= i < |m| ensures 0 < m[i] <= until {
      assert m[i] in Sorted(ids);
    }
  }

  /** An approval freezes exactly the chosen punches, and its run starts sound. */
  method CreateRelease(ids: seq<int>, until: int, requested: nat, inFlight: nat, batchSize: nat) returns (run: Run)
    requires Freezable(ids, until)
    ensures RunOk(run) && MembersOf(run) == Sorted(ids) && forall x :: x in MembersOf(run) <==> x in ids
    ensures run == Approved(run.job.ranges, until, requested, inFlight, batchSize)
    ensures forall other :: Expand(other) == MembersOf(run) ==> |run.job.ranges| <= |other|
  {
    var ranges := IdRanges(ids);
    ApprovedIsOk(ids, ranges, until, requested, inFlight, batchSize);
    SortedIsStrict(ids);
    run := Approved(ranges, until, requested, inFlight, batchSize);
  }

  lemma {:induction false} StatusesCover(items: seq<Item>, n: nat)
    requires n <= |items|
    ensures n == OpenTo(items, n) + CountTo(items, n, Delivered) + CountTo(items, n, NeedsReview)
            + CountTo(items, n, KeptHeld)
  {
    if n > 0 {
      StatusesCover(items, n - 1);
    }
  }

  lemma {:induction false} ReleasedCount(log: seq<Passed>, n: nat)
    requires n <= |log|
    ensures |ReleasedIds(log, n)| == FatesTo(log, n, Released)
  {
    if n > 0 {
      ReleasedCount(log, n - 1);
    }
  }

  /** Nothing is lost or counted twice, whatever every tick finds and whenever the owner stops the run. */
  lemma NothingLostOrDoubleCounted(run: Run, steps: seq<Step>)
    requires RunOk(run)
    ensures var last := After(run, steps);
            && last.job.eligible == Open(last.items) + last.job.succeeded + last.job.failed + last.job.identityHeld
            && last.job.eligible <= last.job.requested && Open(last.items) <= last.job.inFlight
            && last.job.eligible + last.job.skipped + last.job.excluded + last.job.review == |last.log|
            && (!Capped(last) ==> forall e :: e in MembersOf(last) ==>
                  (e <= last.job.cursor <==> exists k :: 0 <= k < |last.log| && last.log[k].event == e))
  {
    RunKeeps(run, steps);
    var last := After(run, steps);
    StatusesCover(last.items, |last.items|);
    ReleasedCount(last.log, |last.log|);
    FatesCover(last.log, |last.log|);
    if !Capped(last) {
      var m := MembersOf(last);
      forall e | e in m
        ensures e <= last.job.cursor <==> exists k :: 0 <= k < |last.log| && last.log[k].event == e
      {
        var i :| 0 <= i < |m| && m[i] == e;
        if i < |last.log| { assert last.log[i].event == e; }
      }
    }
  }

  lemma {:induction false} FatesCover(log: seq<Passed>, n: nat)
    requires n <= |log|
    ensures n == FatesTo(log, n, Released) + FatesTo(log, n, Kept) + FatesTo(log, n, Left) + FatesTo(log, n, Gone)
  {
    if n > 0 {
      FatesCover(log, n - 1);
    }
  }

  /** No member is ever logged twice. */
  lemma EachMemberOnce(run: Run, steps: seq<Step>, i: nat, j: nat)
    requires RunOk(run) && i < j < |After(run, steps).log|
    ensures After(run, steps).log[i].event < After(run, steps).log[j].event
  {
    RunKeeps(run, steps);
  }

  /** A finished run follows nothing, and completes only past every member or at the approved cap. */
  lemma FinishedRunsAreDone(run: Run, steps: seq<Step>)
    requires RunOk(run)
    ensures var last := After(run, steps);
            && (last.job.status == Completed || last.job.status == Stopped ==> Open(last.items) == 0)
            && (last.job.status == Completed ==>
                |last.log| == |MembersOf(last)| || last.job.eligible == last.job.requested)
  {
    RunKeeps(run, steps);
  }
}
