/** What one tick or stop makes of every followed punch, of the members next in line and of the run itself. */
module BacklogOutcomes {
  import BacklogMembers
  import opened BacklogRelease
  import opened BacklogTheorems

  // -------------------------------------------------------------- followed punches

  /** Where an open item stands after a tick that found this. */
  ghost predicate FollowSays(was: Item, seen: Follows, now: Item) {
    now.event == was.event
    && match seen
       case Acknowledged => now.status == Delivered
       case Elsewhere => now.status == NeedsReview
       case InQueue => now == was.(status := WaitingOracle)
       case HeldAgain(check, snapshot) =>
         if check == TerminalChanged then now.status == KeptHeld
         else if snapshot == was.checked || check in {NotReady, Busy, NewRoster, Replaced} then
           now == was.(status := Reheld)
         else
           now.checked == snapshot
           && now.failedChecks == was.failedChecks + (if check == FailsAgain then 1 else 0)
           && now.status == if check == PassesAgain then WaitingOracle
                            else if check == FailsAgain && was.failedChecks >= 2 then KeptHeld else Reheld
  }

  lemma OpenItemSays(run: Run, see: int -> Follows, i: nat)
    requires RunOk(run) && i < |run.items| && IsOpen(run.items[i])
    ensures i < |FollowedUp(run, see).items|
    ensures FollowSays(run.items[i], see(run.items[i].event), FollowedUp(run, see).items[i])
  {
    EveryOpenItemIsFollowed(run, see, i);
  }

  // -------------------------------------------------------------------- the run's status

  ghost predicate NothingOpen(items: seq<Item>) {
    forall i :: 0 <= i < |items| ==> items[i].status in {Delivered, NeedsReview, KeptHeld}
  }

  lemma {:induction false} NoneOpen(items: seq<Item>, n: nat)
    requires n <= |items|
    ensures OpenTo(items, n) == 0 <==> forall i :: 0 <= i < n ==> items[i].status in {Delivered, NeedsReview, KeptHeld}
  {
    if n > 0 {
      NoneOpen(items, n - 1);
    }
  }

  /**
   A releasing run completes exactly when it is past its last member with nothing open, a stopped one stops exactly
   when nothing is open, and a finished one is never touched again.
   */
  lemma {:induction false} TickDecidesStatus(run: Run, look: int -> Sees, see: int -> Follows, limit: nat)
    ensures var n := Advanced(run, look, see, limit);
            match run.job.status
            case Releasing =>
              n.job.status == if n.job.cursor >= n.job.until && NothingOpen(n.items) then Completed else Releasing
            case StoppedFollowing =>
              n.log == run.log && n.job.cursor == run.job.cursor
              && n.job.status == if NothingOpen(n.items) then Stopped else StoppedFollowing
            case _ => n == run
  {
    var followed := FollowedUp(run, see);
    var next := if run.job.status == Releasing then Batched(followed, look, limit) else followed;
    NoneOpen(next.items, |next.items|);
    assert next.job.status == run.job.status;
  }

  /** A stop ends a releasing run at once if nothing is open, else leaves it following, and does nothing to others. */
  lemma {:induction false} StopDecidesStatus(run: Run)
    ensures StoppedBy(run).(job := run.job) == run
    ensures StoppedBy(run).job.(status := run.job.status) == run.job
    ensures StoppedBy(run).job.status ==
            if run.job.status != Releasing then run.job.status
            else if NothingOpen(run.items) then Stopped else StoppedFollowing
  {
    NoneOpen(run.items, |run.items|);
  }

  /** Once stopped by its owner or finished, a run releases nothing more, whatever happens later. */
  lemma {:induction false} StoppedReleasesNoMore(run: Run, steps: seq<Step>)
    requires run.job.status != Releasing
    ensures var last := After(run, steps);
            last.job.status != Releasing && last.log == run.log && |last.items| == |run.items|
            && last.job.eligible == run.job.eligible
  {
    if steps != [] {
      StoppedReleasesNoMore(run, steps[..|steps| - 1]);
    }
  }

  // --------------------------------------------------------------- how far a batch goes

  /** How many members one batch may pass: the asked size, at most 200, within the open limit and the approved cap. */
  function Room(run: Run, limit: nat): int {
    var asked := if limit == 0 then run.job.batchSize else limit;
    var size := if asked > 200 then 200 else if asked < 1 then 1 else asked;
    var free, left := run.job.inFlight - Open(run.items), run.job.requested - run.job.eligible;
    if size <= free && size <= left then size else if free <= left then free else left
  }

  lemma RoomIsBudget(run: Run, limit: nat)
    ensures Room(run, limit) == Budget(run, limit)
  {
  }

  /** The members not passed yet, in order. */
  function Ahead(run: Run): (m: seq<int>)
    requires |run.log| <= |MembersOf(run)|
  {
    MembersOf(run)[|run.log|..]
  }

  /** The next k members can all be judged. */
  ghost predicate Judgeable(run: Run, look: int -> Sees, k: nat)
    requires |run.log| + k <= |MembersOf(run)|
  {
    forall i :: |run.log| <= i < |run.log| + k ==> !Stops(look(MembersOf(run)[i]))
  }

  ghost predicate MayRelease(run: Run) {
    RunOk(run) && run.job.cursor < run.job.until && run.job.eligible < run.job.requested
  }

  lemma {:induction false} CandidatesCount(run: Run, limit: nat)
    requires MayRelease(run) && Room(run, limit) > 0
    ensures |Candidates(run, limit)|
            == if |Ahead(run)| <= Room(run, limit) then |Ahead(run)| else Room(run, limit)
  {
    RoomIsBudget(run, limit);
    BacklogMembers.AfterIsSuffix(MembersOf(run), |run.log|, run.job.cursor);
  }

  lemma {:induction false} HandledStopsAt(candidates: seq<int>, look: int -> Sees, n: nat, k: nat)
    requires k <= n <= |candidates|
    requires forall i :: 0 <= i < k ==> !Stops(look(candidates[i]))
    requires k < n ==> Stops(look(candidates[k]))
    ensures |Handled(candidates, look, n)| == k
  {
    if n > 0 {
      if k == n {
        HandledStopsAt(candidates, look, n - 1, n - 1);
      } else {
        HandledStopsAt(candidates, look, n - 1, k);
      }
    }
  }

  /** A batch passes exactly the members its room allows, up to the first that cannot be judged. */
  lemma {:induction false} BatchPasses(run: Run, look: int -> Sees, limit: nat, k: nat)
    requires MayRelease(run) && 0 < k <= Room(run, limit) && k <= |Ahead(run)| && Judgeable(run, look, k)
    requires k == Room(run, limit) || k == |Ahead(run)| || Stops(look(MembersOf(run)[|run.log| + k]))
    ensures var n := Batched(run, look, limit);
            |n.log| == |run.log| + k && n.job.cursor == MembersOf(run)[|run.log| + k - 1]
  {
    RoomIsBudget(run, limit);
    CandidatesCount(run, limit);
    CandidatesAreNext(run, limit);
    var candidates := Candidates(run, limit);
    HandledStopsAt(candidates, look, |candidates|, k);
  }

  /** With no room the batch waits; at the cap or behind the last member the cursor goes to the end. */
  lemma {:induction false} BatchWaitsOrEnds(run: Run, look: int -> Sees, limit: nat)
    requires RunOk(run) && run.job.cursor < run.job.until
    ensures run.job.eligible >= run.job.requested ==>
              Batched(run, look, limit) == run.(job := run.job.(cursor := run.job.until))
    ensures run.job.eligible < run.job.requested && Room(run, limit) <= 0 ==> Batched(run, look, limit) == run
    ensures run.job.eligible < run.job.requested && Room(run, limit) > 0 && Ahead(run) == [] ==>
              Batched(run, look, limit) == run.(job := run.job.(cursor := run.job.until))
    ensures var blocked := Ahead(run) != [] && Stops(look(Ahead(run)[0]));
            run.job.eligible < run.job.requested && Room(run, limit) > 0 && blocked ==>
              Batched(run, look, limit).log == run.log && Batched(run, look, limit).job.cursor == run.job.cursor
  {
    RoomIsBudget(run, limit);
    if run.job.eligible < run.job.requested && Room(run, limit) > 0 {
      CandidatesCount(run, limit);
      if Ahead(run) != [] {
        var candidates := Candidates(run, limit);
        CandidatesAreNext(run, limit);
        if Stops(look(candidates[0])) {
          HandledStopsAt(candidates, look, |candidates|, 0);
          assert run.log + [] == run.log;
        }
      }
    }
  }

  // ------------------------------------------------------------------ undisturbed runs finish

  /** A tick that can judge every member and finds every released punch acknowledged. */
  ghost predicate Clear(step: Step) {
    step.Tick? && (forall e :: !Stops(step.look(e))) && (forall e :: step.see(e) == Acknowledged)
  }

  lemma {:induction false} ClearClosesAll(run: Run, see: int -> Follows)
    requires RunOk(run) && run.job.status == Releasing && forall e :: see(e) == Acknowledged
    ensures RunOk(FollowedUp(run, see)) && Open(FollowedUp(run, see).items) == 0
    ensures FollowedUp(run, see).job.status == run.job.status && FollowedUp(run, see).log == run.log
    ensures FollowedUp(run, see).job.inFlight == run.job.inFlight && MembersOf(FollowedUp(run, see)) == MembersOf(run)
  {
    FollowUpKeeps(run, see);
    var items := FollowedUp(run, see).items;
    forall i | 0 <= i < |items| ensures items[i].status in {Delivered, NeedsReview, KeptHeld} {
      if IsOpen(run.items[i]) {
        EveryOpenItemIsFollowed(run, see, i);
      }
    }
    NoneOpen(items, |items|);
  }

  /** A clear tick completes the run or passes a member. */
  lemma {:induction false} ClearTickAdvances(run: Run, step: Step)
    requires RunOk(run) && run.job.status == Releasing && run.job.inFlight > 0 && Clear(step)
    ensures var n := Apply(run, step);
            && MembersOf(n) == MembersOf(run) && n.job.inFlight == run.job.inFlight
            && (n.job.status == Completed || (n.job.status == Releasing && |n.log| > |run.log|))
  {
    var f := FollowedUp(run, step.see);
    ClearClosesAll(run, step.see);
    if MayRelease(f) && Ahead(f) != [] {
      var room := Room(f, step.limit);
      var k := if room <= |Ahead(f)| then room else |Ahead(f)|;
      BatchPasses(f, step.look, step.limit, k);
    } else if f.job.cursor < f.job.until {
      BatchWaitsOrEnds(f, step.look, step.limit);
    }
  }

  /** Whatever was left open, one clear tick more than there are members left completes a releasing run. */
  lemma {:induction false} ClearTicksComplete(run: Run, steps: seq<Step>)
    requires RunOk(run) && run.job.status == Releasing && run.job.inFlight > 0
    requires (forall k :: 0 <= k < |steps| ==> Clear(steps[k])) && |steps| > |MembersOf(run)| - |run.log|
    ensures After(run, steps).job.status == Completed
  {
    ClearTicksGain(run, steps);
    RunKeeps(run, steps);
  }

  lemma {:induction false} ClearTicksGain(run: Run, steps: seq<Step>)
    requires RunOk(run) && run.job.status == Releasing && run.job.inFlight > 0
    requires forall k :: 0 <= k < |steps| ==> Clear(steps[k])
    ensures var n := After(run, steps);
            && MembersOf(n) == MembersOf(run) && n.job.inFlight == run.job.inFlight
            && (n.job.status == Completed || (n.job.status == Releasing && |n.log| >= |run.log| + |steps|))
  {
    if steps != [] {
      var before := steps[..|steps| - 1];
      ClearTicksGain(run, before);
      RunKeeps(run, before);
      if After(run, before).job.status == Releasing {
        ClearTickAdvances(After(run, before), steps[|steps| - 1]);
      }
    }
  }
}
