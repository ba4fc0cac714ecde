/**
 What `split_claims` may hand to ordinary delivery. Two conditions decide it: whether
 the claim still owns its row, and whether the row could be claimed again before the
 split. One worker process holds its delivery lock from the claim to the last reply
 (`deliver_ords_batch`), so in its own runs no claim is ever left waiting.
 */
module DeliveryHandover {
  import opened Options
  import opened DeliveryRows
  import opened DeliveryProtocol
  import opened DeliveryTheorems

  /** No row is claimed while an earlier claim of the punch still waits to be split. */
  predicate Locks(s: System, step: Step) {
    step.ClaimRow? ==> s.carried == []
  }

  predicate Serial(s: System, steps: seq<Step>)
    requires Runs(s, steps)
    decreases |steps|
  {
    steps == [] || (Locks(s, steps[0]) && Serial(Apply(s, steps[0]), steps[1..]))
  }

  ghost predicate SerialReachable(s: System) {
    exists s0, steps :: Initial(s0) && Runs(s0, steps) && Serial(s0, steps) && After(s0, steps) == s
  }

  lemma {:induction false} OneMoreSerialStep(s: System, steps: seq<Step>, step: Step)
    requires Runs(s, steps) && Serial(s, steps) && Enabled(After(s, steps), step) && Locks(After(s, steps), step)
    ensures Runs(s, steps + [step]) && Serial(s, steps + [step])
    ensures After(s, steps + [step]) == Apply(After(s, steps), step)
    decreases |steps|
  {
    if steps == [] {
      assert (steps + [step])[1..] == [];
      assert Runs(Apply(s, step), []);
    } else {
      assert (steps + [step])[1..] == steps[1..] + [step];
      OneMoreSerialStep(Apply(s, steps[0]), steps[1..], step);
    }
  }

  lemma SerialReachableStep(s: System, step: Step)
    requires SerialReachable(s) && Enabled(s, step) && Locks(s, step)
    ensures SerialReachable(Apply(s, step))
  {
    var s0, steps :| Initial(s0) && Runs(s0, steps) && Serial(s0, steps) && After(s0, steps) == s;
    OneMoreSerialStep(s0, steps, step);
  }

  lemma InitialSerialReachable(s: System)
    requires Initial(s)
    ensures SerialReachable(s)
  {
    assert Runs(s, []) && Serial(s, []) && After(s, []) == s;
  }

  lemma SerialIsReachable(s: System)
    requires SerialReachable(s)
    ensures Reachable(s)
  {
  }

  // ------------------------------------------------ under the delivery lock

  /** Whatever may have been posted under a direct approval names `cnic`. */
  ghost predicate PostedAs(r: Rows, cnic: string) {
    forall i :: Reserved?(r, i) ==>
      Decided(r) && (Current(r).direct ==> i == Current(r).item && Current(r).payload.cnic == cnic)
  }

  ghost predicate AllOlder(workers: seq<Worker>, attempt: nat) {
    forall k :: 0 <= k < |workers| ==> workers[k].claim.attempt < attempt
  }

  /** The one waiting claim is the row's newest, and no worker may write under it. */
  ghost predicate LockInvariant(s: System) {
    && |s.carried| <= 1
    && (s.carried != [] ==>
          s.carried[0].attempt == Attempt(s.rows) && AllOlder(s.workers, Attempt(s.rows))
          && PostedAs(s.rows, s.carried[0].payload.cnic))
  }

  /** Only the current direct approval may have been posted. */
  lemma ReservedIsCurrent(r: Rows, i: nat)
    requires DecisionsSound(r) && OnlyLastReserved(r) && Reserved?(r, i)
    ensures Decided(r) && (Current(r).direct ==> i == Current(r).item)
  {
    var j :| 0 <= j < |r.decisions| && r.decisions[j].item == i && r.decisions[j].direct;
    assert r.decisions[|r.decisions| - 1] == Current(r);
  }

  lemma QueueKeepsPosted(r: Rows, w: World, i: nat, check: QueueCheck, now: int, cnic: string)
    requires DecisionsSound(r) && OnlyLastReserved(r) && i in r.items && r.items[i].status == Ready
    requires PostedAs(r, cnic)
    ensures PostedAs(Queued(r, w, i, check, now), cnic)
  {
    var r' := Queued(r, w, i, check, now);
    forall j | Reserved?(r', j)
      ensures Decided(r') && (Current(r').direct ==> j == Current(r').item && Current(r').payload.cnic == cnic)
    {
      assert Reserved?(r, j);
      ReservedIsCurrent(r, j);
    }
  }

  /** The claim carries the CNIC of whatever may already have been posted. */
  lemma ClaimCarriesPosted(r: Rows, w: World, checks: ClaimCheck)
    requires DecisionsSound(r) && OnlyLastReserved(r) && r.outbox.Some? && Claimed(r, w, checks).1.Some?
    ensures PostedAs(Claimed(r, w, checks).0, Claimed(r, w, checks).1.value.cnic)
  {
    var r', p := Claimed(r, w, checks).0, Claimed(r, w, checks).1.value;
    forall i | Reserved?(r', i)
      ensures Decided(r') && (Current(r').direct ==> i == Current(r').item && Current(r').payload.cnic == p.cnic)
    {
      assert Reserved?(r, i);
      ReservedIsCurrent(r, i);
    }
  }

  lemma ClaimKeepsLock(s: System, checks: ClaimCheck)
    requires Invariant(s) && Enabled(s, ClaimRow(checks)) && s.carried == []
    ensures LockInvariant(Apply(s, ClaimRow(checks)))
  {
    if Claimed(s.rows, s.world, checks).1.Some? {
      ClaimCarriesPosted(s.rows, s.world, checks);
      ClaimCountsUp(s.rows, s.world, checks);
      forall k | 0 <= k < |s.workers| ensures s.workers[k].claim.attempt <= Attempt(s.rows) {
        assert WorkerSound(s.rows, s.oracle, s.workers[k]);
      }
    }
  }

  lemma ReserveKeepsLock(s: System, k: nat)
    requires Invariant(s) && LockInvariant(s) && Enabled(s, Reserve(k))
    ensures LockInvariant(Apply(s, Reserve(k)))
  {
    if s.carried != [] {
      OlderIsFenced(s.rows, s.workers[k].claim, s.workers[k].phase.verdict, s.world, false);
    }
  }

  lemma PersistKeepsLock(s: System, k: nat)
    requires Invariant(s) && LockInvariant(s) && Enabled(s, Persist(k))
    ensures LockInvariant(Apply(s, Persist(k)))
  {
    if s.carried != [] {
      OlderIsFenced(s.rows, s.workers[k].claim, s.workers[k].phase.verdict, s.world, false);
    }
  }

  lemma EnvironmentKeepsLock(s: System, rows: Rows, world: World)
    requires Invariant(s) && LockInvariant(s) && Enabled(s, Environment(rows, world))
    ensures LockInvariant(Apply(s, Environment(rows, world)))
  {
    if s.carried != [] {
      forall i | Reserved?(rows, i) ensures Reserved?(s.rows, i) {}
    }
  }

  lemma QueueKeepsLock(s: System, i: nat, check: QueueCheck, now: int)
    requires Invariant(s) && LockInvariant(s) && Enabled(s, Queue(i, check, now))
    ensures LockInvariant(Apply(s, Queue(i, check, now)))
  {
    if s.carried != [] {
      QueueKeepsPosted(s.rows, s.world, i, check, now, s.carried[0].payload.cnic);
    }
  }

  lemma ForceKeepsLock(s: System, i: nat, p: Payload, cnic: string, now: int)
    requires Invariant(s) && LockInvariant(s) && Enabled(s, ForceApprove(i, p, cnic, now))
    ensures LockInvariant(Apply(s, ForceApprove(i, p, cnic, now)))
  {
  }

  lemma ApproveKeepsLock(s: System, i: nat, p: Payload)
    requires LockInvariant(s) && Enabled(s, Approve(i, p))
    ensures LockInvariant(Apply(s, Approve(i, p)))
  {
    forall j | Reserved?(Apply(s, Approve(i, p)).rows, j) ensures Reserved?(s.rows, j) {}
  }

  /** A step of one worker, of the network or of Oracle. */
  predicate Quiet(step: Step) {
    step.Check? || step.Authorize? || step.PostForced? || step.PostOrdinary? || step.Recheck? || step.Fail?
    || step.Crash? || step.Store?
  }

  lemma QuietKeepsLock(s: System, step: Step)
    requires LockInvariant(s) && Enabled(s, step) && Quiet(step)
    ensures LockInvariant(Apply(s, step))
  {
  }

  lemma StepKeepsLock(s: System, step: Step)
    requires Invariant(s) && LockInvariant(s) && Enabled(s, step) && Locks(s, step)
    ensures LockInvariant(Apply(s, step))
  {
    if Quiet(step) {
      QuietKeepsLock(s, step);
    } else {
      match step
      case ClaimRow(checks) => ClaimKeepsLock(s, checks);
      case Queue(i, check, now) => QueueKeepsLock(s, i, check, now);
      case ForceApprove(i, p, cnic, now) => ForceKeepsLock(s, i, p, cnic, now);
      case Approve(i, p) => ApproveKeepsLock(s, i, p);
      case Reserve(k) => ReserveKeepsLock(s, k);
      case Persist(k) => PersistKeepsLock(s, k);
      case Environment(rows, world) => EnvironmentKeepsLock(s, rows, world);
      case SplitClaim(k, _) => assert Without(s.carried, k) == [];
      case Lose(k) => assert Without(s.carried, k) == [];
    }
  }

  lemma {:induction false} LockAfter(s: System, steps: seq<Step>)
    requires Invariant(s) && LockInvariant(s) && Runs(s, steps) && Serial(s, steps)
    ensures Invariant(After(s, steps)) && LockInvariant(After(s, steps))
    decreases |steps|
  {
    if steps != [] {
      StepKeeps(s, steps[0]);
      StepKeepsLock(s, steps[0]);
      LockAfter(Apply(s, steps[0]), steps[1..]);
    }
  }

  lemma SerialInvariant(s: System)
    requires SerialReachable(s)
    ensures Invariant(s) && LockInvariant(s)
  {
    var s0, steps :| Initial(s0) && Runs(s0, steps) && Serial(s0, steps) && After(s0, steps) == s;
    LockAfter(s0, steps);
  }

  /**
   Under the delivery lock a handover never contradicts an earlier POST: whatever may
   have been posted was posted by the current approval and names the CNIC now sent.
   */
  lemma SerialHandoverSendsPostedCnic(s: System, k: nat, forceValid: bool)
    requires SerialReachable(s) && Enabled(s, SplitClaim(k, forceValid)) && Decided(s.rows)
    requires Split(s.rows, s.world, s.carried[k].payload, forceValid).1.ToOrdinary?
    ensures forall i :: Reserved?(s.rows, i) ==>
              i == Current(s.rows).item && s.carried[k].payload.cnic == Current(s.rows).payload.cnic
  {
    SerialInvariant(s);
  }

  lemma HandsOverDirect(r: Rows, w: World, carried: Payload, forceValid: bool)
    requires r.outbox.Some? && Decided(r)
    ensures Split(r, w, carried, forceValid).1.ToOrdinary? ==> Current(r).direct
  {
  }

  /** Nothing is between the claim and the split: the CNIC sent is the CNIC compared, whatever other claims wait. */
  lemma ImmediateSplitSendsComparedCnic(s: System, checks: ClaimCheck, forceValid: bool)
    requires Reachable(s) && Enabled(s, ClaimRow(checks)) && Decided(s.rows)
    requires Claimed(s.rows, s.world, checks).1.Some?
    ensures var (r, payload) := Claimed(s.rows, s.world, checks);
            Split(r, s.world, payload.value, forceValid).1.ToOrdinary? ==>
              forall i :: Reserved?(s.rows, i) ==>
                i == Current(s.rows).item && payload.value.cnic == Current(s.rows).payload.cnic
  {
    ReachableInvariant(s);
    ClaimedLedger(s.rows, s.world, checks);
    ClaimCarriesPosted(s.rows, s.world, checks);
    HandsOverDirect(Claimed(s.rows, s.world, checks).0, s.world, Claimed(s.rows, s.world, checks).1.value, forceValid);
  }

  /** Under the delivery lock the claim being split is always the row's newest one. */
  lemma SerialSplitsNewestClaim(s: System, k: nat)
    requires SerialReachable(s) && k < |s.carried|
    ensures k == 0 && |s.carried| == 1 && s.carried[k].attempt == Attempt(s.rows)
    ensures AllOlder(s.workers, s.carried[k].attempt)
  {
    SerialInvariant(s);
  }

  /** Under the delivery lock nothing waits when a claim's result acknowledges the punch, so it stays acknowledged. */
  lemma SerialAcknowledgedStays(s: System, k: nat, steps: seq<Step>)
    requires SerialReachable(s) && Enabled(s, Persist(k)) && MayPersist(s.rows, s.workers[k].claim)
    requires s.workers[k].phase.verdict == Match
    requires Runs(Apply(s, Persist(k)), steps) && NoEnvironment(steps)
    ensures SettledRow(After(Apply(s, Persist(k)), steps).rows)
    ensures forall i :: 0 <= i < |steps| ==> !steps[i].ClaimRow?
  {
    SerialInvariant(s);
    SerialIsReachable(s);
    AcknowledgesExactlyWhatIsStored(s, k);
    SettledUntilMoved(Apply(s, Persist(k)), steps);
  }

  // ------------------------------------------- a claim that still owns its row

  predicate Owned(r: Rows, c: Carried) {
    InFlightRow(r) && c.attempt == Attempt(r)
  }

  /** Ordinary delivery could own the punch: nothing approved, or released after a direct approval. */
  predicate Releasable(r: Rows) {
    !Decided(r) || (Current(r).direct && !r.event.requiresApproval)
  }

  ghost predicate NamesPunch(r: Rows, c: Carried) {
    c.attempt <= Attempt(r) && (Owned(r, c) && Releasable(r) ==> c.cnic == Some(c.payload.cnic))
  }

  ghost predicate HandoverInvariant(s: System) {
    ReleaseNamesCnic(s.rows) && forall k :: 0 <= k < |s.carried| ==> NamesPunch(s.rows, s.carried[k])
  }

  /** Unless the row newly becomes releasable in flight, what its claims carry stays the punch's CNIC. */
  lemma RowsKeepHandover(s: System, s': System)
    requires HandoverInvariant(s) && s'.carried == s.carried && ReleaseNamesCnic(s'.rows)
    requires Attempt(s.rows) <= Attempt(s'.rows)
    requires InFlightRow(s'.rows) ==>
               InFlightRow(s.rows) && Attempt(s'.rows) == Attempt(s.rows)
                   && (Releasable(s'.rows) ==> Releasable(s.rows))
    ensures HandoverInvariant(s')
  {
    forall k | 0 <= k < |s'.carried| ensures NamesPunch(s'.rows, s'.carried[k]) {
      assert NamesPunch(s.rows, s.carried[k]);
    }
  }

  lemma ClaimNamesPunch(r: Rows, w: World, checks: ClaimCheck)
    requires r.outbox.Some? && ReleaseNamesCnic(r)
    ensures var (r', payload) := Claimed(r, w, checks);
            && ReleaseNamesCnic(r')
            && (payload.Some? && Releasable(r') ==> r.event.cnic == Some(payload.value.cnic))
            && (payload.None? ==> !InFlightRow(r') && Attempt(r') == Attempt(r))
  {
  }

  lemma ClaimKeepsHandover(s: System, checks: ClaimCheck)
    requires Invariant(s) && HandoverInvariant(s) && Enabled(s, ClaimRow(checks))
    ensures HandoverInvariant(Apply(s, ClaimRow(checks)))
  {
    var s' := Apply(s, ClaimRow(checks));
    ClaimNamesPunch(s.rows, s.world, checks);
    if Claimed(s.rows, s.world, checks).1.Some? { ClaimCountsUp(s.rows, s.world, checks); }
    forall k | 0 <= k < |s'.carried| ensures NamesPunch(s'.rows, s'.carried[k]) {
      if k < |s.carried| {
        assert NamesPunch(s.rows, s.carried[k]);
      }
    }
  }

  lemma SplitKeepsHandover(s: System, k: nat, forceValid: bool)
    requires Invariant(s) && HandoverInvariant(s) && Enabled(s, SplitClaim(k, forceValid))
    ensures HandoverInvariant(Apply(s, SplitClaim(k, forceValid)))
  {
    var rows := Split(s.rows, s.world, s.carried[k].payload, forceValid).0;
    RowsKeepHandover(s, s.(rows := rows));
  }

  lemma EnvironmentKeepsHandover(s: System, rows: Rows, world: World)
    requires Invariant(s) && HandoverInvariant(s) && Enabled(s, Environment(rows, world))
    ensures HandoverInvariant(Apply(s, Environment(rows, world)))
  {
    RowsKeepHandover(s, Apply(s, Environment(rows, world)));
  }

  lemma QueueKeepsHandover(s: System, i: nat, check: QueueCheck, now: int)
    requires HandoverInvariant(s) && Enabled(s, Queue(i, check, now))
    ensures HandoverInvariant(Apply(s, Queue(i, check, now)))
  {
    RowsKeepHandover(s, Apply(s, Queue(i, check, now)));
  }

  lemma ForceKeepsHandover(s: System, i: nat, p: Payload, cnic: string, now: int)
    requires HandoverInvariant(s) && Enabled(s, ForceApprove(i, p, cnic, now))
    ensures HandoverInvariant(Apply(s, ForceApprove(i, p, cnic, now)))
  {
    RowsKeepHandover(s, Apply(s, ForceApprove(i, p, cnic, now)));
  }

  lemma ReserveKeepsHandover(s: System, k: nat)
    requires HandoverInvariant(s) && Enabled(s, Reserve(k))
    ensures HandoverInvariant(Apply(s, Reserve(k)))
  {
    RowsKeepHandover(s, Apply(s, Reserve(k)));
  }

  lemma PersistKeepsHandover(s: System, k: nat)
    requires HandoverInvariant(s) && Enabled(s, Persist(k))
    ensures HandoverInvariant(Apply(s, Persist(k)))
  {
    RowsKeepHandover(s, Apply(s, Persist(k)));
  }

  lemma StepKeepsHandover(s: System, step: Step)
    requires Invariant(s) && HandoverInvariant(s) && Enabled(s, step)
    ensures HandoverInvariant(Apply(s, step))
  {
    if !Quiet(step) {
      match step
      case ClaimRow(checks) => ClaimKeepsHandover(s, checks);
      case SplitClaim(k, forceValid) => SplitKeepsHandover(s, k, forceValid);
      case Environment(rows, world) => EnvironmentKeepsHandover(s, rows, world);
      case Queue(i, check, now) => QueueKeepsHandover(s, i, check, now);
      case ForceApprove(i, p, cnic, now) => ForceKeepsHandover(s, i, p, cnic, now);
      case Reserve(k) => ReserveKeepsHandover(s, k);
      case Persist(k) => PersistKeepsHandover(s, k);
      case Approve(_, _) => RowsKeepHandover(s, Apply(s, step));
      case Lose(_) =>
    }
  }

  lemma {:induction false} HandoverAfter(s: System, steps: seq<Step>)
    requires Invariant(s) && HandoverInvariant(s) && Runs(s, steps)
    ensures HandoverInvariant(After(s, steps))
    decreases |steps|
  {
    if steps != [] {
      StepKeeps(s, steps[0]);
      StepKeepsHandover(s, steps[0]);
      HandoverAfter(Apply(s, steps[0]), steps[1..]);
    }
  }

  /**
   Whatever a claim that still owns its row hands to ordinary delivery, an approval's
   frozen payload included, names the CNIC the punch carried when it was claimed.
   */
  lemma OwnedHandoverSendsPunchCnic(s: System, k: nat, forceValid: bool)
    requires Reachable(s) && Enabled(s, SplitClaim(k, forceValid)) && Owned(s.rows, s.carried[k])
    requires Split(s.rows, s.world, s.carried[k].payload, forceValid).1.ToOrdinary?
    ensures s.carried[k].cnic == Some(s.carried[k].payload.cnic)
  {
    var s0, steps :| Initial(s0) && Runs(s0, steps) && After(s0, steps) == s;
    HandoverAfter(s0, steps);
    assert NamesPunch(s.rows, s.carried[k]);
  }
}
