/**
 What the direct delivery protocol guarantees in every reachable state, and the two
 places where the gap between `claim_ords_batch` and `split_claims` decides whether
 a guarantee holds.
 */
module DeliveryTheorems {
  import opened Options
  import opened DeliveryRows
  import opened DeliveryProtocol

  ghost predicate Reachable(s: System) {
    exists s0, steps :: Initial(s0) && Runs(s0, steps) && After(s0, steps) == s
  }

  lemma {:induction false} OneMoreStep(s: System, steps: seq<Step>, step: Step)
    requires Runs(s, steps) && Enabled(After(s, steps), step)
    ensures Runs(s, steps + [step]) && After(s, steps + [step]) == Apply(After(s, steps), step)
    decreases |steps|
  {
    if steps == [] {
      assert (steps + [step])[1..] == [];
      assert Runs(Apply(s, step), []);
    } else {
      assert (steps + [step])[1..] == steps[1..] + [step];
      OneMoreStep(Apply(s, steps[0]), steps[1..], step);
    }
  }

  lemma ReachableStep(s: System, step: Step)
    requires Reachable(s) && Enabled(s, step)
    ensures Reachable(Apply(s, step))
  {
    var s0, steps :| Initial(s0) && Runs(s0, steps) && After(s0, steps) == s;
    OneMoreStep(s0, steps, step);
  }

  lemma InitialReachable(s: System)
    requires Initial(s)
    ensures Reachable(s)
  {
    assert Runs(s, []) && After(s, []) == s;
  }

  lemma ReachableInvariant(s: System)
    requires Reachable(s)
    ensures Invariant(s)
  {
    var s0, steps :| Initial(s0) && Runs(s0, steps) && After(s0, steps) == s;
    InvariantAfter(s0, steps);
  }

  /** At most one direct approval of a punch ever saves a send intent. */
  lemma AtMostOneApprovalReserves(s: System, a: nat, b: nat)
    requires Reachable(s)
    requires Reserved?(s.rows, a) && Reserved?(s.rows, b)
    ensures a == b
  {
    ReachableInvariant(s);
    assert IsDirect(s.rows, a) && IsDirect(s.rows, b);
    var i :| 0 <= i < |s.rows.decisions| && s.rows.decisions[i].item == a && s.rows.decisions[i].direct;
    var j :| 0 <= j < |s.rows.decisions| && s.rows.decisions[j].item == b && s.rows.decisions[j].direct;
  }

  lemma FrozenPayloadUnique(r: Rows, item: nat, p: Payload, q: Payload)
    requires DecisionsSound(r) && Frozen(r, item, p) && Frozen(r, item, q)
    ensures p == q
  {
    var i :| 0 <= i < |r.decisions| && Grants(r.decisions[i], item, true, p);
    var j :| 0 <= j < |r.decisions| && Grants(r.decisions[j], item, true, q);
  }

  /** The approval a POST's payload was frozen under. */
  function Origin(p: Post): Option<nat> {
    match p.lane
    case DirectLane(i) => Some(i)
    case OrdinaryLane(origin) => origin
    case ForceLane => None
  }

  /** Send intent is durable before every POST of the forced lane; all its direct POSTs are one payload. */
  lemma ForcedDirectPostsAgree(s: System, p: Post, q: Post)
    requires Reachable(s)
    requires p in s.net && q in s.net && p.lane.DirectLane? && q.lane.DirectLane?
    ensures p == q && Reserved?(s.rows, p.lane.item) && Frozen(s.rows, p.lane.item, p.payload)
  {
    ReachableInvariant(s);
    AtMostOneApprovalReserves(s, p.lane.item, q.lane.item);
    FrozenPayloadUnique(s.rows, p.lane.item, p.payload, q.payload);
  }

  /** ACKED_CHECK by the forced check is written only when Oracle stores the current approval's frozen payload. */
  lemma CertifiedMeansStored(s: System)
    requires Reachable(s) && Certified(s.rows)
    ensures Decided(s.rows) && s.oracle == Some(Current(s.rows).payload)
    ensures exists p :: p in s.net && p.payload == Current(s.rows).payload
  {
    ReachableInvariant(s);
  }

  // ---------------------------------------------------------------- fencing

  lemma StepExtends(s: System, step: Step)
    requires Invariant(s) && Enabled(s, step)
    ensures Extends(s.rows, Apply(s, step).rows)
  {
    match step
    case Queue(i, check, now) => QueuedLedger(s.rows, s.world, i, check, now);
    case ClaimRow(checks) => ClaimedLedger(s.rows, s.world, checks);
    case SplitClaim(k, forceValid) => SplitLedger(s.rows, s.world, s.carried[k].payload, forceValid);
    case Persist(k) => PersistLedger(s.rows, s.workers[k].claim, s.workers[k].phase.verdict);
    case Reserve(k) => ReservingExtends(s, k);
    case ForceApprove(i, p, cnic, now) => ForceApprovingExtends(s, i, p, cnic, now);
    case Approve(_, _) =>
    case Environment(_, _) =>
    case PostForced(_) =>
    case PostOrdinary(_) =>
    case Store(_) =>
    case Check(_, _) =>
    case Authorize(_, _) =>
    case Recheck(_, _, _) =>
    case Fail(_) =>
    case Crash(_) =>
    case Lose(_) =>
  }

  lemma ReservingExtends(s: System, k: nat)
    requires Invariant(s) && Enabled(s, Reserve(k))
    ensures Extends(s.rows, Apply(s, Reserve(k)).rows)
  {
    assert WorkerSound(s.rows, s.oracle, s.workers[k]);
    ReservedLedger(s.rows, s.workers[k].claim, s.workers[k].phase.verdict);
  }

  lemma ForceApprovingExtends(s: System, i: nat, p: Payload, cnic: string, now: int)
    requires Invariant(s) && Enabled(s, ForceApprove(i, p, cnic, now))
    ensures Extends(s.rows, Apply(s, ForceApprove(i, p, cnic, now)).rows)
  {
  }

  lemma {:induction false} AttemptsOnlyGrow(s: System, steps: seq<Step>)
    requires Invariant(s) && Runs(s, steps)
    ensures Attempt(s.rows) <= Attempt(After(s, steps).rows)
    decreases |steps|
  {
    if steps != [] {
      StepExtends(s, steps[0]);
      StepKeeps(s, steps[0]);
      AttemptsOnlyGrow(Apply(s, steps[0]), steps[1..]);
    }
  }

  /**
   Once the row is claimed again, no forced claim that was already split can change a
   row, save a send intent or pass its authorization, whatever happens in between.
   */
  lemma NewClaimFencesOlder(
      s: System, checks: ClaimCheck, steps: seq<Step>, k: nat, verdict: Verdict, w: World, forceValid: bool)
    requires Reachable(s) && Enabled(s, ClaimRow(checks)) && k < |s.workers|
    requires Claimed(s.rows, s.world, checks).1.Some?
    requires Runs(Apply(s, ClaimRow(checks)), steps)
    ensures var r := After(Apply(s, ClaimRow(checks)), steps).rows;
            var older := s.workers[k].claim;
            && Persisted(r, older, verdict) == r
            && ReservedRows(r, older, verdict) == r
            && !StillAuthorized(r, w, older, forceValid)
            && !MayReserve(r, older, verdict)
  {
    ReachableInvariant(s);
    StepKeeps(s, ClaimRow(checks));
    AttemptsOnlyGrow(Apply(s, ClaimRow(checks)), steps);
    assert WorkerSound(s.rows, s.oracle, s.workers[k]);
    ClaimCountsUp(s.rows, s.world, checks);
    OlderIsFenced(After(Apply(s, ClaimRow(checks)), steps).rows, s.workers[k].claim, verdict, w, forceValid);
  }

  lemma ClaimCountsUp(r: Rows, w: World, checks: ClaimCheck)
    requires r.outbox.Some? && Claimed(r, w, checks).1.Some?
    ensures Attempt(Claimed(r, w, checks).0) > Attempt(r)
  {
  }

  /**
   A claim takes the row's attempt number at its split, not at its claim: split while
   the row is in flight it owns the row, whichever claim put it there. What it may
   send or write is then the current approval's own payload.
   */
  lemma SplitJoinsCurrentClaim(s: System, k: nat, forceValid: bool)
    requires Reachable(s) && Enabled(s, SplitClaim(k, forceValid))
    requires Split(s.rows, s.world, s.carried[k].payload, forceValid).1.ToForced?
    ensures var c := Split(s.rows, s.world, s.carried[k].payload, forceValid).1.claim;
            && Apply(s, SplitClaim(k, forceValid)).workers == s.workers + [Worker(c, Fresh)]
            && Decided(s.rows) && c.payload == Current(s.rows).payload == s.carried[k].payload
            && c.attempt == Attempt(s.rows)
            && (Current(s.rows).direct ==> Approved(s.rows, s.world, Current(s.rows)) == Some(c.payload))
            && (MayPersist(s.rows, c) <==> InFlightRow(s.rows))
            && (StillAuthorized(s.rows, s.world, c, forceValid) <==> InFlightRow(s.rows))
  {
    ReachableInvariant(s);
    assert s.rows.decisions[|s.rows.decisions| - 1] == Current(s.rows);
  }

  /** A claim of an earlier attempt changes nothing. */
  lemma OlderIsFenced(r: Rows, older: Claim, verdict: Verdict, w: World, forceValid: bool)
    requires older.attempt < Attempt(r)
    ensures Persisted(r, older, verdict) == r && ReservedRows(r, older, verdict) == r
    ensures !StillAuthorized(r, w, older, forceValid) && !MayReserve(r, older, verdict)
  {
  }

  /** The status each result gives the punch. */
  predicate ResultStatus(v: Verdict, status: Status) {
    match status
    case AckedCheck => v == Match
    case FailedRetryable => v == Missing || v == Unknown
    case QuarantinedRejected => v == Rejected
    case QuarantinedConflict => v == Mismatch || v == ImmutableMismatch || v == Collision || v == Changed
    case _ => false
  }

  /** Nothing of the punch but its status, its confirmation and the claim's own item changes. */
  predicate OnlySettles(r: Rows, r': Rows, item: nat) {
    && r'.event.(status := r.event.status, confirmed := r.event.confirmed, path := r.event.path) == r.event
    && r'.decisions == r.decisions && Attempt(r') == Attempt(r)
    && r'.items.Keys == r.items.Keys
    && (forall i :: i in r.items && i != item ==> r'.items[i] == r.items[i])
    && (item in r.items ==>
          r'.items[item].(status := r.items[item].status, verified := r.items[item].verified) == r.items[item])
  }

  /**
   What the newest claim's result does to its punch: the outbox row always ends where the event does, only a content
   match acknowledges and confirms it, only an unanswered or empty check retries it, and every contradiction ends the
   approval for review.
   */
  lemma ResultDecidesRow(r: Rows, c: Claim, v: Verdict)
    requires MayPersist(r, c)
    ensures var r' := Persisted(r, c, v);
            && ResultStatus(v, r'.event.status)
            && r'.outbox == Some(Outbox(r'.event.status, Attempt(r), false))
            && OnlySettles(r, r', c.item)
            && (if v == Match then
                  r'.event.confirmed && r'.event.path == ForceContentCheck
                  && r'.items[c.item].status == Confirmed && r'.items[c.item].verified == Some(c.payload)
                else
                  r'.event.confirmed == r.event.confirmed && r'.event.path == r.event.path
                  && r'.items[c.item].verified == r.items[c.item].verified
                  && r'.items[c.item].status == (if v == Missing || v == Unknown then r.items[c.item].status
                                                 else NeedsReview))
  {
  }

  /** A punch the forced check acknowledged: its event, its outbox row and its confirmation agree. */
  predicate SettledRow(r: Rows) {
    Certified(r) && r.event.confirmed && r.outbox.Some? && r.outbox.value.status == AckedCheck
  }

  /**
   In every reachable state the newest claim acknowledges its punch exactly when its check found a match, and Oracle
   then stores the approval's payload and the approval's item says so; the outbox row ends where the event does; a
   claim the row has moved on from changes nothing.
   */
  lemma AcknowledgesExactlyWhatIsStored(s: System, k: nat)
    requires Reachable(s) && Enabled(s, Persist(k))
    ensures var c, v, r' := s.workers[k].claim, s.workers[k].phase.verdict, Apply(s, Persist(k)).rows;
            if MayPersist(s.rows, c) then
              && ResultStatus(v, r'.event.status)
              && r'.outbox == Some(Outbox(r'.event.status, Attempt(s.rows), false))
              && OnlySettles(s.rows, r', c.item)
              && (SettledRow(r') <==> v == Match)
              && (v == Match ==> s.oracle == Some(Current(s.rows).payload) && c.item == Current(s.rows).item
                                 && r'.items[c.item].status == Confirmed
                                 && r'.items[c.item].verified == Some(Current(s.rows).payload))
            else r' == s.rows
  {
    ReachableInvariant(s);
    assert WorkerSound(s.rows, s.oracle, s.workers[k]);
    if MayPersist(s.rows, s.workers[k].claim) {
      ResultDecidesRow(s.rows, s.workers[k].claim, s.workers[k].phase.verdict);
    }
  }

  /** No step but the environment's, and the split of a claim made before, moves an acknowledged punch. */
  lemma SettledStays(s: System, step: Step)
    requires SettledRow(s.rows) && s.carried == [] && Enabled(s, step) && !step.Environment?
    ensures !step.ClaimRow? && SettledRow(Apply(s, step).rows) && Apply(s, step).carried == []
  {
  }

  predicate NoEnvironment(steps: seq<Step>) {
    forall i :: 0 <= i < |steps| ==> !steps[i].Environment?
  }

  /** An acknowledged punch with no claim waiting is never claimed again until something else moves its rows. */
  lemma {:induction false} SettledUntilMoved(s: System, steps: seq<Step>)
    requires SettledRow(s.rows) && s.carried == [] && Runs(s, steps) && NoEnvironment(steps)
    ensures SettledRow(After(s, steps).rows) && forall i :: 0 <= i < |steps| ==> !steps[i].ClaimRow?
    ensures forall checks :: !Enabled(After(s, steps), ClaimRow(checks))
    decreases |steps|
  {
    if steps != [] {
      SettledStays(s, steps[0]);
      SettledUntilMoved(Apply(s, steps[0]), steps[1..]);
    }
  }

  // ------------------------------------------- handing a punch to ordinary delivery

  /**
   Whenever `split_claims` hands a punch with a direct approval to ordinary delivery:
   either no approval of the punch ever saved a send intent, or the only one that did
   is the current one and carries the CNIC the punch's own release now names. The CNIC
   actually sent was read at the claim, so it equals the posted one exactly when it
   still is the punch's CNIC.
   */
  lemma HandoverIsSafeExactly(s: System, k: nat, forceValid: bool)
    requires Reachable(s) && Enabled(s, SplitClaim(k, forceValid)) && Decided(s.rows)
    requires Split(s.rows, s.world, s.carried[k].payload, forceValid).1.ToOrdinary?
    ensures Current(s.rows).direct
    ensures (forall i :: !Reserved?(s.rows, i)) ||
            (Reserved?(s.rows, Current(s.rows).item)
             && (forall i :: Reserved?(s.rows, i) ==> i == Current(s.rows).item)
             && s.rows.event.cnic == Some(Current(s.rows).payload.cnic)
             && (s.carried[k].payload.cnic == Current(s.rows).payload.cnic
                 <==> s.rows.event.cnic == Some(s.carried[k].payload.cnic)))
  {
    ReachableInvariant(s);
    var d := Current(s.rows);
    assert s.rows.decisions[|s.rows.decisions| - 1] == d;
    forall i | Reserved?(s.rows, i) ensures i == d.item {
      assert IsDirect(s.rows, i);
    }
  }

  // ------------------------------------- a direct payload that changes lanes

  /** Every direct payload waiting in the ordinary lane, or posted, has its saved send intent. */
  ghost predicate IntentAhead(s: System) {
    && (forall k :: 0 <= k < |s.ordinary| && s.ordinary[k].origin.Some? ==>
        Reserved?(s.rows, s.ordinary[k].origin.value))
    && (forall p :: p in s.net && Origin(p).Some? ==> Reserved?(s.rows, Origin(p).value))
  }

  /** The split takes over a claim that carries a direct approval's payload with no saved send intent. */
  predicate LaneSwitch(s: System, step: Step) {
    step.SplitClaim? && step.k < |s.carried| && s.carried[step.k].origin.Some?
    && AutomaticTakeover(s.rows, s.world) == TakenOver
    && !Reserved?(s.rows, s.carried[step.k].origin.value)
  }

  /** Only a direct approval fills `origin`, and its decision is never removed. */
  lemma CarriedMeansDecided(s: System, k: nat)
    requires Invariant(s) && k < |s.carried| && s.carried[k].origin.Some?
    ensures Decided(s.rows)
  {
    assert CarriedSound(s.rows, s.carried[k]);
  }

  lemma SplitIntentExactly(s: System, k: nat, forceValid: bool)
    requires Invariant(s) && Enabled(s, SplitClaim(k, forceValid)) && IntentAhead(s)
    ensures IntentAhead(Apply(s, SplitClaim(k, forceValid))) <==> !LaneSwitch(s, SplitClaim(k, forceValid))
  {
    var s' := Apply(s, SplitClaim(k, forceValid));
    StepExtends(s, SplitClaim(k, forceValid));
    if s.carried[k].origin.Some? { CarriedMeansDecided(s, k); }
    if LaneSwitch(s, SplitClaim(k, forceValid)) {
      assert s'.ordinary[|s.ordinary|] == s.carried[k];
    }
  }

  /** A step keeps "intent before every direct POST" exactly when it is not a lane switch. */
  lemma IntentAheadExactly(s: System, step: Step)
    requires Invariant(s) && Enabled(s, step) && IntentAhead(s)
    ensures IntentAhead(Apply(s, step)) <==> !LaneSwitch(s, step)
  {
    var s' := Apply(s, step);
    if step.SplitClaim? {
      SplitIntentExactly(s, step.k, step.forceValid);
    } else {
      StepExtends(s, step);
      if step.PostOrdinary? {
        forall p | p in s'.net && Origin(p).Some? ensures Reserved?(s'.rows, Origin(p).value) {}
      } else if step.PostForced? {
        assert WorkerSound(s.rows, s.oracle, s.workers[step.k]);
      }
    }
  }

  ghost predicate NeverSwitches(s: System, steps: seq<Step>)
    requires Runs(s, steps)
    decreases |steps|
  {
    steps == [] || (!LaneSwitch(s, steps[0]) && NeverSwitches(Apply(s, steps[0]), steps[1..]))
  }

  lemma {:induction false} IntentAheadAfter(s: System, steps: seq<Step>)
    requires Invariant(s) && IntentAhead(s) && Runs(s, steps) && NeverSwitches(s, steps)
    ensures IntentAhead(After(s, steps))
    decreases |steps|
  {
    if steps != [] {
      IntentAheadExactly(s, steps[0]);
      StepKeeps(s, steps[0]);
      IntentAheadAfter(Apply(s, steps[0]), steps[1..]);
    }
  }

  /** Without a lane switch Oracle is never sent two different direct payloads for the punch, by any lane. */
  lemma OneDirectPayloadUnlessSwitched(s0: System, steps: seq<Step>, p: Post, q: Post)
    requires Initial(s0) && Runs(s0, steps) && NeverSwitches(s0, steps)
    requires p in After(s0, steps).net && q in After(s0, steps).net && Origin(p).Some? && Origin(q).Some?
    ensures p.payload == q.payload && Origin(p) == Origin(q)
  {
    var s := After(s0, steps);
    assert Reachable(s);
    InvariantAfter(s0, steps);
    IntentAheadAfter(s0, steps);
    AtMostOneApprovalReserves(s, Origin(p).value, Origin(q).value);
    assert PostSound(s.rows, p) && PostSound(s.rows, q);
    FrozenPayloadUnique(s.rows, Origin(p).value, p.payload, q.payload);
  }
}
