/**
 What queueing, claiming and splitting decide, case by case, and that no valid approval is ever stuck: from wherever
 it waits there is a run of the protocol that stores its payload in Oracle and acknowledges the punch.
 */
module DeliveryOutcomes {
  import opened Options
  import opened DeliveryRows
  import opened DeliveryProtocol
  import opened DeliveryTheorems

  // ---------------------------------------------------------------------- queueing

  /** The punch's CNIC is the approved one, the payload names it, and ADD re-derived both. */
  predicate StandsAsApproved(r: Rows, i: nat, check: QueueCheck)
    requires i in r.items
  {
    check == Sound && r.event.cnic == r.items[i].source
    && (r.items[i].source.Some? ==> r.items[i].payload.cnic == r.items[i].source.value)
  }

  /** A direct approval that stopped or no longer validates, with nothing in flight, confirmed, released or posted. */
  predicate Replaceable(r: Rows, w: World)
    requires Decided(r)
  {
    var d := Current(r);
    var held := r.event.status == BlockedIdentity || r.event.status == WaitingForSnapshot;
    && d.direct && !r.event.confirmed && !InFlightRow(r)
    && (held || r.event.status in {Pending, FailedRetryable, Retrying})
    && d.item in r.items && r.items[d.item].attempts == 0
    && ((held && r.items[d.item].status == NeedsReview)
        || r.event.cnic != d.source || (d.source.Some? && d.payload.cnic != d.source.value) || d.item !in w.valid)
    && (r.event.requiresApproval || r.event.resolvedAt.None? || r.event.resolvedAt.value <= d.createdAt)
  }

  lemma ReplaceableExactly(r: Rows, w: World)
    requires Decided(r)
    ensures ReplacementBlock(r, w).None? <==> Replaceable(r, w)
    ensures ReplacementBlock(r, w) == Some(TakeoverUncertain) <==>
              Current(r).direct && r.event.status == QuarantinedConflict && r.outbox.Some? && r.outbox.value.uncertain
    ensures ReplacementBlock(r, w) == Some(PreviousPostUncertain) ==>
              Current(r).item !in r.items || r.items[Current(r).item].attempts > 0
  {
  }

  /** What became of a READY item: queued, waiting for the claim in flight, for review, or skipped. */
  ghost predicate QueueSays(r: Rows, w: World, i: nat, check: QueueCheck, now: int, r': Rows)
    requires i in r.items
  {
    var free := r.event.cnic == r.items[i].source && check != SourceChanged
                && !(r.event.confirmed && (r.event.status == Acked || r.event.status == AckedCheck))
                && (Decided(r) ==> Replaceable(r, w));
    if free && !InFlightRow(r) && StandsAsApproved(r, i, check) then
      && r'.decisions == r.decisions + [Decision(i, true, r.items[i].payload, r.items[i].source, now)]
      && r'.items == r.items[i := r.items[i].(status := WaitingOracle)]
      && r'.event == r.event.(status := Pending, requiresApproval := true)
      && r'.outbox.Some? && r'.outbox.value.status == Pending && !r'.outbox.value.uncertain
      && r'.outbox.value.attempt == if r.outbox.Some? then r.outbox.value.attempt else 0
    else if free && InFlightRow(r) then r' == r
    else if free && check == Unreadable then r' == r.(items := r.items[i := r.items[i].(status := NeedsReview)])
    else r' == r.(items := r.items[i := r.items[i].(status := Skipped)])
  }

  /** An item is queued if and only if it stands as approved and may replace whatever was approved before it. */
  lemma QueueDecides(r: Rows, w: World, i: nat, check: QueueCheck, now: int)
    requires i in r.items
    ensures QueueSays(r, w, i, check, now, Queued(r, w, i, check, now))
  {
    if Decided(r) {
      ReplaceableExactly(r, w);
    }
  }

  // ---------------------------------------------------------------------- claiming

  /** The punch was released by ADD's own proof after its current approval, which no longer validates. */
  predicate ReleasedSince(r: Rows, w: World)
    requires Decided(r)
  {
    var d := Current(r);
    d.direct && !r.event.requiresApproval && r.event.resolvedAt.Some? && r.event.resolvedAt.value > d.createdAt
    && !Stands(r, w, d)
  }

  predicate Stands(r: Rows, w: World, d: Decision) {
    r.event.cnic == d.source && d.item in w.valid && (d.source.Some? ==> d.payload.cnic == d.source.value)
  }

  /** Nothing was posted, or what was posted names the released CNIC. */
  predicate PostedFits(r: Rows)
    requires Decided(r)
  {
    var d := Current(r);
    (d.item in r.items && r.items[d.item].attempts == 0) || (r.event.cnic == Some(d.payload.cnic) && r.event.hashAgrees)
  }

  /** Ordinary delivery owns the punch: it has no approval, or was released since and nothing else was posted. */
  predicate Ordinary(r: Rows, w: World) {
    Decided(r) ==> ReleasedSince(r, w) && PostedFits(r)
  }

  lemma OrdinaryExactly(r: Rows, w: World)
    ensures Ordinary(r, w) <==> !Decided(r) || AutomaticTakeover(r, w) == TakenOver
    ensures Decided(r) ==> (AutomaticTakeover(r, w) == PostUncertain <==> ReleasedSince(r, w) && !PostedFits(r))
  {
  }

  predicate HeldWith(r: Rows, r': Rows, status: Status, uncertain: bool)
    requires r.outbox.Some?
  {
    r'.event == r.event.(status := status) && r'.decisions == r.decisions
    && r'.outbox == Some(Outbox(status, r.outbox.value.attempt, uncertain))
  }

  /** The claim carries this payload away, and the row is in flight under the next attempt number. */
  predicate Starts(r: Rows, out: (Rows, Option<Payload>), p: Payload)
    requires r.outbox.Some?
  {
    out.1 == Some(p) && out.0 == r.(outbox := Some(Outbox(InFlight, r.outbox.value.attempt + 1, false)))
  }

  predicate Holds(r: Rows, out: (Rows, Option<Payload>), status: Status)
    requires r.outbox.Some?
  {
    out.1.None? && out.0.items == r.items && HeldWith(r, out.0, status, false)
  }

  /** Whatever else was posted under an approval a release overtook, a person must look at it. */
  predicate LeftForReview(r: Rows, out: (Rows, Option<Payload>))
    requires r.outbox.Some? && Decided(r)
  {
    var i := Current(r).item;
    out.1.None? && HeldWith(r, out.0, QuarantinedConflict, true)
    && out.0.items == if i in r.items then r.items[i := r.items[i].(status := NeedsReview)] else r.items
  }

  ghost predicate ClaimSays(r: Rows, w: World, k: ClaimCheck, out: (Rows, Option<Payload>))
    requires r.outbox.Some?
  {
    if Ordinary(r, w) then
      if r.event.cnic.Some? && k.ordinary.Some? then Starts(r, out, Payload(r.event.cnic.value, k.ordinary.value))
      else Holds(r, out, BlockedIdentity)
    else if !Current(r).direct then
      if r.event.cnic.Some? && k.ordinary.Some? && k.forceValid then Starts(r, out, Current(r).payload)
      else Holds(r, out, BlockedIdentity)
    else if k.timeRefused then Holds(r, out, QuarantinedTime)
    else if ReleasedSince(r, w) then LeftForReview(r, out)
    else if Stands(r, w, Current(r)) then Starts(r, out, Current(r).payload)
    else Holds(r, out, BlockedIdentity)
  }

  /** A claim sends exactly the payload of whoever owns the punch, or holds it for exactly one reason. */
  lemma ClaimDecides(r: Rows, w: World, k: ClaimCheck)
    requires r.outbox.Some?
    ensures ClaimSays(r, w, k, Claimed(r, w, k))
  {
    OrdinaryExactly(r, w);
  }

  // --------------------------------------------------------------------- splitting

  ghost predicate SplitSays(r: Rows, w: World, carried: Payload, forceValid: bool, out: (Rows, Handover))
    requires r.outbox.Some?
  {
    if Ordinary(r, w) then out == (r, ToOrdinary(carried))
    else
      var d := Current(r);
      if d.payload == carried && (if d.direct then Stands(r, w, d) else forceValid) then
        out == (r, ToForced(Claim(r.outbox.value.attempt, d.item, d.direct, carried)))
      else out.1 == Blocked && out.0.items == r.items && HeldWith(r, out.0, BlockedIdentity, false)
  }

  /** A claim is handed on unchanged to the lane that owns the punch now, or the punch is held. */
  lemma SplitDecides(r: Rows, w: World, carried: Payload, forceValid: bool)
    requires r.outbox.Some?
    ensures SplitSays(r, w, carried, forceValid, Split(r, w, carried, forceValid))
  {
    OrdinaryExactly(r, w);
  }

  // ------------------------------------------------------------------ before a POST

  /** A claim may send while it owns the row and its payload is still the validated one of the current approval. */
  lemma AuthorizesExactly(r: Rows, w: World, c: Claim, forceValid: bool)
    ensures StillAuthorized(r, w, c, forceValid) <==>
              && r.outbox.Some? && r.outbox.value.status == InFlight && r.outbox.value.attempt == c.attempt
              && Decided(r) && Current(r).item == c.item && Current(r).payload == c.payload
              && if Current(r).direct then Stands(r, w, Current(r)) else forceValid
  {
  }

  /** A send intent is counted for the owner of the row: the first one freely, any other on a MISSING check. */
  lemma ReservesExactly(r: Rows, c: Claim, v: Verdict)
    ensures var r' := ReservedRows(r, c, v);
            && r'.event == r.event && r'.outbox == r.outbox && r'.decisions == r.decisions
            && r'.items == if OwnsRow(r, c) && Decided(r) && Current(r).item == c.item && c.item in r.items
                              && (v == Missing || r.items[c.item].attempts == 0)
                           then r.items[c.item := r.items[c.item].(attempts := r.items[c.item].attempts + 1)]
                           else r.items
  {
  }

  /** A result is applied only for the row's owner, its current approval and exactly the payload that one froze. */
  lemma AppliesOnlyCurrent(r: Rows, c: Claim, v: Verdict)
    requires Persisted(r, c, v) != r
    ensures OwnsRow(r, c) && Decided(r) && Current(r).item == c.item && Current(r).payload == c.payload
  {
  }

  // ------------------------------------------------------------- no approval is stuck

  ghost predicate LeadsTo(s: System, t: System) {
    exists steps :: Runs(s, steps) && NoEnvironment(steps) && After(s, steps) == t
  }

  lemma LeadsHere(s: System)
    ensures LeadsTo(s, s)
  {
    assert Runs(s, []) && NoEnvironment([]) && After(s, []) == s;
  }

  lemma LeadsOn(s: System, t: System, step: Step)
    requires LeadsTo(s, t) && Enabled(t, step) && !step.Environment?
    ensures LeadsTo(s, Apply(t, step))
  {
    var steps :| Runs(s, steps) && NoEnvironment(steps) && After(s, steps) == t;
    OneMoreStep(s, steps, step);
  }

  /** A validated direct approval waits for its claim, and Oracle holds nothing else for the punch. */
  ghost predicate WaitsForClaim(s: System) {
    && Decided(s.rows) && Current(s.rows).direct && Current(s.rows).item in s.rows.items
    && Stands(s.rows, s.world, Current(s.rows))
    && s.rows.outbox.Some? && s.rows.outbox.value.status in {Pending, FailedRetryable}
    && (s.oracle.None? || s.oracle == Some(Current(s.rows).payload))
  }

  /** The worker at k holds the newest claim of the punch's current, validated direct approval. */
  ghost predicate Working(s: System, k: nat, phase: Phase) {
    && k < |s.workers| && s.workers[k].phase == phase
    && Decided(s.rows) && Current(s.rows).direct && Current(s.rows).item in s.rows.items
    && Stands(s.rows, s.world, Current(s.rows)) && InFlightRow(s.rows)
    && s.workers[k].claim == Claim(s.rows.outbox.value.attempt, Current(s.rows).item, true, Current(s.rows).payload)
  }

  lemma ClaimedAndSplit(s: System) returns (t: System, k: nat)
    requires WaitsForClaim(s)
    ensures LeadsTo(s, t) && Working(t, k, Fresh) && t.oracle == s.oracle && Current(t.rows) == Current(s.rows)
  {
    LeadsHere(s);
    var claim := ClaimRow(ClaimCheck(false, None, false));
    var a := Apply(s, claim);
    LeadsOn(s, s, claim);
    ClaimDecides(s.rows, s.world, claim.checks);
    var n := |s.carried|;
    SplitDecides(a.rows, a.world, a.carried[n].payload, false);
    t, k := Apply(a, SplitClaim(n, false)), |s.workers|;
    LeadsOn(s, a, SplitClaim(n, false));
  }

  lemma CheckedAndReserved(s: System, k: nat) returns (t: System)
    requires Working(s, k, Fresh) && s.oracle.None?
    ensures LeadsTo(s, t) && Working(t, k, Reserved) && t.oracle.None? && Current(t.rows) == Current(s.rows)
  {
    LeadsHere(s);
    var a := Apply(s, Check(k, Missing));
    LeadsOn(s, s, Check(k, Missing));
    assert Working(a, k, Checked(Missing));
    AuthorizesExactly(a.rows, a.world, a.workers[k].claim, false);
    var b := Apply(a, Authorize(k, false));
    LeadsOn(s, a, Authorize(k, false));
    assert Working(b, k, Authorized(Missing));
    t := Apply(b, Reserve(k));
    LeadsOn(s, b, Reserve(k));
  }

  lemma PostedAndStored(s: System, k: nat) returns (t: System)
    requires Working(s, k, Reserved) && s.oracle.None?
    ensures LeadsTo(s, t) && Working(t, k, Final(Match)) && Current(t.rows) == Current(s.rows)
    ensures t.oracle == Some(Current(s.rows).payload)
  {
    LeadsHere(s);
    var a := Apply(s, PostForced(k));
    LeadsOn(s, s, PostForced(k));
    var post := Post(LaneOf(s.workers[k].claim), s.workers[k].claim.payload);
    var b := Apply(a, Store(post));
    LeadsOn(s, a, Store(post));
    t := Apply(b, Recheck(k, Match, false));
    LeadsOn(s, b, Recheck(k, Match, false));
  }

  /** The punch is acknowledged, its approval confirmed with the payload it froze, and Oracle stores that payload. */
  ghost predicate Delivered(t: System, d: Decision) {
    SettledRow(t.rows) && t.oracle == Some(d.payload) && Decided(t.rows) && Current(t.rows) == d
    && d.item in t.rows.items && t.rows.items[d.item].status == Confirmed
    && t.rows.items[d.item].verified == Some(d.payload)
  }

  lemma MatchIsDelivered(s: System, k: nat, phase: Phase)
    requires Working(s, k, phase) && phase in {Checked(Match), Final(Match)}
    requires s.oracle == Some(Current(s.rows).payload)
    ensures Enabled(s, Persist(k)) && Delivered(Apply(s, Persist(k)), Current(s.rows))
  {
    ResultDecidesRow(s.rows, s.workers[k].claim, Match);
  }

  lemma LeadsThrough(s: System, t: System, u: System)
    requires LeadsTo(s, t) && LeadsTo(t, u)
    ensures LeadsTo(s, u)
  {
    var a :| Runs(s, a) && NoEnvironment(a) && After(s, a) == t;
    var b :| Runs(t, b) && NoEnvironment(b) && After(t, b) == u;
    RunsJoin(s, a, b);
    assert NoEnvironment(a + b);
  }

  lemma {:induction false} RunsJoin(s: System, a: seq<Step>, b: seq<Step>)
    requires Runs(s, a) && Runs(After(s, a), b)
    ensures Runs(s, a + b) && After(s, a + b) == After(After(s, a), b)
    decreases |a|
  {
    if a == [] {
      assert a + b == b;
    } else {
      assert (a + b)[1..] == a[1..] + b;
      RunsJoin(Apply(s, a[0]), a[1..], b);
    }
  }

  /**
   Whatever was tried before, a validated approval that waits for its claim can be delivered by workers and Oracle
   alone: some run of theirs ends with its payload stored and the punch acknowledged for it.
   */
  lemma ApprovalIsNeverStuck(s: System) returns (t: System)
    requires WaitsForClaim(s)
    ensures LeadsTo(s, t) && Delivered(t, Current(s.rows))
  {
    var a, k := ClaimedAndSplit(s);
    if s.oracle.None? {
      var b := CheckedAndReserved(a, k);
      var c := PostedAndStored(b, k);
      LeadsThrough(s, a, b);
      LeadsThrough(s, b, c);
      MatchIsDelivered(c, k, Final(Match));
      LeadsOn(s, c, Persist(k));
      t := Apply(c, Persist(k));
    } else {
      var b := Apply(a, Check(k, Match));
      LeadsOn(s, a, Check(k, Match));
      MatchIsDelivered(b, k, Checked(Match));
      LeadsOn(s, b, Persist(k));
      t := Apply(b, Persist(k));
    }
  }

  /** A READY item that stands as approved reaches Oracle from any state in which it may be queued and validates. */
  lemma ReadyItemIsDelivered(s: System, i: nat, now: int) returns (t: System)
    requires i in s.rows.items && s.rows.items[i].status == Ready && i in s.world.valid
    requires StandsAsApproved(s.rows, i, Sound) && !Acknowledged(s.rows.event) && !InFlightRow(s.rows)
    requires Decided(s.rows) ==> Replaceable(s.rows, s.world)
    requires s.oracle.None? || s.oracle == Some(s.rows.items[i].payload)
    ensures LeadsTo(s, t) && SettledRow(t.rows) && t.oracle == Some(s.rows.items[i].payload)
    ensures i in t.rows.items && t.rows.items[i].status == Confirmed
  {
    LeadsHere(s);
    QueueDecides(s.rows, s.world, i, Sound, now);
    var a := Apply(s, Queue(i, Sound, now));
    LeadsOn(s, s, Queue(i, Sound, now));
    t := ApprovalIsNeverStuck(a);
    LeadsThrough(s, a, t);
  }

  // ------------------------------------------------------------------- force releases

  /** A force release puts the punch and its row back in line under its own CNIC, keeping the attempt number. */
  lemma ForceApprovalQueues(s: System, i: nat, p: Payload, cnic: string, now: int)
    requires Enabled(s, ForceApprove(i, p, cnic, now))
    ensures var r := Apply(s, ForceApprove(i, p, cnic, now)).rows;
            && r.event.status == Pending && r.event.requiresApproval && r.event.cnic == Some(cnic)
            && r.outbox == Some(Outbox(Pending, Attempt(s.rows), false))
            && Decided(r) && Current(r) == Decision(i, false, p, Some(cnic), now)
            && i in r.items && r.items[i].status == WaitingOracle && r.items[i].attempts == 0
  {
  }

  /** The worker at k holds the newest claim of the punch's current force release. */
  ghost predicate WorkingForced(s: System, k: nat, phase: Phase) {
    && k < |s.workers| && s.workers[k].phase == phase
    && Decided(s.rows) && !Current(s.rows).direct && Current(s.rows).item in s.rows.items && InFlightRow(s.rows)
    && s.workers[k].claim == Claim(s.rows.outbox.value.attempt, Current(s.rows).item, false, Current(s.rows).payload)
  }

  lemma ForcedClaimedAndSplit(s: System) returns (t: System, k: nat)
    requires Decided(s.rows) && !Current(s.rows).direct && Current(s.rows).item in s.rows.items
    requires s.rows.event.cnic.Some? && s.rows.outbox.Some? && s.rows.outbox.value.status == Pending
    ensures LeadsTo(s, t) && WorkingForced(t, k, Fresh) && t.oracle == s.oracle && Current(t.rows) == Current(s.rows)
  {
    LeadsHere(s);
    var claim := ClaimRow(ClaimCheck(false, Some(""), true));
    var a := Apply(s, claim);
    LeadsOn(s, s, claim);
    ClaimDecides(s.rows, s.world, claim.checks);
    var n := |s.carried|;
    SplitDecides(a.rows, a.world, a.carried[n].payload, true);
    t, k := Apply(a, SplitClaim(n, true)), |s.workers|;
    LeadsOn(s, a, SplitClaim(n, true));
  }

  lemma ForcedCheckedAndPosted(s: System, k: nat) returns (t: System)
    requires WorkingForced(s, k, Fresh) && s.oracle.None?
    ensures LeadsTo(s, t) && WorkingForced(t, k, Posted) && t.oracle.None? && Current(t.rows) == Current(s.rows)
    ensures Post(ForceLane, Current(s.rows).payload) in t.net
  {
    LeadsHere(s);
    var a := Apply(s, Check(k, Missing));
    LeadsOn(s, s, Check(k, Missing));
    AuthorizesExactly(a.rows, a.world, a.workers[k].claim, true);
    var b := Apply(a, Authorize(k, true));
    LeadsOn(s, a, Authorize(k, true));
    t := Apply(b, PostForced(k));
    LeadsOn(s, b, PostForced(k));
  }

  lemma ForcedStored(s: System, k: nat) returns (t: System)
    requires WorkingForced(s, k, Posted) && s.oracle.None? && Post(ForceLane, Current(s.rows).payload) in s.net
    ensures LeadsTo(s, t) && WorkingForced(t, k, Final(Match)) && Current(t.rows) == Current(s.rows)
    ensures t.oracle == Some(Current(s.rows).payload)
  {
    LeadsHere(s);
    var post := Post(ForceLane, Current(s.rows).payload);
    var a := Apply(s, Store(post));
    LeadsOn(s, s, Store(post));
    t := Apply(a, Recheck(k, Match, false));
    LeadsOn(s, a, Recheck(k, Match, false));
  }

  lemma ForcedMatchIsDelivered(s: System, k: nat, phase: Phase)
    requires WorkingForced(s, k, phase) && phase in {Checked(Match), Final(Match)}
    requires s.oracle == Some(Current(s.rows).payload)
    ensures Enabled(s, Persist(k)) && Delivered(Apply(s, Persist(k)), Current(s.rows))
  {
    ResultDecidesRow(s.rows, s.workers[k].claim, Match);
  }

  /** A held punch a force release approves can be delivered, without a send intent, wherever Oracle has no other. */
  lemma ForcedPunchIsDelivered(s: System, i: nat, p: Payload, cnic: string, now: int) returns (t: System)
    requires Enabled(s, ForceApprove(i, p, cnic, now)) && (s.oracle.None? || s.oracle == Some(p))
    ensures LeadsTo(s, t) && Delivered(t, Decision(i, false, p, Some(cnic), now))
  {
    LeadsHere(s);
    var step := ForceApprove(i, p, cnic, now);
    var a := Apply(s, step);
    LeadsOn(s, s, step);
    ForceApprovalQueues(s, i, p, cnic, now);
    var b, k := ForcedClaimedAndSplit(a);
    LeadsThrough(s, a, b);
    if s.oracle.None? {
      var c := ForcedCheckedAndPosted(b, k);
      var d := ForcedStored(c, k);
      LeadsThrough(s, b, c);
      LeadsThrough(s, c, d);
      ForcedMatchIsDelivered(d, k, Final(Match));
      LeadsOn(s, d, Persist(k));
      t := Apply(d, Persist(k));
    } else {
      var c := Apply(b, Check(k, Match));
      LeadsOn(s, b, Check(k, Match));
      ForcedMatchIsDelivered(c, k, Checked(Match));
      LeadsOn(s, c, Persist(k));
      t := Apply(c, Persist(k));
    }
  }
}
