/**
 Every interleaving of the transactions of `DeliveryRows`, the workers' network
 calls and Oracle itself, for one punch. Rows of other punches never appear in these
 transactions, so the rest of ADD enters only through the environment step.
 */
module DeliveryProtocol {
  import opened Options
  import opened DeliveryRows

  /** Where a forced claim stands inside `deliver_forced`. */
  datatype Phase =
    | Fresh | Checked(verdict: Verdict) | Authorized(verdict: Verdict) | Reserved | Posted | Final(verdict: Verdict)

  datatype Worker = Worker(claim: Claim, phase: Phase)

  /**
   A claim as `claim_ords_batch` returns it. The worker holds only the payload; `origin`
   (the direct approval whose frozen payload this is, if it is one), `attempt` and `cnic`
   (the row's attempt number and the punch's CNIC at the claim) record its history.
   */
  datatype Carried = Carried(payload: Payload, origin: Option<nat>, attempt: nat, cnic: Option<string>)

  datatype Lane = DirectLane(item: nat) | ForceLane | OrdinaryLane(origin: Option<nat>)

  /** One POST put on the network; Oracle may store it at any later moment, or never. */
  datatype Post = Post(lane: Lane, payload: Payload)

  datatype System = System(
    rows: Rows, world: World,
    carried: seq<Carried>,   // claims between claim_ords_batch and split_claims
    workers: seq<Worker>,    // forced claims inside deliver_forced
    ordinary: seq<Carried>,  // claims handed to ordinary delivery
    net: set<Post>, oracle: Option<Payload>)

  datatype Step =
    | Approve(item: nat, payload: Payload)
    | Queue(item: nat, check: QueueCheck, now: int)
    | ForceApprove(item: nat, payload: Payload, cnic: string, now: int)
    | ClaimRow(checks: ClaimCheck)
    | SplitClaim(k: nat, forceValid: bool)
    | Check(k: nat, verdict: Verdict)
    | Authorize(k: nat, forceValid: bool)
    | Reserve(k: nat)
    | PostForced(k: nat)
    | PostOrdinary(k: nat)
    | Recheck(k: nat, verdict: Verdict, refused: bool)
    | Fail(k: nat)
    | Persist(k: nat)
    | Crash(k: nat)
    | Lose(k: nat)
    | Store(post: Post)
    | Environment(rows: Rows, world: World)

  function Without<T>(s: seq<T>, k: nat): seq<T>
    requires k < |s|
  {
    s[..k] + s[k + 1..]
  }

  /** Oracle's read-only content check: an answer may be lost, never wrong. */
  predicate Truthful(verdict: Verdict, oracle: Option<Payload>, payload: Payload) {
    match verdict
    case Match => oracle == Some(payload)
    case Missing => oracle.None?
    case Mismatch => oracle.Some? && oracle.value != payload
    case ImmutableMismatch | Collision | Unknown => true
    case Changed | Rejected => false
  }

  predicate ShouldSend(direct: bool, verdict: Verdict) {
    verdict == Missing || (direct && verdict != Match)
  }

  /** A punch with an approval that needs none any more was released for a CNIC saved with it. */
  predicate ReleaseNamesCnic(r: Rows) {
    Decided(r) && !r.event.requiresApproval ==> r.event.cnic.Some?
  }

  /**
   Everything the rest of ADD may do to these rows between the modelled steps:
   anything, except move a row to IN_FLIGHT, reuse an attempt number, edit an
   append-only decision or a saved send intent, write the force check's own mark,
   release a held punch without a CNIC, or release one while its row is in flight.
   */
  predicate EnvironmentAllows(r: Rows, r': Rows) {
    && r'.decisions == r.decisions
    && r'.items.Keys == r.items.Keys
    && (forall i :: i in r.items ==>
          r'.items[i].attempts == r.items[i].attempts && r'.items[i].payload == r.items[i].payload
          && r'.items[i].source == r.items[i].source
          && (r'.items[i].status == Ready <==> r.items[i].status == Ready))
    && (r.outbox.Some? ==> r'.outbox.Some? && r'.outbox.value.attempt == r.outbox.value.attempt)
    && (InFlightRow(r') ==> InFlightRow(r))
    && (Certified(r') ==> Certified(r))
    && (ReleaseNamesCnic(r) ==> ReleaseNamesCnic(r'))
    && (InFlightRow(r) && r.event.requiresApproval ==> r'.event.requiresApproval)
  }

  /** ACKED_CHECK by the forced content check. */
  predicate Certified(r: Rows) {
    r.event.status == AckedCheck && r.event.path == ForceContentCheck
  }

  predicate Enabled(s: System, step: Step) {
    match step
    case Approve(i, _) => i !in s.rows.items
    case Queue(i, _, _) => i in s.rows.items && s.rows.items[i].status == Ready
    case ForceApprove(i, _, _, _) =>
      i !in s.rows.items && s.rows.event.status in {BlockedIdentity, WaitingForSnapshot}
      && (s.rows.outbox.None? || s.rows.outbox.value.status in {BlockedIdentity, WaitingForSnapshot})
    case ClaimRow(_) => s.rows.outbox.Some? && s.rows.outbox.value.status in {Pending, FailedRetryable}
    case SplitClaim(k, _) => k < |s.carried| && s.rows.outbox.Some?
    case Check(k, v) =>
      k < |s.workers| && s.workers[k].phase.Fresh? && Truthful(v, s.oracle, s.workers[k].claim.payload)
    case Authorize(k, _) =>
      k < |s.workers| && s.workers[k].phase.Checked?
          && ShouldSend(s.workers[k].claim.direct, s.workers[k].phase.verdict)
    case Reserve(k) => k < |s.workers| && s.workers[k].phase.Authorized? && s.workers[k].claim.direct
    case PostForced(k) =>
      k < |s.workers|
      && (s.workers[k].phase.Reserved? || (s.workers[k].phase.Authorized? && !s.workers[k].claim.direct))
    case PostOrdinary(k) => k < |s.ordinary|
    case Recheck(k, v, _) =>
      k < |s.workers| && s.workers[k].phase.Posted? && Truthful(v, s.oracle, s.workers[k].claim.payload)
    case Fail(k) => k < |s.workers| && !s.workers[k].phase.Final?
    case Persist(k) =>
      k < |s.workers|
      && (s.workers[k].phase.Final?
          || (s.workers[k].phase.Checked? && !ShouldSend(s.workers[k].claim.direct, s.workers[k].phase.verdict)))
    case Crash(k) => k < |s.workers|
    case Lose(k) => k < |s.carried|
    case Store(post) => post in s.net
    case Environment(r, _) => EnvironmentAllows(s.rows, r)
  }

  function SetPhase(s: System, k: nat, phase: Phase): System
    requires k < |s.workers|
  {
    s.(workers := s.workers[k := s.workers[k].(phase := phase)])
  }

  function LaneOf(c: Claim): Lane {
    if c.direct then DirectLane(c.item) else ForceLane
  }

  /** A claim leaves the carried ones for ordinary delivery, for a forced worker, or for nowhere. */
  function Handed(s: System, k: nat, h: Handover): System
    requires k < |s.carried|
  {
    var s' := s.(carried := Without(s.carried, k));
    match h
    case ToOrdinary(_) => s'.(ordinary := s.ordinary + [s.carried[k]])
    case ToForced(c) => s'.(workers := s.workers + [Worker(c, Fresh)])
    case Blocked => s'
  }

  function Apply(s: System, step: Step): System
    requires Enabled(s, step)
  {
    match step
    case Approve(i, p) => s.(rows := s.rows.(items := s.rows.items[i := Item(Ready, p, s.rows.event.cnic, 0, None)]))
    case Queue(i, check, now) => s.(rows := Queued(s.rows, s.world, i, check, now))
    case ForceApprove(i, p, cnic, now) => s.(rows := ForceQueued(s.rows, i, p, cnic, now))
    case ClaimRow(checks) =>
      var (rows, payload) := Claimed(s.rows, s.world, checks);
      var direct := Decided(s.rows) && Current(s.rows).direct && AutomaticTakeover(s.rows, s.world) != TakenOver;
      var origin := if direct then Some(Current(s.rows).item) else None;
      s.(rows := rows,
         carried := if payload.None? then s.carried
                    else s.carried + [Carried(payload.value, origin, Attempt(rows), s.rows.event.cnic)])
    case SplitClaim(k, forceValid) =>
      var (rows, h) := Split(s.rows, s.world, s.carried[k].payload, forceValid);
      Handed(s.(rows := rows), k, h)
    case Check(k, v) => SetPhase(s, k, Checked(v))
    case Authorize(k, forceValid) =>
      SetPhase(s, k,
               if StillAuthorized(s.rows, s.world, s.workers[k].claim, forceValid)
               then Authorized(s.workers[k].phase.verdict) else Final(Changed))
    case Reserve(k) =>
      var c, v := s.workers[k].claim, s.workers[k].phase.verdict;
      SetPhase(s, k, if MayReserve(s.rows, c, v) then Reserved else Final(Unknown)).(rows := ReservedRows(s.rows, c, v))
    case PostForced(k) =>
      SetPhase(s, k, Posted).(net := s.net + {Post(LaneOf(s.workers[k].claim), s.workers[k].claim.payload)})
    case PostOrdinary(k) => s.(net := s.net + {Post(OrdinaryLane(s.ordinary[k].origin), s.ordinary[k].payload)})
    case Recheck(k, v, refused) => SetPhase(s, k, Final(if v != Match && refused then Rejected else v))
    case Fail(k) => SetPhase(s, k, Final(Unknown))
    case Persist(k) =>
      s.(rows := Persisted(s.rows, s.workers[k].claim, s.workers[k].phase.verdict), workers := Without(s.workers, k))
    case Crash(k) => s.(workers := Without(s.workers, k))
    case Lose(k) => s.(carried := Without(s.carried, k))
    case Store(post) => if s.oracle.None? then s.(oracle := Some(post.payload)) else s
    case Environment(rows, world) => s.(rows := rows, world := world)
  }

  predicate Runs(s: System, steps: seq<Step>)
    decreases |steps|
  {
    steps == [] || (Enabled(s, steps[0]) && Runs(Apply(s, steps[0]), steps[1..]))
  }

  function After(s: System, steps: seq<Step>): System
    requires Runs(s, steps)
    decreases |steps|
  {
    if steps == [] then s else After(Apply(s, steps[0]), steps[1..])
  }

  /** A punch no administrator approved and no worker sent yet. */
  predicate Initial(s: System) {
    s.rows.items == map[] && s.rows.decisions == [] && !InFlightRow(s.rows) && !Certified(s.rows)
    && s.carried == [] && s.workers == [] && s.ordinary == [] && s.net == {} && s.oracle.None?
  }

  predicate Reserved?(r: Rows, item: nat) {
    item in r.items && r.items[item].attempts > 0
  }

  /** Decisions are append-only: direct approvals first, then force releases, one item each. */
  ghost predicate DecisionsSound(r: Rows) {
    && (forall i :: 0 <= i < |r.decisions| ==>
          r.decisions[i].item in r.items && r.items[r.decisions[i].item].status != Ready)
    && (forall i, j :: 0 <= i < j < |r.decisions| ==> r.decisions[i].item != r.decisions[j].item)
    && (forall i, j :: 0 <= i < j < |r.decisions| && r.decisions[j].direct ==> r.decisions[i].direct)
  }

  /** Only the last direct approval may hold a saved send intent. */
  ghost predicate OnlyLastReserved(r: Rows) {
    && (forall i, j :: 0 <= i < j < |r.decisions| && r.decisions[j].direct ==> !Reserved?(r, r.decisions[i].item))
    && (forall item :: Reserved?(r, item) ==> IsDirect(r, item))
  }

  ghost predicate IsDirect(r: Rows, item: nat) {
    exists i :: 0 <= i < |r.decisions| && r.decisions[i].item == item && r.decisions[i].direct
  }

  predicate Grants(d: Decision, item: nat, direct: bool, payload: Payload) {
    d.item == item && d.direct == direct && d.payload == payload
  }

  ghost predicate Approves(r: Rows, c: Claim) {
    exists i :: 0 <= i < |r.decisions| && Grants(r.decisions[i], c.item, c.direct, c.payload)
  }

  /** The worker's memory agrees with the durable rows it was built from. */
  ghost predicate WorkerSound(r: Rows, oracle: Option<Payload>, w: Worker) {
    && Approves(r, w.claim)
    && w.claim.attempt <= Attempt(r)
    && (w.phase.Reserved? ==> w.claim.direct)
    && (w.claim.direct && (w.phase.Reserved? || w.phase.Posted?) ==> Reserved?(r, w.claim.item))
    && ((w.phase.Checked? || w.phase.Final?) && w.phase.verdict == Match ==> oracle == Some(w.claim.payload))
  }

  ghost predicate Frozen(r: Rows, item: nat, payload: Payload) {
    exists i :: 0 <= i < |r.decisions| && Grants(r.decisions[i], item, true, payload)
  }

  ghost predicate CarriedSound(r: Rows, c: Carried) {
    c.origin.Some? ==> Frozen(r, c.origin.value, c.payload)
  }

  ghost predicate PostSound(r: Rows, p: Post) {
    && (p.lane.DirectLane? ==> Reserved?(r, p.lane.item) && Frozen(r, p.lane.item, p.payload))
    && (p.lane.OrdinaryLane? && p.lane.origin.Some? ==> Frozen(r, p.lane.origin.value, p.payload))
  }

  ghost predicate Invariant(s: System) {
    && DecisionsSound(s.rows)
    && OnlyLastReserved(s.rows)
    && (forall k :: 0 <= k < |s.workers| ==> WorkerSound(s.rows, s.oracle, s.workers[k]))
    && (forall k :: 0 <= k < |s.carried| ==> CarriedSound(s.rows, s.carried[k]))
    && (forall k :: 0 <= k < |s.ordinary| ==> CarriedSound(s.rows, s.ordinary[k]))
    && (forall p :: p in s.net ==> PostSound(s.rows, p))
    && (s.oracle.Some? ==> exists p :: p in s.net && p.payload == s.oracle.value)
    && (Certified(s.rows) ==> Decided(s.rows) && s.oracle == Some(Current(s.rows).payload))
    && (s.rows.outbox.None? ==> s.carried == [] && s.workers == [] && s.ordinary == [])
  }

  /** The rows moved on without losing a decision, a payload or a saved send intent. */
  ghost predicate Extends(r: Rows, r': Rows) {
    && |r.decisions| <= |r'.decisions| && r'.decisions[..|r.decisions|] == r.decisions
    && (forall item :: Reserved?(r, item) ==> Reserved?(r', item))
    && Attempt(r) <= Attempt(r')
  }

  lemma WorkerStays(r: Rows, r': Rows, oracle: Option<Payload>, oracle': Option<Payload>, w: Worker)
    requires Extends(r, r') && WorkerSound(r, oracle, w)
    requires oracle.Some? ==> oracle' == oracle
    ensures WorkerSound(r', oracle', w)
  {
    var i :| 0 <= i < |r.decisions| && Grants(r.decisions[i], w.claim.item, w.claim.direct, w.claim.payload);
    assert r'.decisions[..|r.decisions|][i] == r'.decisions[i];
  }

  lemma FrozenStays(r: Rows, r': Rows, item: nat, payload: Payload)
    requires Extends(r, r') && Frozen(r, item, payload)
    ensures Frozen(r', item, payload)
  {
    var i :| 0 <= i < |r.decisions| && Grants(r.decisions[i], item, true, payload);
    assert r'.decisions[..|r.decisions|][i] == r'.decisions[i];
  }

  lemma CarriedStays(r: Rows, r': Rows, c: Carried)
    requires Extends(r, r') && CarriedSound(r, c)
    ensures CarriedSound(r', c)
  {
    if c.origin.Some? {
      FrozenStays(r, r', c.origin.value, c.payload);
    }
  }

  lemma PostStays(r: Rows, r': Rows, p: Post)
    requires Extends(r, r') && PostSound(r, p)
    ensures PostSound(r', p)
  {
    if p.lane.DirectLane? {
      FrozenStays(r, r', p.lane.item, p.payload);
    } else if p.lane.OrdinaryLane? && p.lane.origin.Some? {
      FrozenStays(r, r', p.lane.origin.value, p.payload);
    }
  }

  /** What every step owes the part of the invariant it does not touch. */
  lemma CarryOver(s: System, s': System)
    requires Invariant(s) && Extends(s.rows, s'.rows)
    requires s.oracle.Some? ==> s'.oracle == s.oracle
    ensures forall k :: 0 <= k < |s.workers| ==> WorkerSound(s'.rows, s'.oracle, s.workers[k])
    ensures forall k :: 0 <= k < |s.carried| ==> CarriedSound(s'.rows, s.carried[k])
    ensures forall k :: 0 <= k < |s.ordinary| ==> CarriedSound(s'.rows, s.ordinary[k])
    ensures forall p :: p in s.net ==> PostSound(s'.rows, p)
  {
    forall k | 0 <= k < |s.carried| ensures CarriedSound(s'.rows, s.carried[k]) {
      CarriedStays(s.rows, s'.rows, s.carried[k]);
    }
    forall k | 0 <= k < |s.ordinary| ensures CarriedSound(s'.rows, s.ordinary[k]) {
      CarriedStays(s.rows, s'.rows, s.ordinary[k]);
    }
    forall k | 0 <= k < |s.workers| ensures WorkerSound(s'.rows, s'.oracle, s.workers[k]) {
      WorkerStays(s.rows, s'.rows, s.oracle, s'.oracle, s.workers[k]);
    }
    forall p | p in s.net ensures PostSound(s'.rows, p) {
      PostStays(s.rows, s'.rows, p);
    }
  }

  /** Appending a decision keeps the ledger sound when nothing of the last one was sent. */
  lemma AppendKeepsLedger(r: Rows, r': Rows, d: Decision)
    requires DecisionsSound(r) && OnlyLastReserved(r)
    requires r'.decisions == r.decisions + [d]
    requires d.item in r'.items && r'.items[d.item].status != Ready && r'.items[d.item].attempts == 0
    requires forall i :: i in r.items && i != d.item ==> i in r'.items && r'.items[i] == r.items[i]
    requires forall i :: i in r'.items && i != d.item ==> i in r.items
    requires d.item in r.items ==> r.items[d.item].status == Ready
    requires d.direct && Decided(r) ==> Current(r).direct && !Reserved?(r, Current(r).item)
    ensures DecisionsSound(r') && OnlyLastReserved(r')
  {
    var n := |r.decisions|;
    forall i | 0 <= i < n
      ensures r'.decisions[i] == r.decisions[i] && r'.decisions[i].item != d.item
    {}
    forall i, j | 0 <= i < j < |r'.decisions| && r'.decisions[j].direct
      ensures r'.decisions[i].direct && !Reserved?(r', r'.decisions[i].item)
    {
      if j == n && i < n - 1 {
        assert r.decisions[n - 1] == Current(r);
      }
    }
    forall item | Reserved?(r', item) ensures IsDirect(r', item) {
      assert Reserved?(r, item);
      var i :| 0 <= i < |r.decisions| && r.decisions[i].item == item && r.decisions[i].direct;
      assert r'.decisions[i] == r.decisions[i];
    }
  }

  lemma QueuedLedger(r: Rows, w: World, i: nat, check: QueueCheck, now: int)
    requires DecisionsSound(r) && OnlyLastReserved(r)
    requires i in r.items && r.items[i].status == Ready
    ensures var r' := Queued(r, w, i, check, now);
            DecisionsSound(r') && OnlyLastReserved(r') && Extends(r, r')
    ensures var r' := Queued(r, w, i, check, now);
            (r.outbox.Some? ==> r'.outbox.Some?) && (Certified(r') ==> Certified(r) && r'.decisions == r.decisions)
  {
    var r' := Queued(r, w, i, check, now);
    if |r'.decisions| > |r.decisions| {
      forall item | Reserved?(r, item) ensures IsDirect(r, item) && item != i {
        var k :| 0 <= k < |r.decisions| && r.decisions[k].item == item && r.decisions[k].direct;
      }
      assert r.items[i].attempts == 0 by {
        assert !Reserved?(r, i);
      }
      AppendKeepsLedger(r, r', Decision(i, true, r.items[i].payload, r.items[i].source, now));
    } else {
      SameLedger(r, r');
    }
  }

  /** A transaction that leaves the workers, the network and Oracle alone. */
  lemma RowsMove(s: System, s': System)
    requires Invariant(s) && s' == s.(rows := s'.rows)
    requires Extends(s.rows, s'.rows) && DecisionsSound(s'.rows) && OnlyLastReserved(s'.rows)
    requires s.rows.outbox.Some? ==> s'.rows.outbox.Some?
    requires Certified(s'.rows) ==> Certified(s.rows) && s'.rows.decisions == s.rows.decisions
    ensures Invariant(s')
  {
    CarryOver(s, s');
  }

  lemma QueueKeeps(s: System, i: nat, check: QueueCheck, now: int)
    requires Invariant(s) && Enabled(s, Queue(i, check, now))
    ensures Invariant(Apply(s, Queue(i, check, now)))
  {
    QueuedLedger(s.rows, s.world, i, check, now);
    RowsMove(s, Apply(s, Queue(i, check, now)));
  }

  lemma ForceApproveKeeps(s: System, i: nat, p: Payload, cnic: string, now: int)
    requires Invariant(s) && Enabled(s, ForceApprove(i, p, cnic, now))
    ensures Invariant(Apply(s, ForceApprove(i, p, cnic, now)))
  {
    var s' := Apply(s, ForceApprove(i, p, cnic, now));
    AppendKeepsLedger(s.rows, s'.rows, Decision(i, false, p, Some(cnic), now));
    CarryOver(s, s');
  }

  /** Item attempts and decisions as before: the ledger part of the invariant carries over. */
  lemma SameLedger(r: Rows, r': Rows)
    requires DecisionsSound(r) && OnlyLastReserved(r) && r'.decisions == r.decisions
    requires forall item :: item in r.items ==> item in r'.items && r'.items[item].attempts == r.items[item].attempts
    requires forall item :: item in r.items ==> (r'.items[item].status == Ready ==> r.items[item].status == Ready)
    requires forall item :: item in r'.items && item !in r.items ==> r'.items[item].attempts == 0
    ensures DecisionsSound(r') && OnlyLastReserved(r')
  {
    forall item | Reserved?(r', item) ensures IsDirect(r', item) {
      assert Reserved?(r, item);
      assert IsDirect(r, item);
    }
  }

  lemma ClaimedLedger(r: Rows, w: World, checks: ClaimCheck)
    requires DecisionsSound(r) && OnlyLastReserved(r) && r.outbox.Some?
    ensures var r' := Claimed(r, w, checks).0;
            DecisionsSound(r') && OnlyLastReserved(r') && Extends(r, r') && r'.outbox.Some?
                && r'.decisions == r.decisions
    ensures var r' := Claimed(r, w, checks).0; r'.event == r.event || (r'.event.status != AckedCheck)
  {
    SameLedger(r, Claimed(r, w, checks).0);
  }

  lemma ClaimKeeps(s: System, checks: ClaimCheck)
    requires Invariant(s) && Enabled(s, ClaimRow(checks))
    ensures Invariant(Apply(s, ClaimRow(checks)))
  {
    ClaimedLedger(s.rows, s.world, checks);
    var moved := s.(rows := Claimed(s.rows, s.world, checks).0);
    RowsMove(s, moved);
    var s' := Apply(s, ClaimRow(checks));
    if |s'.carried| > |s.carried| && s'.carried[|s.carried|].origin.Some? {
      var n := |s.rows.decisions| - 1;
      assert s'.rows.decisions[n] == Current(s.rows);
      assert Grants(s'.rows.decisions[n], Current(s.rows).item, true, Current(s.rows).payload);
      assert CarriedSound(s'.rows, s'.carried[|s.carried|]);
    }
  }

  lemma SplitLedger(r: Rows, w: World, payload: Payload, forceValid: bool)
    requires DecisionsSound(r) && OnlyLastReserved(r) && r.outbox.Some?
    ensures var r' := Split(r, w, payload, forceValid).0;
            && DecisionsSound(r') && OnlyLastReserved(r') && Extends(r, r') && r'.outbox.Some?
                && r'.decisions == r.decisions
            && (Certified(r') ==> Certified(r))
    ensures var h := Split(r, w, payload, forceValid).1; h.ToForced? ==>
              Approves(r, h.claim) && h.claim.attempt <= Attempt(r)
  {
    var r', h := Split(r, w, payload, forceValid).0, Split(r, w, payload, forceValid).1;
    SameLedger(r, r');
    if h.ToForced? {
      var n := |r.decisions| - 1;
      assert Grants(r.decisions[n], h.claim.item, h.claim.direct, h.claim.payload);
    }
  }

  lemma HandedKeeps(s: System, k: nat, h: Handover)
    requires Invariant(s) && k < |s.carried| && s.rows.outbox.Some?
    requires h.ToForced? ==> Approves(s.rows, h.claim) && h.claim.attempt <= Attempt(s.rows)
    ensures Invariant(Handed(s, k, h))
  {
    assert CarriedSound(s.rows, s.carried[k]);
    if h.ToForced? {
      assert WorkerSound(s.rows, s.oracle, Worker(h.claim, Fresh));
    }
  }

  lemma SplitKeeps(s: System, k: nat, forceValid: bool)
    requires Invariant(s) && Enabled(s, SplitClaim(k, forceValid))
    ensures Invariant(Apply(s, SplitClaim(k, forceValid)))
  {
    var (rows, h) := Split(s.rows, s.world, s.carried[k].payload, forceValid);
    SplitLedger(s.rows, s.world, s.carried[k].payload, forceValid);
    RowsMove(s, s.(rows := rows));
    HandedKeeps(s.(rows := rows), k, h);
  }

  /** A send intent is saved only for the claim of the current approval. */
  lemma ReservedLedger(r: Rows, c: Claim, v: Verdict)
    requires DecisionsSound(r) && OnlyLastReserved(r) && Approves(r, c) && c.direct
    ensures var r' := ReservedRows(r, c, v); DecisionsSound(r') && OnlyLastReserved(r') && Extends(r, r')
  {
    var r' := ReservedRows(r, c, v);
    if MayReserve(r, c, v) {
      var n := |r.decisions| - 1;
      var i :| 0 <= i < |r.decisions| && Grants(r.decisions[i], c.item, c.direct, c.payload);
      assert i == n;
      forall item | Reserved?(r', item) ensures IsDirect(r', item) {
        if item == c.item {
          assert r'.decisions[n].item == item && r'.decisions[n].direct;
        } else {
          assert Reserved?(r, item) && IsDirect(r, item);
        }
      }
    }
  }

  lemma ReserveKeeps(s: System, k: nat)
    requires Invariant(s) && Enabled(s, Reserve(k))
    ensures Invariant(Apply(s, Reserve(k)))
  {
    var c, v := s.workers[k].claim, s.workers[k].phase.verdict;
    assert WorkerSound(s.rows, s.oracle, s.workers[k]);
    ReservedLedger(s.rows, c, v);
    var moved := s.(rows := ReservedRows(s.rows, c, v));
    RowsMove(s, moved);
    assert WorkerSound(moved.rows, moved.oracle, moved.workers[k]);
  }

  lemma PersistLedger(r: Rows, c: Claim, v: Verdict)
    requires DecisionsSound(r) && OnlyLastReserved(r)
    ensures var r' := Persisted(r, c, v);
            && DecisionsSound(r') && OnlyLastReserved(r') && Extends(r, r') && r'.decisions == r.decisions
            && (r.outbox.Some? ==> r'.outbox.Some?)
  {
    SameLedger(r, Persisted(r, c, v));
  }

  lemma PersistKeeps(s: System, k: nat)
    requires Invariant(s) && Enabled(s, Persist(k))
    ensures Invariant(Apply(s, Persist(k)))
  {
    var s' := Apply(s, Persist(k));
    PersistLedger(s.rows, s.workers[k].claim, s.workers[k].phase.verdict);
    CarryOver(s, s');
  }

  lemma EnvironmentKeeps(s: System, rows: Rows, world: World)
    requires Invariant(s) && Enabled(s, Environment(rows, world))
    ensures Invariant(Apply(s, Environment(rows, world)))
  {
    SameLedger(s.rows, rows);
    CarryOver(s, Apply(s, Environment(rows, world)));
  }

  lemma ApproveKeeps(s: System, i: nat, p: Payload)
    requires Invariant(s) && Enabled(s, Approve(i, p))
    ensures Invariant(Apply(s, Approve(i, p)))
  {
    var s' := Apply(s, Approve(i, p));
    SameLedger(s.rows, s'.rows);
    CarryOver(s, s');
  }

  lemma PostForcedKeeps(s: System, k: nat)
    requires Invariant(s) && Enabled(s, PostForced(k))
    ensures Invariant(Apply(s, PostForced(k)))
  {
    var s' := Apply(s, PostForced(k));
    var c := s.workers[k].claim;
    CarryOver(s, s');
    var i :| 0 <= i < |s.rows.decisions| && Grants(s.rows.decisions[i], c.item, c.direct, c.payload);
    assert Grants(s'.rows.decisions[i], c.item, c.direct, c.payload);
    assert PostSound(s'.rows, Post(LaneOf(c), c.payload));
    if s.oracle.Some? {
      var p :| p in s.net && p.payload == s.oracle.value;
      assert p in s'.net;
    }
  }

  lemma PostOrdinaryKeeps(s: System, k: nat)
    requires Invariant(s) && Enabled(s, PostOrdinary(k))
    ensures Invariant(Apply(s, PostOrdinary(k)))
  {
    var s' := Apply(s, PostOrdinary(k));
    CarryOver(s, s');
    if s.oracle.Some? {
      var p :| p in s.net && p.payload == s.oracle.value;
      assert p in s'.net;
    }
  }

  /** A worker may move to any phase its knowledge supports. */
  lemma PhaseKeeps(s: System, k: nat, phase: Phase)
    requires Invariant(s) && k < |s.workers| && !phase.Reserved? && !phase.Posted?
    requires (phase.Checked? || phase.Final?) && phase.verdict == Match ==> s.oracle == Some(s.workers[k].claim.payload)
    ensures Invariant(SetPhase(s, k, phase))
  {
    assert WorkerSound(s.rows, s.oracle, s.workers[k]);
  }

  lemma CrashKeeps(s: System, k: nat)
    requires Invariant(s) && k < |s.workers|
    ensures Invariant(s.(workers := Without(s.workers, k)))
  {
  }

  lemma StepKeeps(s: System, step: Step)
    requires Invariant(s) && Enabled(s, step)
    ensures Invariant(Apply(s, step))
  {
    match step
    case Approve(i, p) => ApproveKeeps(s, i, p);
    case Queue(i, check, now) => QueueKeeps(s, i, check, now);
    case ForceApprove(i, p, cnic, now) => ForceApproveKeeps(s, i, p, cnic, now);
    case ClaimRow(checks) => ClaimKeeps(s, checks);
    case SplitClaim(k, forceValid) => SplitKeeps(s, k, forceValid);
    case Reserve(k) => ReserveKeeps(s, k);
    case PostForced(k) => PostForcedKeeps(s, k);
    case PostOrdinary(k) => PostOrdinaryKeeps(s, k);
    case Persist(k) => PersistKeeps(s, k);
    case Environment(rows, world) => EnvironmentKeeps(s, rows, world);
    case Store(post) => StoreKeeps(s, post);
    case Check(k, v) => PhaseKeeps(s, k, Checked(v));
    case Authorize(k, forceValid) =>
      PhaseKeeps(s, k, if StillAuthorized(s.rows, s.world, s.workers[k].claim, forceValid)
                       then Authorized(s.workers[k].phase.verdict) else Final(Changed));
    case Recheck(k, v, refused) => PhaseKeeps(s, k, Final(if v != Match && refused then Rejected else v));
    case Fail(k) => PhaseKeeps(s, k, Final(Unknown));
    case Crash(k) => CrashKeeps(s, k);
    case Lose(k) =>
  }

  lemma StoreKeeps(s: System, post: Post)
    requires Invariant(s) && Enabled(s, Store(post))
    ensures Invariant(Apply(s, Store(post)))
  {
    CarryOver(s, Apply(s, Store(post)));
  }

  lemma {:induction false} InvariantAfter(s: System, steps: seq<Step>)
    requires Invariant(s) && Runs(s, steps)
    ensures Invariant(After(s, steps))
    decreases |steps|
  {
    if steps != [] {
      StepKeeps(s, steps[0]);
      InvariantAfter(Apply(s, steps[0]), steps[1..]);
    }
  }
}
