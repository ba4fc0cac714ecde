/**
 Reachable runs that show which conditions of the delivery theorems are needed: the
 claim and the split are separate transactions, and the split neither compares the
 carried payload with what ordinary delivery would send nor checks the claim's attempt.
 Every approval here is given for the CNIC the punch carries, and every release happens
 while the row is not in flight. Each lemma walks a few steps and names where it ends.
 */
module DeliveryRaces {
  import opened Options
  import opened DeliveryRows
  import opened DeliveryProtocol
  import opened DeliveryTheorems
  import opened DeliveryHandover

  const ANY_TIME := ClaimCheck(false, Some("ordinary"), false)

  function Still(
      r: Rows, w: World, carried: seq<Carried>, workers: seq<Worker>, ordinary: seq<Carried>, net: set<Post>): System {
    System(r, w, carried, workers, ordinary, net, None)
  }

  /** The punch ADD's own proof released for `cnic` at `at`. */
  function ReleasedFor(cnic: string, at: int): Event {
    Event(Pending, false, NoPath, false, Some(at), Some(cnic), true)
  }

  /** The same punch held again. */
  function HeldAs(cnic: string, at: int): Event {
    Event(BlockedIdentity, false, NoPath, true, Some(at), Some(cnic), true)
  }

  function QueuedAs(cnic: string, at: int): Event {
    HeldAs(cnic, at).(status := Pending)
  }

  function Offered(p: Payload): Item {
    Item(Ready, p, Some(p.cnic), 0, None)
  }

  function Waiting(p: Payload, attempts: nat): Item {
    Item(WaitingOracle, p, Some(p.cnic), attempts, None)
  }

  function ApprovedAt(i: nat, p: Payload, now: int): Decision {
    Decision(i, true, p, Some(p.cnic), now)
  }

  function Row(status: Status, attempt: nat): Option<Outbox> {
    Some(Outbox(status, attempt, false))
  }

  lemma Go(s: System, step: Step, s': System)
    requires SerialReachable(s) && Enabled(s, step) && Locks(s, step) && Apply(s, step) == s'
    ensures SerialReachable(s')
  {
    SerialReachableStep(s, step);
  }

  lemma Environs(s: System, rows: Rows, world: World)
    requires SerialReachable(s) && EnvironmentAllows(s.rows, rows)
    ensures SerialReachable(s.(rows := rows, world := world))
  {
    Go(s, Environment(rows, world), s.(rows := rows, world := world));
  }

  /** The same without the delivery lock: a second worker process may claim in between. */
  lemma GoUnlocked(s: System, step: Step, s': System)
    requires Reachable(s) && Enabled(s, step) && Apply(s, step) == s'
    ensures Reachable(s')
  {
    ReachableStep(s, step);
  }

  lemma EnvironsUnlocked(s: System, rows: Rows, world: World)
    requires Reachable(s) && EnvironmentAllows(s.rows, rows)
    ensures Reachable(s.(rows := rows, world := world))
  {
    GoUnlocked(s, Environment(rows, world), s.(rows := rows, world := world));
  }

  // -------------------------------------------------------- the lane switch

  /** A punch once released for `p.cnic` and held again is approved, and the approval is queued. */
  lemma QueuesApproval(p: Payload)
    ensures SerialReachable(Still(
      Rows(QueuedAs(p.cnic, 5), Row(Pending, 0), map[0 := Waiting(p, 0)], [ApprovedAt(0, p, 10)]),
      World({}), [], [], [], {}))
  {
    var s0 := Still(Rows(HeldAs(p.cnic, 5), Row(BlockedIdentity, 0), map[], []), World({}), [], [], [], {});
    InitialSerialReachable(s0);
    var s1 := s0.(rows := s0.rows.(items := map[0 := Offered(p)]));
    Go(s0, Approve(0, p), s1);
    Go(s1, Queue(0, Sound, 10),
       s1.(rows := Rows(QueuedAs(p.cnic, 5), Row(Pending, 0), map[0 := Waiting(p, 0)], [ApprovedAt(0, p, 10)])));
  }

  /** Its user is missing, so the claim holds it; a snapshot brings the user back and releases it unchanged. */
  lemma IsReleasedUnchanged(p: Payload)
    ensures SerialReachable(Still(
      Rows(ReleasedFor(p.cnic, 20), Row(Pending, 0), map[0 := Waiting(p, 0)], [ApprovedAt(0, p, 10)]),
      World({0}), [], [], [], {}))
  {
    QueuesApproval(p);
    var queued := Rows(QueuedAs(p.cnic, 5), Row(Pending, 0), map[0 := Waiting(p, 0)], [ApprovedAt(0, p, 10)]);
    var held := queued.(event := HeldAs(p.cnic, 5), outbox := Row(BlockedIdentity, 0));
    Go(Still(queued, World({}), [], [], [], {}), ClaimRow(ANY_TIME), Still(held, World({}), [], [], [], {}));
    Environs(Still(held, World({}), [], [], [], {}), queued.(event := ReleasedFor(p.cnic, 20)), World({0}));
  }

  /** The claim carries the approval's payload, and the approval stops before the split. */
  lemma StopsAfterClaim(p: Payload)
    ensures SerialReachable(Still(
      Rows(ReleasedFor(p.cnic, 20), Row(InFlight, 1), map[0 := Waiting(p, 0)], [ApprovedAt(0, p, 10)]),
      World({}), [Carried(p, Some(0), 1, Some(p.cnic))], [], [], {}))
  {
    IsReleasedUnchanged(p);
    var pending := Rows(ReleasedFor(p.cnic, 20), Row(Pending, 0), map[0 := Waiting(p, 0)], [ApprovedAt(0, p, 10)]);
    var claimed := pending.(outbox := Row(InFlight, 1));
    var c := Carried(p, Some(0), 1, Some(p.cnic));
    Go(Still(pending, World({0}), [], [], [], {}), ClaimRow(ANY_TIME), Still(claimed, World({0}), [c], [], [], {}));
    Environs(Still(claimed, World({0}), [c], [], [], {}), claimed, World({}));
  }

  /** The split sends it by the ordinary lane. */
  lemma SwitchesLane(p: Payload)
    ensures SerialReachable(Still(
      Rows(ReleasedFor(p.cnic, 20), Row(InFlight, 1), map[0 := Waiting(p, 0)], [ApprovedAt(0, p, 10)]),
      World({}), [], [], [Carried(p, Some(0), 1, Some(p.cnic))], {Post(OrdinaryLane(Some(0)), p)}))
  {
    StopsAfterClaim(p);
    var claimed := Rows(ReleasedFor(p.cnic, 20), Row(InFlight, 1), map[0 := Waiting(p, 0)], [ApprovedAt(0, p, 10)]);
    var c := Carried(p, Some(0), 1, Some(p.cnic));
    var s := Still(claimed, World({}), [c], [], [], {});
    assert LaneSwitch(s, SplitClaim(0, false));
    Go(s, SplitClaim(0, false), Still(claimed, World({}), [], [], [c], {}));
    Go(Still(claimed, World({}), [], [], [c], {}), PostOrdinary(0),
       Still(claimed, World({}), [], [], [c], {Post(OrdinaryLane(Some(0)), p)}));
  }

  /** The reply is lost, the punch is re-resolved for `q.cnic` and held again, and a second approval is given. */
  lemma IsApprovedAgain(p: Payload, q: Payload)
    ensures SerialReachable(Still(
      Rows(HeldAs(q.cnic, 20), Row(BlockedIdentity, 1),
           map[0 := Waiting(p, 0), 1 := Offered(q)], [ApprovedAt(0, p, 10)]),
      World({}), [], [], [Carried(p, Some(0), 1, Some(p.cnic))], {Post(OrdinaryLane(Some(0)), p)}))
  {
    SwitchesLane(p);
    var net, other := {Post(OrdinaryLane(Some(0)), p)}, [Carried(p, Some(0), 1, Some(p.cnic))];
    var claimed := Rows(ReleasedFor(p.cnic, 20), Row(InFlight, 1), map[0 := Waiting(p, 0)], [ApprovedAt(0, p, 10)]);
    var held := claimed.(event := HeldAs(q.cnic, 20), outbox := Row(BlockedIdentity, 1));
    Environs(Still(claimed, World({}), [], [], other, net), held, World({}));
    Go(Still(held, World({}), [], [], other, net), Approve(1, q),
       Still(held.(items := map[0 := Waiting(p, 0), 1 := Offered(q)]), World({}), [], [], other, net));
  }

  /** It replaces the first one: nothing of that was recorded as sent. */
  lemma IsReplaced(p: Payload, q: Payload)
    ensures SerialReachable(Still(
      Rows(QueuedAs(q.cnic, 20), Row(Pending, 1), map[0 := Waiting(p, 0), 1 := Waiting(q, 0)],
           [ApprovedAt(0, p, 10), ApprovedAt(1, q, 30)]),
      World({}), [], [], [Carried(p, Some(0), 1, Some(p.cnic))], {Post(OrdinaryLane(Some(0)), p)}))
  {
    IsApprovedAgain(p, q);
    var net, other := {Post(OrdinaryLane(Some(0)), p)}, [Carried(p, Some(0), 1, Some(p.cnic))];
    var approved := Rows(HeldAs(q.cnic, 20), Row(BlockedIdentity, 1),
                         map[0 := Waiting(p, 0), 1 := Offered(q)], [ApprovedAt(0, p, 10)]);
    assert ReplacementBlock(approved, World({})) == None;
    var queued := Queued(approved, World({}), 1, Sound, 30);
    assert queued.items == map[0 := Waiting(p, 0), 1 := Waiting(q, 0)];
    Go(Still(approved, World({}), [], [], other, net), Queue(1, Sound, 30),
       Still(queued, World({}), [], [], other, net));
  }

  /** The second approval is claimed for the forced lane. */
  lemma IsClaimedForced(p: Payload, q: Payload)
    ensures SerialReachable(Still(
      Rows(QueuedAs(q.cnic, 20), Row(InFlight, 2), map[0 := Waiting(p, 0), 1 := Waiting(q, 0)],
           [ApprovedAt(0, p, 10), ApprovedAt(1, q, 30)]),
      World({1}), [], [Worker(Claim(2, 1, true, q), Fresh)], [Carried(p, Some(0), 1, Some(p.cnic))],
      {Post(OrdinaryLane(Some(0)), p)}))
  {
    IsReplaced(p, q);
    var net, other := {Post(OrdinaryLane(Some(0)), p)}, [Carried(p, Some(0), 1, Some(p.cnic))];
    var queued := Rows(QueuedAs(q.cnic, 20), Row(Pending, 1), map[0 := Waiting(p, 0), 1 := Waiting(q, 0)],
                       [ApprovedAt(0, p, 10), ApprovedAt(1, q, 30)]);
    var claimed := queued.(outbox := Row(InFlight, 2));
    var c := Carried(q, Some(1), 2, Some(q.cnic));
    Environs(Still(queued, World({}), [], [], other, net), queued, World({1}));
    Go(Still(queued, World({1}), [], [], other, net), ClaimRow(ANY_TIME),
       Still(claimed, World({1}), [c], [], other, net));
    Go(Still(claimed, World({1}), [c], [], other, net), SplitClaim(0, false),
       Still(claimed, World({1}), [], [Worker(Claim(2, 1, true, q), Fresh)], other, net));
  }

  /** A fresh direct claim of the current approval finds Oracle empty and is authorized. */
  lemma IsAuthorized(s: System, c: Claim)
    requires SerialReachable(s) && s.workers == [Worker(c, Fresh)] && s.oracle.None? && c.direct
    requires StillAuthorized(s.rows, s.world, c, false)
    ensures SerialReachable(s.(workers := [Worker(c, Authorized(Missing))]))
  {
    var s1 := s.(workers := [Worker(c, Checked(Missing))]);
    Go(s, Check(0, Missing), s1);
    Go(s1, Authorize(0, false), s.(workers := [Worker(c, Authorized(Missing))]));
  }

  /** It saves its send intent and posts. */
  lemma ReservesAndPosts(s: System, c: Claim)
    requires SerialReachable(s) && s.workers == [Worker(c, Authorized(Missing))] && c.direct
    requires MayReserve(s.rows, c, Missing)
    ensures SerialReachable(s.(rows := ReservedRows(s.rows, c, Missing), workers := [Worker(c, Posted)],
                               net := s.net + {Post(DirectLane(c.item), c.payload)}))
  {
    var reserved := s.(workers := [Worker(c, Reserved)], rows := ReservedRows(s.rows, c, Missing));
    Go(s, Reserve(0), reserved);
    Go(reserved, PostForced(0),
       reserved.(workers := [Worker(c, Posted)], net := s.net + {Post(DirectLane(c.item), c.payload)}));
  }

  /**
   Even under the delivery lock, an approval that validates at the claim and stops before
   the split hands its own payload to ordinary delivery. No send intent is saved, so a
   later approval may replace it and Oracle is sent two different direct payloads.
   */
  lemma TwoDirectPayloadsAfterLaneSwitch(p: Payload, q: Payload)
    requires p != q
    ensures exists s, a, b ::
      && SerialReachable(s) && a in s.net && b in s.net
      && Origin(a).Some? && Origin(b).Some? && a.payload == p && b.payload == q
      && !Reserved?(s.rows, Origin(a).value)
  {
    IsClaimedForced(p, q);
    var claimed := Rows(QueuedAs(q.cnic, 20), Row(InFlight, 2), map[0 := Waiting(p, 0), 1 := Waiting(q, 0)],
                        [ApprovedAt(0, p, 10), ApprovedAt(1, q, 30)]);
    var c, other := Claim(2, 1, true, q), [Carried(p, Some(0), 1, Some(p.cnic))];
    var a, b := Post(OrdinaryLane(Some(0)), p), Post(DirectLane(1), q);
    var s := Still(claimed, World({1}), [], [Worker(c, Fresh)], other, {a});
    IsAuthorized(s, c);
    ReservesAndPosts(s.(workers := [Worker(c, Authorized(Missing))]), c);
    var last := Still(ReservedRows(claimed, c, Missing), World({1}), [], [Worker(c, Posted)], other, {a} + {b});
    assert SerialReachable(last) && a in last.net && b in last.net && Origin(a) == Some(0) && Origin(b) == Some(1);
  }

  // ------------------------------------------------ a claim left waiting

  /** A claim of a released punch waits to be split while its row is recovered and the punch held as `q.cnic`. */
  lemma WaitsToBeSplit(q: Payload, cnic: string)
    ensures Reachable(Still(
      Rows(HeldAs(q.cnic, 5), Row(BlockedIdentity, 1), map[], []),
      World({}), [Carried(Payload(cnic, "ordinary"), None, 1, Some(cnic))], [], [], {}))
  {
    var released := Rows(ReleasedFor(cnic, 1), Row(Pending, 0), map[], []);
    var s0 := Still(released, World({}), [], [], [], {});
    InitialReachable(s0);
    var stale := Carried(Payload(cnic, "ordinary"), None, 1, Some(cnic));
    var first := Still(released.(outbox := Row(InFlight, 1)), World({}), [stale], [], [], {});
    GoUnlocked(s0, ClaimRow(ANY_TIME), first);
    EnvironsUnlocked(first, Rows(HeldAs(q.cnic, 5), Row(BlockedIdentity, 1), map[], []), World({}));
  }

  /** `q` is approved for the punch as it now is, and queued. */
  lemma IsApprovedMeanwhile(q: Payload, cnic: string)
    ensures Reachable(Still(
      Rows(QueuedAs(q.cnic, 5), Row(Pending, 1), map[0 := Waiting(q, 0)], [ApprovedAt(0, q, 10)]),
      World({0}), [Carried(Payload(cnic, "ordinary"), None, 1, Some(cnic))], [], [], {}))
  {
    WaitsToBeSplit(q, cnic);
    var stale := Carried(Payload(cnic, "ordinary"), None, 1, Some(cnic));
    var s := Still(Rows(HeldAs(q.cnic, 5), Row(BlockedIdentity, 1), map[], []), World({}), [stale], [], [], {});
    var offered := s.(rows := s.rows.(items := map[0 := Offered(q)]));
    GoUnlocked(s, Approve(0, q), offered);
    var queued := Rows(QueuedAs(q.cnic, 5), Row(Pending, 1), map[0 := Waiting(q, 0)], [ApprovedAt(0, q, 10)]);
    GoUnlocked(offered, Queue(0, Sound, 10), Still(queued, World({}), [stale], [], [], {}));
    EnvironsUnlocked(Still(queued, World({}), [stale], [], [], {}), queued, World({0}));
  }

  /** The row is claimed again, now for the approval, and that claim is split first. */
  lemma LeavesStaleClaim(q: Payload, cnic: string)
    ensures Reachable(Still(
      Rows(QueuedAs(q.cnic, 5), Row(InFlight, 2), map[0 := Waiting(q, 0)], [ApprovedAt(0, q, 10)]),
      World({0}), [Carried(Payload(cnic, "ordinary"), None, 1, Some(cnic))],
      [Worker(Claim(2, 0, true, q), Fresh)], [], {}))
  {
    IsApprovedMeanwhile(q, cnic);
    var stale, mine := Carried(Payload(cnic, "ordinary"), None, 1, Some(cnic)), Carried(q, Some(0), 2, Some(q.cnic));
    var queued := Rows(QueuedAs(q.cnic, 5), Row(Pending, 1), map[0 := Waiting(q, 0)], [ApprovedAt(0, q, 10)]);
    var second := queued.(outbox := Row(InFlight, 2));
    GoUnlocked(Still(queued, World({0}), [stale], [], [], {}), ClaimRow(ANY_TIME),
               Still(second, World({0}), [stale, mine], [], [], {}));
    assert Without([stale, mine], 1) == [stale];
    GoUnlocked(Still(second, World({0}), [stale, mine], [], [], {}), SplitClaim(1, false),
               Still(second, World({0}), [stale], [Worker(Claim(2, 0, true, q), Fresh)], [], {}));
  }

  /** The approval's claim saves its send intent. */
  lemma ReservesBeside(q: Payload, cnic: string)
    ensures Reachable(Still(
      Rows(QueuedAs(q.cnic, 5), Row(InFlight, 2), map[0 := Waiting(q, 1)], [ApprovedAt(0, q, 10)]),
      World({0}), [Carried(Payload(cnic, "ordinary"), None, 1, Some(cnic))],
      [Worker(Claim(2, 0, true, q), Reserved)], [], {}))
  {
    LeavesStaleClaim(q, cnic);
    var c := Claim(2, 0, true, q);
    var s := Still(Rows(QueuedAs(q.cnic, 5), Row(InFlight, 2), map[0 := Waiting(q, 0)], [ApprovedAt(0, q, 10)]),
                   World({0}), [Carried(Payload(cnic, "ordinary"), None, 1, Some(cnic))], [Worker(c, Fresh)], [], {});
    var s1 := s.(workers := [Worker(c, Checked(Missing))]);
    GoUnlocked(s, Check(0, Missing), s1);
    var s2 := s.(workers := [Worker(c, Authorized(Missing))]);
    GoUnlocked(s1, Authorize(0, false), s2);
    GoUnlocked(s2, Reserve(0),
               s.(workers := [Worker(c, Reserved)], rows := s.rows.(items := map[0 := Waiting(q, 1)])));
  }

  /** It posts and no answer comes. */
  lemma PostsBeside(q: Payload, cnic: string)
    ensures Reachable(Still(
      Rows(QueuedAs(q.cnic, 5), Row(InFlight, 2), map[0 := Waiting(q, 1)], [ApprovedAt(0, q, 10)]),
      World({0}), [Carried(Payload(cnic, "ordinary"), None, 1, Some(cnic))],
      [Worker(Claim(2, 0, true, q), Final(Unknown))], [], {Post(DirectLane(0), q)}))
  {
    ReservesBeside(q, cnic);
    var c, stale := Claim(2, 0, true, q), Carried(Payload(cnic, "ordinary"), None, 1, Some(cnic));
    var rows := Rows(QueuedAs(q.cnic, 5), Row(InFlight, 2), map[0 := Waiting(q, 1)], [ApprovedAt(0, q, 10)]);
    var net: set<Post> := {Post(DirectLane(0), q)};
    assert {} + net == net;
    var posted := Still(rows, World({0}), [stale], [Worker(c, Posted)], [], net);
    GoUnlocked(Still(rows, World({0}), [stale], [Worker(c, Reserved)], [], {}), PostForced(0), posted);
    GoUnlocked(posted, Fail(0), posted.(workers := [Worker(c, Final(Unknown))]));
  }

  /** ADD's own proof releases the punch again for `q.cnic`. */
  lemma PostsAndIsReleased(q: Payload, cnic: string)
    ensures Reachable(Still(
      Rows(ReleasedFor(q.cnic, 40), Row(FailedRetryable, 2), map[0 := Waiting(q, 1)], [ApprovedAt(0, q, 10)]),
      World({}), [Carried(Payload(cnic, "ordinary"), None, 1, Some(cnic))], [], [], {Post(DirectLane(0), q)}))
  {
    PostsBeside(q, cnic);
    var c, stale := Claim(2, 0, true, q), Carried(Payload(cnic, "ordinary"), None, 1, Some(cnic));
    var rows := Rows(QueuedAs(q.cnic, 5), Row(InFlight, 2), map[0 := Waiting(q, 1)], [ApprovedAt(0, q, 10)]);
    var s := Still(rows, World({0}), [stale], [Worker(c, Final(Unknown))], [], {Post(DirectLane(0), q)});
    var failed := Persisted(rows, c, Unknown);
    assert failed == rows.(event := QueuedAs(q.cnic, 5).(status := FailedRetryable), outbox := Row(FailedRetryable, 2));
    GoUnlocked(s, Persist(0), s.(rows := failed, workers := []));
    EnvironsUnlocked(s.(rows := failed, workers := []), failed.(event := ReleasedFor(q.cnic, 40)), World({}));
  }

  /**
   A claim made for one CNIC, left waiting while the row is claimed again and the
   approval posts another CNIC, is still handed to ordinary delivery: the split
   compares the posted CNIC with the punch's current one, not with the claim's.
   */
  lemma StaleClaimSendsAnotherCnic(q: Payload, cnic: string)
    requires cnic != q.cnic
    ensures exists s ::
      && Reachable(s) && Enabled(s, SplitClaim(0, false)) && Decided(s.rows)
      && Split(s.rows, s.world, s.carried[0].payload, false).1.ToOrdinary?
      && Reserved?(s.rows, Current(s.rows).item)
      && Current(s.rows).payload == q && s.carried[0].payload.cnic == cnic
  {
    PostsAndIsReleased(q, cnic);
    var rows := Rows(ReleasedFor(q.cnic, 40), Row(FailedRetryable, 2), map[0 := Waiting(q, 1)], [ApprovedAt(0, q, 10)]);
    var s := Still(rows, World({}), [Carried(Payload(cnic, "ordinary"), None, 1, Some(cnic))], [], [],
                   {Post(DirectLane(0), q)});
    assert Reachable(s) && Enabled(s, SplitClaim(0, false));
    assert AutomaticTakeover(rows, World({})) == TakenOver;
  }

  /** An approval's claim waits to be split while its row is recovered. */
  lemma WaitsUnderApproval(p: Payload)
    ensures Reachable(Still(
      Rows(QueuedAs(p.cnic, 5), Row(FailedRetryable, 1), map[0 := Waiting(p, 0)], [ApprovedAt(0, p, 10)]),
      World({0}), [Carried(p, Some(0), 1, Some(p.cnic))], [], [], {}))
  {
    QueuesApproval(p);
    var queued := Rows(QueuedAs(p.cnic, 5), Row(Pending, 0), map[0 := Waiting(p, 0)], [ApprovedAt(0, p, 10)]);
    var claimed, c := queued.(outbox := Row(InFlight, 1)), Carried(p, Some(0), 1, Some(p.cnic));
    SerialIsReachable(Still(queued, World({}), [], [], [], {}));
    EnvironsUnlocked(Still(queued, World({}), [], [], [], {}), queued, World({0}));
    GoUnlocked(Still(queued, World({0}), [], [], [], {}), ClaimRow(ANY_TIME),
        Still(claimed, World({0}), [c], [], [], {}));
    EnvironsUnlocked(Still(claimed, World({0}), [c], [], [], {}), claimed.(outbox := Row(FailedRetryable, 1)),
        World({0}));
  }

  /**
   A claim still waiting when its row is claimed again is not fenced: split afterwards
   it takes the newer attempt number and may write the row beside the newer claim.
   */
  lemma WaitingClaimIsNotFenced(p: Payload)
    ensures exists s ::
      && Reachable(s) && Enabled(s, SplitClaim(0, false)) && s.carried[0].attempt < Attempt(s.rows)
      && Split(s.rows, s.world, s.carried[0].payload, false).1.ToForced?
      && MayPersist(s.rows, Split(s.rows, s.world, s.carried[0].payload, false).1.claim)
  {
    WaitsUnderApproval(p);
    var recovered := Rows(QueuedAs(p.cnic, 5), Row(FailedRetryable, 1), map[0 := Waiting(p, 0)],
        [ApprovedAt(0, p, 10)]);
    var c, d := Carried(p, Some(0), 1, Some(p.cnic)), Carried(p, Some(0), 2, Some(p.cnic));
    var s := Still(recovered.(outbox := Row(InFlight, 2)), World({0}), [c, d], [], [], {});
    GoUnlocked(Still(recovered, World({0}), [c], [], [], {}), ClaimRow(ANY_TIME), s);
    assert Reachable(s) && Enabled(s, SplitClaim(0, false));
  }
}
