/**
 The database rows of one punch as the direct Oracle delivery sees them, and the
 effect of each transaction on them. A saved approval validates while the punch
 carries the CNIC it carried at approval, the frozen payload names that CNIC if
 there is one, and everything read from other tables (roster, retained evidence,
 the other source facts) agrees too; `World.valid` holds the run items for which
 that last part does.
 */
module DeliveryRows {
  import opened Options

  datatype Payload = Payload(cnic: string, rest: string)

  datatype Status =
    | Pending | InFlight | FailedRetryable | Retrying
    | BlockedIdentity | WaitingForSnapshot
    | QuarantinedConflict | QuarantinedRejected | QuarantinedTime | OtherReview
    | Acked | AckedCheck

  datatype ConfirmationPath = NoPath | ForceContentCheck | OtherPath

  datatype Event = Event(
    status: Status, confirmed: bool, path: ConfirmationPath, requiresApproval: bool,
    resolvedAt: Option<int>, cnic: Option<string>, hashAgrees: bool)

  /** `uncertain`: last_error is PREVIOUS_POST_UNCERTAIN. */
  datatype Outbox = Outbox(status: Status, attempt: nat, uncertain: bool)

  datatype ItemStatus = Ready | WaitingOracle | NeedsReview | Skipped | Confirmed

  /**
   `source`: the CNIC the punch carried when the administrator approved (part of the
   source digest). `attempts`: direct_post_attempts, the send intents saved before a POST.
   */
  datatype Item = Item(
    status: ItemStatus, payload: Payload, source: Option<string>, attempts: nat, verified: Option<Payload>)

  datatype Decision = Decision(item: nat, direct: bool, payload: Payload, source: Option<string>, createdAt: int)

  datatype Rows = Rows(event: Event, outbox: Option<Outbox>, items: map<nat, Item>, decisions: seq<Decision>)

  datatype World = World(valid: set<nat>)

  datatype Verdict = Match | Missing | Mismatch | ImmutableMismatch | Collision | Changed | Rejected | Unknown

  /** A forced claim as the worker holds it in memory between transactions. */
  datatype Claim = Claim(attempt: nat, item: nat, direct: bool, payload: Payload)

  predicate Decided(r: Rows) {
    r.decisions != []
  }

  function Current(r: Rows): Decision
    requires Decided(r)
  {
    r.decisions[|r.decisions| - 1]
  }

  predicate InFlightRow(r: Rows) {
    r.outbox.Some? && r.outbox.value.status == InFlight
  }

  predicate OwnsRow(r: Rows, c: Claim) {
    InFlightRow(r) && r.outbox.value.attempt == c.attempt
  }

  predicate Acknowledged(e: Event) {
    e.status in {Acked, AckedCheck} && e.confirmed
  }

  /** A CNIC saved with the punch is the one sent; without one the approval chose it. */
  predicate Fits(source: Option<string>, p: Payload) {
    source.Some? ==> p.cnic == source.value
  }

  /** The frozen payload while the approval still validates. */
  function Approved(r: Rows, w: World, d: Decision): Option<Payload> {
    if r.event.cnic == d.source && Fits(d.source, d.payload) && d.item in w.valid then Some(d.payload) else None
  }

  /** A missing item counts as attempted. */
  predicate PostAttempted(r: Rows, item: nat) {
    item !in r.items || r.items[item].attempts > 0
  }

  predicate ReleasedAutomaticallyAfter(r: Rows, d: Decision) {
    d.direct && r.event.resolvedAt.Some? && !r.event.requiresApproval && r.event.resolvedAt.value > d.createdAt
  }

  predicate PostedCnicIsTodaysRelease(r: Rows, d: Decision) {
    r.event.cnic == Some(d.payload.cnic) && r.event.hashAgrees
  }

  datatype Takeover = StillOwned | TakenOver | PostUncertain

  function AutomaticTakeover(r: Rows, w: World): Takeover {
    if !Decided(r) || !ReleasedAutomaticallyAfter(r, Current(r)) then StillOwned
    else if Approved(r, w, Current(r)).Some? then StillOwned
    else if PostAttempted(r, Current(r).item) && !PostedCnicIsTodaysRelease(r, Current(r)) then PostUncertain
    else TakenOver
  }

  datatype Block = TakeoverUncertain | AlreadyDelivering | PreviousPostUncertain

  predicate StoppedAndHeld(r: Rows, d: Decision) {
    d.item in r.items && r.items[d.item].status == NeedsReview
    && r.event.status in {BlockedIdentity, WaitingForSnapshot}
  }

  /** Why the current approval may not be replaced; None when it may. */
  function ReplacementBlock(r: Rows, w: World): Option<Block>
    requires Decided(r)
  {
    var d := Current(r);
    if d.direct && r.event.status == QuarantinedConflict && r.outbox.Some? && r.outbox.value.uncertain then
      Some(TakeoverUncertain)
    else if !(d.direct
              && r.event.status in {BlockedIdentity, WaitingForSnapshot, Pending, FailedRetryable, Retrying}
              && !InFlightRow(r) && !r.event.confirmed
              && !ReleasedAutomaticallyAfter(r, d)
              && (StoppedAndHeld(r, d) || Approved(r, w, d).None?)) then
      Some(AlreadyDelivering)
    else if PostAttempted(r, d.item) then Some(PreviousPostUncertain)
    else None
  }

  /** What re-deriving a READY item finds under the locks. */
  datatype QueueCheck = SourceChanged | Refused | Unreadable | PayloadChanged | Sound

  function SetItemStatus(r: Rows, i: nat, status: ItemStatus): Rows
    requires i in r.items
  {
    r.(items := r.items[i := r.items[i].(status := status)])
  }

  function Attempt(r: Rows): nat {
    if r.outbox.Some? then r.outbox.value.attempt else 0
  }

  /** One READY item becomes the current approval, is skipped, or waits for the claim in flight. */
  function Queued(r: Rows, w: World, i: nat, check: QueueCheck, now: int): Rows
    requires i in r.items
  {
    if check.SourceChanged? || r.event.cnic != r.items[i].source || Acknowledged(r.event) then
      SetItemStatus(r, i, Skipped)
    else if Decided(r) && ReplacementBlock(r, w).Some? then SetItemStatus(r, i, Skipped)
    else if InFlightRow(r) then r
    else if check.Refused? then SetItemStatus(r, i, Skipped)
    else if check.Unreadable? then SetItemStatus(r, i, NeedsReview)
    else if check.PayloadChanged? || !Fits(r.items[i].source, r.items[i].payload) then SetItemStatus(r, i, Skipped)
    else
      Rows(
        r.event.(status := Pending, requiresApproval := true),
        Some(Outbox(Pending, Attempt(r), false)),
        r.items[i := r.items[i].(status := WaitingOracle)],
        r.decisions + [Decision(i, true, r.items[i].payload, r.items[i].source, now)])
  }

  /** A force release approves the punch for today's terminal user (another policy). */
  function ForceQueued(r: Rows, i: nat, p: Payload, cnic: string, now: int): Rows {
    Rows(
      r.event.(status := Pending, requiresApproval := true, cnic := Some(cnic), hashAgrees := true,
               resolvedAt := Some(now)),
      Some(Outbox(Pending, Attempt(r), false)),
      r.items[i := Item(WaitingOracle, p, Some(cnic), 0, None)],
      r.decisions + [Decision(i, false, p, Some(cnic), now)])
  }

  /** What ordinary delivery, or a force release, would send; None: the row is held. */
  datatype ClaimCheck = ClaimCheck(timeRefused: bool, ordinary: Option<string>, forceValid: bool)

  function Held(r: Rows, status: Status, uncertain: bool): Rows
    requires r.outbox.Some?
  {
    r.(event := r.event.(status := status),
       outbox := Some(r.outbox.value.(status := status, uncertain := uncertain)))
  }

  function Started(r: Rows): Rows
    requires r.outbox.Some?
  {
    r.(outbox := Some(Outbox(InFlight, r.outbox.value.attempt + 1, false)))
  }

  /** The rows after the worker claims the outbox row, and the payload it carries away. */
  function Claimed(r: Rows, w: World, k: ClaimCheck): (Rows, Option<Payload>)
    requires r.outbox.Some?
  {
    var takeover := AutomaticTakeover(r, w);
    if Decided(r) && Current(r).direct && takeover != TakenOver then
      if k.timeRefused then (Held(r, QuarantinedTime, false), None)
      else if takeover == PostUncertain then
        (var h := Held(r, QuarantinedConflict, true);
         if Current(r).item in r.items then SetItemStatus(h, Current(r).item, NeedsReview) else h, None)
      else if Approved(r, w, Current(r)).None? then (Held(r, BlockedIdentity, false), None)
      else (Started(r), Approved(r, w, Current(r)))
    else if k.ordinary.None? || r.event.cnic.None? then (Held(r, BlockedIdentity, false), None)
    else if Decided(r) && takeover != TakenOver then
      if k.forceValid then (Started(r), Some(Current(r).payload)) else (Held(r, BlockedIdentity, false), None)
    else (Started(r), Some(Payload(r.event.cnic.value, k.ordinary.value)))
  }

  datatype Handover = ToOrdinary(payload: Payload) | ToForced(claim: Claim) | Blocked

  /** `split_claims` on one claim: a separate transaction that decides the lane again. */
  function Split(r: Rows, w: World, carried: Payload, forceValid: bool): (Rows, Handover)
    requires r.outbox.Some?
  {
    if !Decided(r) || AutomaticTakeover(r, w) == TakenOver then (r, ToOrdinary(carried))
    else
      var d := Current(r);
      var payload := if d.direct then Approved(r, w, d) else if forceValid then Some(d.payload) else None;
      if payload != Some(carried) then
        (r.(event := r.event.(status := BlockedIdentity),
            outbox := Some(r.outbox.value.(status := BlockedIdentity, uncertain := false))), Blocked)
      else (r, ToForced(Claim(r.outbox.value.attempt, d.item, d.direct, carried)))
  }

  predicate StillAuthorized(r: Rows, w: World, c: Claim, forceValid: bool) {
    OwnsRow(r, c) && Decided(r) && Current(r).item == c.item
    && (if Current(r).direct then Approved(r, w, Current(r))
        else if forceValid then Some(Current(r).payload) else None) == Some(c.payload)
  }

  /** Whether the send intent of this claim may be saved. */
  predicate MayReserve(r: Rows, c: Claim, verdict: Verdict) {
    OwnsRow(r, c) && Decided(r) && Current(r).item == c.item && c.item in r.items
    && (r.items[c.item].attempts > 0 ==> verdict == Missing)
  }

  function ReservedRows(r: Rows, c: Claim, verdict: Verdict): Rows {
    if MayReserve(r, c, verdict) then
      r.(items := r.items[c.item := r.items[c.item].(attempts := r.items[c.item].attempts + 1)])
    else r
  }

  predicate MayPersist(r: Rows, c: Claim) {
    OwnsRow(r, c) && Decided(r) && Current(r).item == c.item && Current(r).payload == c.payload
    && c.item in r.items
  }

  function Settled(r: Rows, i: nat, status: Status, item: Item): Rows
    requires r.outbox.Some?
  {
    r.(event := r.event.(status := status),
       outbox := Some(r.outbox.value.(status := status, uncertain := false)),
       items := r.items[i := item])
  }

  /** The result of a forced claim, applied only while the claim still owns the row. */
  function Persisted(r: Rows, c: Claim, verdict: Verdict): Rows {
    if !MayPersist(r, c) then r
    else
      var item := r.items[c.item];
      match verdict
      case Match =>
        var s := Settled(r, c.item, AckedCheck, item.(status := Confirmed, verified := Some(c.payload)));
        s.(event := s.event.(confirmed := true, path := ForceContentCheck))
      case Mismatch | ImmutableMismatch | Collision | Changed =>
        Settled(r, c.item, QuarantinedConflict, item.(status := NeedsReview))
      case Rejected => Settled(r, c.item, QuarantinedRejected, item.(status := NeedsReview))
      case Missing | Unknown => Settled(r, c.item, FailedRetryable, item)
  }

  /** The stored rows of one punch; each method is one transaction on them. */
  class PunchStore {
    var event: Event
    var outbox: Option<Outbox>
    var items: map<nat, Item>
    var decisions: seq<Decision>

    function State(): Rows
      reads this
    {
      Rows(event, outbox, items, decisions)
    }

    method Finish(i: nat, status: ItemStatus)
      requires i in items
      modifies this`items
      ensures items == old(items)[i := old(items)[i].(status := status)]
    {
      items := items[i := items[i].(status := status)];
    }

    method Queue(w: World, i: nat, check: QueueCheck, now: int)
      requires i in items
      modifies this
      ensures State() == Queued(old(State()), w, i, check, now)
    {
      if check.SourceChanged? || event.cnic != items[i].source || Acknowledged(event) {
        Finish(i, Skipped);
        return;
      }
      if decisions != [] && ReplacementBlock(State(), w).Some? {
        Finish(i, Skipped);
        return;
      }
      if outbox.Some? && outbox.value.status == InFlight {
        return;
      }
      if check.Refused? {
        Finish(i, Skipped);
        return;
      }
      if check.Unreadable? {
        Finish(i, NeedsReview);
        return;
      }
      if check.PayloadChanged? || !Fits(items[i].source, items[i].payload) {
        Finish(i, Skipped);
        return;
      }
      decisions := decisions + [Decision(i, true, items[i].payload, items[i].source, now)];
      event := event.(requiresApproval := true, status := Pending);
      if outbox.None? {
        outbox := Some(Outbox(Pending, 0, false));
      } else {
        outbox := Some(outbox.value.(status := Pending, uncertain := false));
      }
      Finish(i, WaitingOracle);
    }

    method Reserve(c: Claim, verdict: Verdict) returns (ok: bool)
      modifies this`items
      ensures State() == ReservedRows(old(State()), c, verdict)
      ensures ok == MayReserve(old(State()), c, verdict)
    {
      if outbox.None? || outbox.value.status != InFlight || outbox.value.attempt != c.attempt {
        return false;
      }
      if decisions == [] || decisions[|decisions| - 1].item != c.item || c.item !in items {
        return false;
      }
      var prior := items[c.item].attempts;
      if prior > 0 && verdict != Missing {
        return false;
      }
      items := items[c.item := items[c.item].(attempts := prior + 1)];
      return true;
    }

    method Persist(c: Claim, verdict: Verdict)
      modifies this
      ensures State() == Persisted(old(State()), c, verdict)
    {
      if outbox.None? || outbox.value.status != InFlight || outbox.value.attempt != c.attempt {
        return;
      }
      if decisions == [] || decisions[|decisions| - 1].item != c.item || c.item !in items {
        return;
      }
      if decisions[|decisions| - 1].payload != c.payload {
        return;
      }
      var status := FailedRetryable;
      match verdict {
        case Match =>
          status := AckedCheck;
          event := event.(confirmed := true, path := ForceContentCheck);
          items := items[c.item := items[c.item].(status := Confirmed, verified := Some(c.payload))];
        case Mismatch | ImmutableMismatch | Collision | Changed =>
          status := QuarantinedConflict;
          Finish(c.item, NeedsReview);
        case Rejected =>
          status := QuarantinedRejected;
          Finish(c.item, NeedsReview);
        case Missing | Unknown =>
          items := items[c.item := items[c.item]];
      }
      event := event.(status := status);
      outbox := Some(outbox.value.(status := status, uncertain := false));
    }

    method SplitClaim(w: World, carried: Payload, forceValid: bool) returns (h: Handover)
      requires outbox.Some?
      modifies this`event, this`outbox
      ensures (State(), h) == Split(old(State()), w, carried, forceValid)
    {
      if decisions == [] || AutomaticTakeover(State(), w) == TakenOver {
        return ToOrdinary(carried);
      }
      var d := decisions[|decisions| - 1];
      var payload := if d.direct then Approved(State(), w, d) else if forceValid then Some(d.payload) else None;
      if payload != Some(carried) {
        event := event.(status := BlockedIdentity);
        outbox := Some(outbox.value.(status := BlockedIdentity, uncertain := false));
        return Blocked;
      }
      return ToForced(Claim(outbox.value.attempt, d.item, d.direct, carried));
    }
  }
}
