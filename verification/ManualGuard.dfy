/**
 The guards that keep a held punch from being queued or acknowledged without an
 approval: the session hook before every flush, and the two PostgreSQL triggers that
 see what the hook wrote.
 */
module ManualGuard {
  import opened Options

  datatype Status =
    | BlockedIdentity | QuarantinedReuse | WaitingForSnapshot
    | Pending | InFlight | FailedRetryable | Retrying | Acked | AckedCheck | OtherStatus

  /** `released` stands for the synced-CNIC release markers: resolution status, repair reason, CNIC and clock. */
  datatype Row = Row(status: Status, required: bool, released: bool)

  /** The replaced values the session still remembers for a changed row, if any. */
  datatype Prior = Prior(status: Option<Status>, required: Option<bool>)

  datatype Outbox = Outbox(event: Option<int>, status: Status)

  predicate Held(s: Status) {
    s == BlockedIdentity || s == QuarantinedReuse || s == WaitingForSnapshot
  }

  predicate Delivering(s: Status) {
    s == Pending || s == InFlight || s == FailedRetryable || s == Retrying || s == Acked || s == AckedCheck
  }

  predicate Releases(row: Row) {
    row.released && !Held(row.status)
  }

  predicate RequiresApproval(row: Row) {
    !Releases(row) && (row.required || Held(row.status))
  }

  predicate Authorized(row: Row, approved: bool) {
    !RequiresApproval(row) || approved
  }

  function Flagged(row: Row, prior: Prior): Row {
    if !RequiresApproval(row) then row.(required := false)
    else if Held(row.status) || (prior.status.Some? && Held(prior.status.value)) || prior.required == Some(true) then
      row.(required := true)
    else row
  }

  /** What the hook leaves of a written row. */
  function Guarded(row: Row, prior: Prior, approved: bool): Row {
    var r := Flagged(row, prior);
    if r.required && Delivering(r.status) && !Authorized(r, approved) then r.(status := BlockedIdentity) else r
  }

  function GuardedOutbox(o: Outbox, events: map<int, Row>, approved: set<int>): Outbox {
    if Delivering(o.status) && o.event.Some? && o.event.value in events
       && !Authorized(events[o.event.value], o.event.value in approved)
    then o.(status := BlockedIdentity) else o
  }

  /** An outbox row is deliverable only while its event needs no approval or has one. */
  predicate FollowsEvent(o: Outbox, events: map<int, Row>, approved: set<int>) {
    Delivering(o.status) && o.event.Some? && o.event.value in events ==>
      (RequiresApproval(events[o.event.value]) ==> o.event.value in approved)
  }

  class FlushSession {
    /** Every event the session can load, with the values about to be written for those in `dirty`. */
    var events: map<int, Row>
    var outboxes: seq<Outbox>

    /** The two loops of the hook: events first, then outbox rows against the guarded events. */
    method RetainApprovalRequirement(dirty: seq<int>, priors: int -> Prior, approved: set<int>)
      requires forall i, j :: 0 <= i < j < |dirty| ==> dirty[i] != dirty[j]
      requires forall i :: 0 <= i < |dirty| ==> dirty[i] in events
      modifies this
      ensures events.Keys == old(events).Keys
      ensures forall e :: e in events ==>
                events[e] == if e in dirty then Guarded(old(events)[e], priors(e), e in approved) else old(events)[e]
      ensures |outboxes| == |old(outboxes)|
      ensures forall i :: 0 <= i < |outboxes| ==> outboxes[i] == GuardedOutbox(old(outboxes)[i], events, approved)
      ensures forall i :: 0 <= i < |outboxes| ==> FollowsEvent(outboxes[i], events, approved)
    {
      ghost var before, rows := events, outboxes;
      for n := 0 to |dirty|
        invariant outboxes == rows && events.Keys == before.Keys
        invariant forall e :: e in events ==>
                    events[e] == if e in dirty[..n] then Guarded(before[e], priors(e), e in approved) else before[e]
      {
        var e := dirty[n];
        var row := events[e];
        if !RequiresApproval(row) {
          row := row.(required := false);
        } else if Held(row.status) || (priors(e).status.Some? && Held(priors(e).status.value))
                  || priors(e).required == Some(true) {
          row := row.(required := true);
        }
        if row.required && Delivering(row.status) {
          if !Authorized(row, e in approved) { row := row.(status := BlockedIdentity); }
        }
        assert dirty[..n + 1] == dirty[..n] + [e];
        events := events[e := row];
      }
      assert dirty[..|dirty|] == dirty;
      ghost var guarded := events;
      for n := 0 to |outboxes|
        invariant events == guarded && |outboxes| == |rows|
        invariant forall i :: 0 <= i < n ==> outboxes[i] == GuardedOutbox(rows[i], events, approved)
        invariant forall i :: n <= i < |rows| ==> outboxes[i] == rows[i]
      {
        var o := outboxes[n];
        if Delivering(o.status) && o.event.Some? && o.event.value in events {
          if !Authorized(events[o.event.value], o.event.value in approved) {
            outboxes := outboxes[n := o.(status := BlockedIdentity)];
          }
        }
      }
      forall i | 0 <= i < |outboxes| ensures FollowsEvent(outboxes[i], events, approved) {
        OutboxFollowsEvent(rows[i], events, approved);
      }
    }
  }

  // ---- One flush ----

  /** The remembered old values decide nothing: the flag a flush leaves is whether the written row needs approval. */
  lemma FlagIsWhetherApprovalIsNeeded(row: Row, prior: Prior, approved: bool)
    ensures Guarded(row, prior, approved).required == RequiresApproval(row)
    ensures Guarded(row, prior, approved) == Guarded(row, Prior(None, None), approved)
  {
  }

  lemma OutboxFollowsEvent(o: Outbox, events: map<int, Row>, approved: set<int>)
    ensures FollowsEvent(GuardedOutbox(o, events, approved), events, approved)
  {
  }

  /** Flagged or held, and without the markers of a release that took it out of the held states. */
  predicate NeedsApproval(row: Row) {
    var held := row.status in {BlockedIdentity, QuarantinedReuse, WaitingForSnapshot};
    held || (row.required && !row.released)
  }

  /** A flush changes two things of a row: the flag is set right, and unapproved delivery is held again. */
  lemma GuardSays(row: Row, prior: Prior, approved: bool)
    ensures Guarded(row, prior, approved)
            == row.(required := NeedsApproval(row),
                    status := if NeedsApproval(row) && Delivering(row.status) && !approved then BlockedIdentity
                              else row.status)
  {
  }

  /** An outbox row is held again exactly when it would deliver an event that needs an approval and has none. */
  lemma OutboxGuardSays(o: Outbox, events: map<int, Row>, approved: set<int>)
    ensures var e := o.event;
            GuardedOutbox(o, events, approved)
            == if Delivering(o.status) && e.Some? && e.value in events && NeedsApproval(events[e.value])
                  && e.value !in approved
               then Outbox(e, BlockedIdentity) else o
  {
  }

  // ---- Whole write histories of one punch ----

  datatype Write = Write(row: Row, prior: Prior, approved: bool)

  function After(writes: seq<Write>, k: nat): Row
    requires k < |writes|
  {
    Guarded(writes[k].row, writes[k].prior, writes[k].approved)
  }

  /** The writer did not touch the flag the previous flush left. */
  predicate LeavesFlag(writes: seq<Write>, k: nat)
    requires 0 < k < |writes|
  {
    writes[k].row.required == After(writes, k - 1).required
  }

  /** The flag stays set from a held flush on, as long as no flush carries the release markers. */
  lemma {:induction false} FlagIsSticky(writes: seq<Write>, i: nat, j: nat)
    requires i <= j < |writes| && Held(After(writes, i).status)
    requires forall k :: i < k <= j ==> LeavesFlag(writes, k) && !Releases(writes[k].row)
    ensures After(writes, j).required
  {
    if i < j {
      FlagIsSticky(writes, i, j - 1);
      assert LeavesFlag(writes, j);
    }
  }

  /**
   A punch once flushed as held is never later flushed as queued, in flight or acknowledged, unless an approval is
   recorded at that flush or some flush since the hold carried the release markers.
   */
  lemma HeldIsNeverDeliveredUnapproved(writes: seq<Write>, i: nat, j: nat)
    requires i < j < |writes| && Held(After(writes, i).status) && Delivering(After(writes, j).status)
    requires forall k :: i < k <= j ==> LeavesFlag(writes, k)
    ensures writes[j].approved || exists k :: i < k <= j && Releases(writes[k].row)
  {
    if !writes[j].approved && !exists k :: i < k <= j && Releases(writes[k].row) {
      FlagIsSticky(writes, i, j);
      assert false;
    }
  }

  // ---- Writers that do touch the flag ----

  /** The write drops the flag while it moves the row out of the held states. */
  predicate ClearsFlag(row: Row) {
    !row.required && !Held(row.status)
  }

  /**
   For any writer, an unapproved flush that proposes delivery goes through exactly when the write carries the release
   markers or clears the flag; otherwise the row is held again with its flag set.
   */
  lemma DeliveredExactlyWhenReleasedOrCleared(w: Write)
    requires Delivering(w.row.status) && !w.approved
    ensures var after := Guarded(w.row, w.prior, w.approved);
            if Releases(w.row) || ClearsFlag(w.row) then after == w.row.(required := false)
            else after == w.row.(status := BlockedIdentity, required := true)
  {
  }

  /** The hook alone would let a writer that clears the flag take a held punch to Oracle's queue with no approval. */
  lemma HookAloneTrustsClearedFlag()
    ensures exists writes: seq<Write> ::
              |writes| == 2 && Held(After(writes, 0).status) && After(writes, 1).status == Pending
              && !writes[1].approved && !Releases(writes[1].row)
              && writes[1].prior == Prior(Some(BlockedIdentity), Some(true))
  {
    var held := Write(Row(BlockedIdentity, false, false), Prior(None, None), false);
    var cleared := Write(Row(Pending, false, false), Prior(Some(BlockedIdentity), Some(true)), false);
    var writes := [held, cleared];
    assert Held(After(writes, 0).status) && After(writes, 1).status == Pending;
  }

  // ---- The database's own guards ----

  /** What approves the punch when the transaction commits; a force decision acknowledges only after a content match. */
  datatype Approval = Unapproved | RepairApproval | ForceDecision(contentMatched: bool)

  /** `verified`: the database re-derives the release from the roster and the retained intervals. */
  datatype Commit = Commit(write: Row, prior: Prior, approval: Approval, verified: bool)

  /** The database's proof starts from the same release markers the hook looks at. */
  predicate Proves(c: Commit) {
    c.verified ==> c.write.released
  }

  /** The trigger before the write: a held row, or a flagged one without a verified release, is flagged. */
  function Retained(stored: Option<Row>, row: Row, verified: bool): Row {
    if Held(row.status) || (stored.Some? && stored.value.required && !verified) then row.(required := true) else row
  }

  /** The deferred constraint: a flagged row may not be committed for delivery without its approval. */
  predicate Rejected(row: Row, approval: Approval) {
    row.required && Delivering(row.status)
    && (approval.Unapproved? || (approval == ForceDecision(false) && (row.status == Acked || row.status == AckedCheck)))
  }

  /** One transaction: the hook, the trigger, and the constraint that undoes all of it. */
  function Committed(stored: Option<Row>, c: Commit): Option<Row> {
    var row := Retained(stored, Guarded(c.write, c.prior, !c.approval.Unapproved?), c.verified);
    if Rejected(row, c.approval) then stored else Some(row)
  }

  function Stored(commits: seq<Commit>, k: nat): Option<Row>
    requires k <= |commits|
  {
    if k == 0 then None else Committed(Stored(commits, k - 1), commits[k - 1])
  }

  /**
   Whatever the writer did to the flag, an unapproved transaction delivers a flagged punch exactly when the database
   verifies its release; otherwise the punch is held again or the transaction is undone.
   */
  lemma DeliveredExactlyWhenVerified(stored: Row, c: Commit)
    requires stored.required && Proves(c) && c.approval.Unapproved? && Delivering(c.write.status)
    ensures Committed(Some(stored), c) ==
            if c.verified then Some(c.write.(required := false))
            else if c.write.required && !Releases(c.write) then
              Some(c.write.(status := BlockedIdentity, required := true))
            else Some(stored)
  {
  }

  lemma {:induction false} StoredFlagIsSticky(commits: seq<Commit>, i: nat, j: nat)
    requires i <= j <= |commits| && Stored(commits, i).Some? && Held(Stored(commits, i).value.status)
    requires forall k :: i <= k < j ==> !commits[k].verified
    ensures Stored(commits, j).Some? && Stored(commits, j).value.required
  {
    if i < j {
      StoredFlagIsSticky(commits, i, j - 1);
    } else {
      HeldIsStoredFlagged(commits, i);
    }
  }

  lemma {:induction false} HeldIsStoredFlagged(commits: seq<Commit>, i: nat)
    requires i <= |commits| && Stored(commits, i).Some? && Held(Stored(commits, i).value.status)
    ensures Stored(commits, i).value.required
  {
    if 0 < i && Stored(commits, i) == Stored(commits, i - 1) {
      HeldIsStoredFlagged(commits, i - 1);
    }
  }

  /**
   Over any history of transactions by any writers, a punch once stored as held enters delivery only in a transaction
   that carries its approval (with a content match if a force decision acknowledges it), or after the database itself
   verified a release since the hold.
   */
  lemma HeldPunchNeedsApprovalOrProof(commits: seq<Commit>, i: nat, j: nat)
    requires i <= j < |commits| && Stored(commits, i).Some? && Held(Stored(commits, i).value.status)
    requires Stored(commits, j + 1).Some? && Delivering(Stored(commits, j + 1).value.status)
    requires Stored(commits, j) != Stored(commits, j + 1)
    ensures (exists k :: i <= k <= j && commits[k].verified)
            || commits[j].approval.RepairApproval?
            || (commits[j].approval.ForceDecision?
                && (Stored(commits, j + 1).value.status in {Acked, AckedCheck} ==> commits[j].approval.contentMatched))
  {
    if !exists k :: i <= k <= j && commits[k].verified {
      StoredFlagIsSticky(commits, i, j + 1);
      assert !Rejected(Stored(commits, j + 1).value, commits[j].approval);
    }
  }

  /** Over any history, a punch is flagged only if some transaction wrote it held or flagged. */
  lemma {:induction false} FlaggedForACause(commits: seq<Commit>, j: nat)
    requires j <= |commits| && Stored(commits, j).Some? && Stored(commits, j).value.required
    ensures exists k :: 0 <= k < j && (commits[k].write.required || Held(commits[k].write.status))
  {
    var before, c := Stored(commits, j - 1), commits[j - 1];
    if before.Some? && before.value.required {
      FlaggedForACause(commits, j - 1);
    } else if Stored(commits, j) != before {
      GuardSays(c.write, c.prior, !c.approval.Unapproved?);
      assert c.write.required || Held(c.write.status);
    }
  }

  /** An approved transaction is stored as written; a force decision acknowledges only with its content match. */
  lemma ApprovedIsStored(stored: Option<Row>, c: Commit)
    requires !c.approval.Unapproved?
    ensures var acks := c.write.status == Acked || c.write.status == AckedCheck;
            c.approval.RepairApproval? || !acks || c.approval.contentMatched ==>
              Committed(stored, c).Some? && Committed(stored, c).value.status == c.write.status
  {
  }
}
