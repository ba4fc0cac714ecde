/**
 Which CNIC ADD's retained records name for the time of a punch, and what an
 administrator may be offered. CNICs appear as their keyed lookup hashes.
 */
module PunchTimeIdentity {
  import opened Options
  import opened IdentityRecords

  const NEAR_RECORD_GAP := 1800

  datatype Event = Event(id: int, uid: string, captured: Option<string>, nameDiffers: bool, when: int)

  datatype User = User(id: int, key: string, uid: string, conflict: bool)

  datatype Tombstone = Tombstone(deviceUser: int, cnic: Option<string>, createdAt: int)

  /** The terminal user the punch was linked to at ingest, when it is not today's. */
  datatype Prior = Prior(cnic: Option<string>)

  datatype Evidence = Evidence(
    covering: seq<Record>, before: Option<Record>, after: Option<Record>,
    tombstones: seq<Tombstone>, earlierDeletions: seq<Tombstone>,
    prior: Option<Prior>, truncated: bool, conflictResolved: bool)

  datatype State = MatchesCurrent | Differs | Conflict | ChangedNearPunch | Ambiguous | NoRecord

  datatype Signal =
    | RevokedRecord | OtherUidRecord | CapturedDiffers | CapturedMatches | PreviousHolderDeleted
    | LinkedToOtherUser | UidDiffers | ConflictUnresolved | CnicChangedNearPunch | RecordsTruncated
    | BeforeFirstObservation | GapBridged | NameDiffers | HolderDeletedBeforePunch

  datatype Position = Covered | NoRecords | BeforeFirstRecord | BetweenRecords | AfterLastRecord

  datatype Basis = NoBasis | CoveringRecord | BridgedGap | RecordBeforePunch

  datatype Identity = Identity(
    state: State, cnic: Option<string>, interval: Option<Record>, hashes: set<string>, unknownHolder: bool,
    signals: set<Signal>, continuity: bool, good: seq<Record>, currentNearby: bool, position: Position, basis: Basis)

  predicate UidMatches(e: Event, u: Option<User>) {
    u.None? || e.uid == "" || u.value.uid == "" || e.uid == u.value.uid
  }

  predicate UidOk(e: Event, r: Record) {
    e.uid == "" || r.uid == e.uid
  }

  predicate TodaysRecord(r: Record, u: Option<User>) {
    u.Some? && r.deviceUser == u.value.id && r.uid == u.value.uid
  }

  predicate BridgesGap(e: Event, before: Record, after: Record) {
    before.cnic == after.cnic && before.deviceUser == after.deviceUser && before.uid == after.uid
    && !before.revoked && !after.revoked && UidOk(e, before) && UidOk(e, after)
  }

  /** No interval covers the punch and the terminal captured no CNIC with it. */
  predicate Uncovered(e: Event, ev: Evidence) {
    ev.covering == [] && e.captured.None?
  }

  predicate Between(e: Event, ev: Evidence) {
    Uncovered(e, ev) && ev.before.Some? && ev.after.Some?
  }

  function CoveringHashes(rows: seq<Record>): set<string> {
    set r | r in rows :: r.cnic
  }

  function TombstoneHashes(rows: seq<Tombstone>): set<string> {
    set t | t in rows && t.cnic.Some? :: t.cnic.value
  }

  /** The records around an uncovered punch that name another CNIC. */
  function NearbyHashes(e: Event, current: string, ev: Evidence): set<string> {
    if !Uncovered(e, ev) then {}
    else
      (if ev.before.Some? && ev.before.value.cnic != current then {ev.before.value.cnic} else {})
      + (if ev.after.Some? && ev.after.value.cnic != current then {ev.after.value.cnic} else {})
  }

  /** Every CNIC named at or near the punch time. */
  function Hashes(e: Event, current: string, ev: Evidence): set<string> {
    CoveringHashes(ev.covering)
    + (if e.captured.Some? then {e.captured.value} else {})
    + TombstoneHashes(ev.tombstones)
    + (if ev.prior.Some? && ev.prior.value.cnic.Some? then {ev.prior.value.cnic.value} else {})
    + NearbyHashes(e, current, ev)
  }

  /** Another person whose CNIC ADD never had. */
  predicate UnknownHolder(ev: Evidence) {
    (exists t :: t in ev.tombstones && t.cnic.None?) || (ev.prior.Some? && ev.prior.value.cnic.None?)
  }

  /** The same terminal user and CNIC on both sides of a break. */
  function Bridge(e: Event, u: Option<User>, current: string, ev: Evidence): seq<Record> {
    if Between(e, ev) && BridgesGap(e, ev.before.value, ev.after.value)
       && (ev.before.value.cnic != current || TodaysRecord(ev.before.value, u))
    then [ev.before.value, ev.after.value] else []
  }

  datatype Change = Change(earlier: Option<Record>, currentNear: bool, refuted: bool)

  predicate HolderDeleted(e: Event, before: Record, deletions: seq<Tombstone>, tolerance: nat) {
    exists t :: t in deletions && t.deviceUser == before.deviceUser && before.until - tolerance <= t.createdAt < e.when
  }

  /** What an uncovered punch between the old CNIC's record and today's may use. */
  function ChangeAround(e: Event, u: Option<User>, before: Record, after: Record, deletions: seq<Tombstone>,
        tolerance: nat): Change {
    var refuted := HolderDeleted(e, before, deletions, tolerance);
    var oldNear := e.when - before.until <= NEAR_RECORD_GAP && !refuted;
    var oldUsable := oldNear && !before.revoked && UidOk(e, before) && TodaysRecord(before, u);
    if oldNear && !oldUsable then Change(None, false, refuted)
    else
      Change(if oldUsable then Some(before) else None,
             after.from - e.when <= NEAR_RECORD_GAP && !after.revoked && UidOk(e, after), refuted)
  }

  function Changed(e: Event, u: Option<User>, current: string, ev: Evidence, tolerance: nat): Change {
    if Between(e, ev) && !BridgesGap(e, ev.before.value, ev.after.value)
       && ev.before.value.cnic != current && ev.after.value.cnic == current
    then ChangeAround(e, u, ev.before.value, ev.after.value, ev.earlierDeletions, tolerance)
    else Change(None, false, false)
  }

  function PositionOf(e: Event, ev: Evidence): Position {
    if !Uncovered(e, ev) then Covered
    else if ev.before.Some? then (if ev.after.Some? then BetweenRecords else AfterLastRecord)
    else if ev.after.Some? then BeforeFirstRecord
    else NoRecords
  }

  function If(c: bool, s: Signal): set<Signal> {
    if c then {s} else {}
  }

  predicate AnyRevoked(rows: seq<Record>) {
    exists r :: r in rows && r.revoked
  }

  predicate AnyOtherUid(e: Event, rows: seq<Record>) {
    exists r :: r in rows && !UidOk(e, r)
  }

  /** Notes about the punch, its user and the records that cover it. */
  function PunchSignals(e: Event, u: Option<User>, current: string, ev: Evidence, revoked: bool,
        otherUid: bool): set<Signal> {
    If(!UidMatches(e, u), UidDiffers)
    + If(u.Some? && u.value.conflict && !ev.conflictResolved, ConflictUnresolved)
    + If(ev.truncated, RecordsTruncated)
    + If(revoked, RevokedRecord)
    + If(otherUid, OtherUidRecord)
    + If(e.captured == Some(current), CapturedMatches)
    + If(e.captured.Some? && e.captured.value != current, CapturedDiffers)
    + If(ev.tombstones != [], PreviousHolderDeleted)
    + If(ev.prior.Some?, LinkedToOtherUser)
    + If(u.Some? && e.nameDiffers, NameDiffers)
  }

  /** Notes about the records around an uncovered punch. */
  function NearbySignals(e: Event, u: Option<User>, current: string, ev: Evidence, tolerance: nat): set<Signal> {
    If(PositionOf(e, ev) == BeforeFirstRecord && ev.after.Some? && ev.after.value.from - e.when > tolerance,
       BeforeFirstObservation)
    + If(NearbyHashes(e, current, ev) != {} && !(Bridge(e, u, current, ev) != [] && ev.before.value.cnic != current),
         CnicChangedNearPunch)
    + If(Bridge(e, u, current, ev) != [], GapBridged)
    + If(Changed(e, u, current, ev, tolerance).refuted, HolderDeletedBeforePunch)
  }

  function Signals(e: Event, u: Option<User>, current: string, ev: Evidence, tolerance: nat): set<Signal> {
    PunchSignals(e, u, current, ev, AnyRevoked(ev.covering), AnyOtherUid(e, ev.covering))
    + NearbySignals(e, u, current, ev, tolerance)
  }

  const SOFT_SIGNALS: set<Signal> :=
    {RevokedRecord, OtherUidRecord, PreviousHolderDeleted, LinkedToOtherUser, UidDiffers, ConflictUnresolved}

  const REFUSING_SIGNALS: set<Signal> := {ConflictUnresolved, RecordsTruncated}

  function GoodCovering(e: Event, rows: seq<Record>): seq<Record> {
    if rows == [] then []
    else
      var last := rows[|rows| - 1];
      GoodCovering(e, rows[..|rows| - 1]) + if !last.revoked && UidOk(e, last) then [last] else []
  }

  function Newest(rows: seq<Record>): (r: Record)
    requires rows != []
    ensures r in rows && forall x :: x in rows ==> x.id <= r.id
  {
    if |rows| == 1 then rows[0]
    else
      var rest := Newest(rows[1..]);
      assert forall x :: x in rows ==> x == rows[0] || x in rows[1..];
      if rest.id > rows[0].id then rest else rows[0]
  }

  predicate NamesOnly(rows: seq<Record>, cnic: string) {
    forall r :: r in rows ==> r.cnic == cnic
  }

  /** The verdict on the facts gathered so far. */
  function Judge(e: Event, u: Option<User>, current: string, ev: Evidence, tolerance: nat,
                 hashes: set<string>, unknown: bool, signals: set<Signal>, good: seq<Record>): Identity {
    var position := PositionOf(e, ev);
    var plain := Identity(Conflict, None, None, hashes, unknown, signals, false, good, false, position, NoBasis);
    var change := Changed(e, u, current, ev, tolerance);
    if signals * REFUSING_SIGNALS != {} then plain
    else if good != [] && NamesOnly(good, good[0].cnic) && good[0].cnic != current then
      if hashes == {good[0].cnic} && !unknown then
        plain.(state := Differs, cnic := Some(good[0].cnic), interval := Some(Newest(good)),
               continuity := u.Some? && UidMatches(e, u) && ev.prior.None? && ev.tombstones == []
                             && (forall r :: r in good ==> TodaysRecord(r, u)),
               basis := if Bridge(e, u, current, ev) != [] then BridgedGap else CoveringRecord)
      else plain
    else if unknown || hashes - {current} != {} then
      if CnicChangedNearPunch in signals && |hashes - {current}| == 1 && !unknown
         && signals * {CapturedDiffers, PreviousHolderDeleted, LinkedToOtherUser} == {}
         && (change.currentNear || change.earlier.Some?)
      then
        plain.(state := ChangedNearPunch,
               cnic := if change.earlier.Some? then Some(change.earlier.value.cnic) else None,
               interval := change.earlier, currentNearby := change.currentNear,
               basis := if change.earlier.Some? then RecordBeforePunch else NoBasis)
      else plain
    else if (good != [] || e.captured == Some(current)) && signals * SOFT_SIGNALS == {} then
      plain.(state := MatchesCurrent)
    else if ev.covering != [] || signals * SOFT_SIGNALS != {} then plain.(state := Ambiguous)
    else plain.(state := NoRecord)
  }

  function Identify(e: Event, u: Option<User>, current: string, ev: Evidence, tolerance: nat): Identity {
    Judge(e, u, current, ev, tolerance, Hashes(e, current, ev), UnknownHolder(ev),
          Signals(e, u, current, ev, tolerance),
          GoodCovering(e, ev.covering) + Bridge(e, u, current, ev))
  }

  lemma {:induction false} GoodHas(e: Event, rows: seq<Record>)
    ensures forall r :: r in GoodCovering(e, rows) <==> r in rows && !r.revoked && UidOk(e, r)
  {
    if rows != [] {
      GoodHas(e, rows[..|rows| - 1]);
    }
  }

  lemma OneMoreCovering(e: Event, rows: seq<Record>, row: Record)
    ensures CoveringHashes(rows + [row]) == CoveringHashes(rows) + {row.cnic}
    ensures AnyRevoked(rows + [row]) == (AnyRevoked(rows) || row.revoked)
    ensures AnyOtherUid(e, rows + [row]) == (AnyOtherUid(e, rows) || !UidOk(e, row))
    ensures GoodCovering(e, rows + [row])
            == GoodCovering(e, rows) + (if !row.revoked && UidOk(e, row) then [row] else [])
  {
    assert (rows + [row])[..|rows|] == rows;
    assert row in rows + [row];
    if AnyRevoked(rows) {
      var r :| r in rows && r.revoked;
      assert r in rows + [row];
    }
    if AnyOtherUid(e, rows) {
      var r :| r in rows && !UidOk(e, r);
      assert r in rows + [row];
    }
  }

  /** What the covering intervals name and how far they can be trusted. */
  method ReadCovering(e: Event, rows: seq<Record>)
    returns (hashes: set<string>, revoked: bool, otherUid: bool, good: seq<Record>)
    ensures hashes == CoveringHashes(rows) && good == GoodCovering(e, rows)
    ensures revoked == AnyRevoked(rows) && otherUid == AnyOtherUid(e, rows)
  {
    hashes, revoked, otherUid, good := {}, false, false, [];
    for n := 0 to |rows|
      invariant hashes == CoveringHashes(rows[..n]) && good == GoodCovering(e, rows[..n])
      invariant revoked == AnyRevoked(rows[..n]) && otherUid == AnyOtherUid(e, rows[..n])
    {
      var row := rows[n];
      OneMoreCovering(e, rows[..n], row);
      assert rows[..n + 1] == rows[..n] + [row];
      hashes := hashes + {row.cnic};
      if row.revoked { revoked := true; }
      if !UidOk(e, row) { otherUid := true; }
      if !row.revoked && UidOk(e, row) { good := good + [row]; }
    }
    assert rows[..|rows|] == rows;
  }

  /** The deleted holders of the user ID or UID: their CNICs, and whether one is unknown. */
  method ReadTombstones(rows: seq<Tombstone>) returns (hashes: set<string>, unknown: bool)
    ensures hashes == TombstoneHashes(rows)
    ensures unknown == exists t :: t in rows && t.cnic.None?
  {
    hashes, unknown := {}, false;
    for n := 0 to |rows|
      invariant hashes == TombstoneHashes(rows[..n])
      invariant unknown == exists t :: t in rows[..n] && t.cnic.None?
    {
      var row := rows[n];
      assert rows[..n + 1] == rows[..n] + [row] && row in rows[..n + 1];
      if row.cnic.Some? { hashes := hashes + {row.cnic.value}; } else { unknown := true; }
    }
    assert rows[..|rows|] == rows;
  }

  /** `classify`: the facts are gathered record by record, then judged. */
  method Classify(e: Event, u: Option<User>, current: string, ev: Evidence, tolerance: nat) returns (id: Identity)
    ensures id == Identify(e, u, current, ev, tolerance)
  {
    var hashes, revoked, otherUid, good := ReadCovering(e, ev.covering);
    var holders, unknown := ReadHolders(ev);
    if e.captured.Some? { hashes := hashes + {e.captured.value}; }
    hashes := hashes + holders + NearbyHashes(e, current, ev);
    var signals := PunchSignals(e, u, current, ev, revoked, otherUid) + NearbySignals(e, u, current, ev, tolerance);
    assert hashes == Hashes(e, current, ev);
    id := Judge(e, u, current, ev, tolerance, hashes, unknown, signals, good + Bridge(e, u, current, ev));
  }

  /** The CNICs of deleted holders and of the user the punch was linked to, and whether one is unknown. */
  method ReadHolders(ev: Evidence) returns (hashes: set<string>, unknown: bool)
    ensures hashes == TombstoneHashes(ev.tombstones)
                      + if ev.prior.Some? && ev.prior.value.cnic.Some? then {ev.prior.value.cnic.value} else {}
    ensures unknown == UnknownHolder(ev)
  {
    hashes, unknown := ReadTombstones(ev.tombstones);
    if ev.prior.Some? {
      if ev.prior.value.cnic.Some? { hashes := hashes + {ev.prior.value.cnic.value}; } else { unknown := true; }
    }
  }

  /** The records a verdict may rest on: those that cover the punch and can be trusted, or the two sides of a break. */
  function Trusted(e: Event, u: Option<User>, current: string, ev: Evidence): seq<Record> {
    GoodCovering(e, ev.covering) + Bridge(e, u, current, ev)
  }

  /** Both UIDs are known and differ. */
  predicate OtherUid(a: string, b: string) {
    a != b && a != "" && b != ""
  }

  /** Every trusted record is today's own terminal user record, and nobody else ever held the ID or the punch. */
  ghost predicate SameUserEdited(e: Event, u: Option<User>, ev: Evidence, trusted: seq<Record>) {
    u.Some? && !OtherUid(e.uid, u.value.uid) && ev.prior.None? && ev.tombstones == []
    && forall r :: r in trusted ==> r.deviceUser == u.value.id && r.uid == u.value.uid
  }

  /** The old CNIC's record ended shortly before the punch and its holder was not deleted in between. */
  predicate EndedNearby(e: Event, ev: Evidence, tolerance: nat)
    requires ev.before.Some?
  {
    e.when - ev.before.value.until <= 1800
    && forall t :: t in ev.earlierDeletions && t.deviceUser == ev.before.value.deviceUser && t.createdAt < e.when ==>
         t.createdAt < ev.before.value.until - tolerance
  }

  /** That record may be sent: unrevoked, of the punch's UID and today's own user record. */
  predicate OldMayBeSent(e: Event, u: Option<User>, ev: Evidence, tolerance: nat)
    requires ev.before.Some?
  {
    var r := ev.before.value;
    EndedNearby(e, ev, tolerance) && !r.revoked && (e.uid != "" ==> r.uid == e.uid)
    && u.Some? && r.deviceUser == u.value.id && r.uid == u.value.uid
  }

  /** Today's CNIC may be sent: its record started shortly after, and no unusable old record lies closer. */
  predicate NewMayBeSent(e: Event, u: Option<User>, ev: Evidence, tolerance: nat)
    requires ev.before.Some? && ev.after.Some?
  {
    (EndedNearby(e, ev, tolerance) ==> OldMayBeSent(e, u, ev, tolerance))
    && ev.after.value.from - e.when <= 1800 && !ev.after.value.revoked
    && (e.uid != "" ==> ev.after.value.uid == e.uid)
  }

  /** The records could not all be read, or today's user has an unresolved duplicate. */
  predicate Refuses(u: Option<User>, ev: Evidence) {
    ev.truncated || (u.Some? && u.value.conflict && !ev.conflictResolved)
  }

  ghost predicate NamesOneOther(current: string, hashes: set<string>, trusted: seq<Record>) {
    exists c :: c != current && hashes == {c} && trusted != [] && NamesOnly(trusted, c)
  }

  /** The old CNIC's record lies before the punch and today's after it, and one of them is close enough to send. */
  predicate ChangeOffered(e: Event, u: Option<User>, current: string, ev: Evidence, tolerance: nat) {
    Between(e, ev) && ev.before.value.cnic != current && ev.after.value.cnic == current
    && (OldMayBeSent(e, u, ev, tolerance) || NewMayBeSent(e, u, ev, tolerance))
  }

  /** The records refuse, hide a holder, or name another CNIC without agreeing on it or on one change to today's. */
  ghost predicate Unsettled(e: Event, u: Option<User>, current: string, ev: Evidence, tolerance: nat) {
    Refuses(u, ev) || UnknownHolder(ev)
    || (!(Hashes(e, current, ev) <= {current})
        && !NamesOneOther(current, Hashes(e, current, ev), Trusted(e, u, current, ev))
        && (ev.tombstones != [] || ev.prior.Some? || !ChangeOffered(e, u, current, ev, tolerance)))
  }

  /** What each verdict promises about the whole evidence. */
  ghost predicate Supported(e: Event, u: Option<User>, current: string, ev: Evidence, tolerance: nat, id: Identity) {
    (id.state != Differs ==> !id.continuity) &&
    match id.state
    case MatchesCurrent =>
      id.hashes <= {current} && !id.unknownHolder && (e.captured == Some(current) || id.good != [])
      && (forall r :: r in ev.covering ==> r.cnic == current && !r.revoked && UidOk(e, r))
    case Differs =>
      id.cnic.Some? && id.cnic.value != current && id.hashes == {id.cnic.value} && !id.unknownHolder
      && id.interval.Some? && id.interval.value in id.good && id.interval.value.cnic == id.cnic.value
      && (forall r :: r in id.good ==> r.id <= id.interval.value.id && r.cnic == id.cnic.value)
      && !id.interval.value.revoked && UidOk(e, id.interval.value)
      && (id.continuity <==> SameUserEdited(e, u, ev, id.good))
    case ChangedNearPunch =>
      ev.before.Some? && ev.after.Some? && ev.before.value.cnic != current && ev.after.value.cnic == current
      && id.hashes == {ev.before.value.cnic} && !id.unknownHolder && Uncovered(e, ev)
      && (if OldMayBeSent(e, u, ev, tolerance) then id.interval == ev.before && id.cnic == Some(ev.before.value.cnic)
          else id.interval.None? && id.cnic.None?)
      && (id.currentNearby <==> NewMayBeSent(e, u, ev, tolerance))
      && (id.interval.Some? || id.currentNearby)
    case Ambiguous => id.hashes <= {current} && !id.unknownHolder
    case NoRecord => id.hashes <= {current} && !id.unknownHolder && Uncovered(e, ev)
    case Conflict => Unsettled(e, u, current, ev, tolerance)
  }

  /** Unknown holder, unreadable history or an unresolved duplicate is always a conflict. */
  lemma RefusingEvidenceConflicts(e: Event, u: Option<User>, current: string, ev: Evidence, tolerance: nat)
    requires UnknownHolder(ev) || ev.truncated || (u.Some? && u.value.conflict && !ev.conflictResolved)
    ensures Identify(e, u, current, ev, tolerance).state == Conflict
  {
    var signals := Signals(e, u, current, ev, tolerance);
    if ev.truncated {
      assert RecordsTruncated in signals * REFUSING_SIGNALS;
    } else if !UnknownHolder(ev) {
      assert ConflictUnresolved in signals * REFUSING_SIGNALS;
    }
  }

  /** With a change around the punch and no other holder, only the record before it names another CNIC. */
  lemma ChangeNamesOneCnic(e: Event, u: Option<User>, current: string, ev: Evidence, tolerance: nat)
    requires Changed(e, u, current, ev, tolerance).currentNear || Changed(e, u, current, ev, tolerance).earlier.Some?
    requires ev.tombstones == [] && ev.prior.None?
    ensures Between(e, ev) && ev.before.value.cnic != current && ev.after.value.cnic == current
    ensures Hashes(e, current, ev) == {ev.before.value.cnic}
  {
    assert TombstoneHashes(ev.tombstones) == {} && CoveringHashes(ev.covering) == {};
  }

  /** What the gathered signals say when they are absent. */
  lemma AbsentSignals(e: Event, u: Option<User>, current: string, ev: Evidence, tolerance: nat)
    ensures var s := Signals(e, u, current, ev, tolerance);
            && (PreviousHolderDeleted !in s ==> ev.tombstones == [])
            && (LinkedToOtherUser !in s ==> ev.prior.None?)
            && (RevokedRecord !in s ==> forall r :: r in ev.covering ==> !r.revoked)
            && (OtherUidRecord !in s ==> forall r :: r in ev.covering ==> UidOk(e, r))
  {}

  /** The verdict is supported by whatever facts it was given, as long as they describe the evidence. */
  lemma JudgeSupported(e: Event, u: Option<User>, current: string, ev: Evidence, tolerance: nat,
                       hashes: set<string>, unknown: bool, signals: set<Signal>, good: seq<Record>)
    requires forall r :: r in ev.covering ==> r.cnic in hashes
    requires forall r :: r in good ==> !r.revoked && UidOk(e, r)
    requires RevokedRecord !in signals && OtherUidRecord !in signals ==>
               forall r :: r in ev.covering ==> !r.revoked && UidOk(e, r)
    requires e.captured.Some? ==> e.captured.value in hashes
    ensures var id := Judge(e, u, current, ev, tolerance, hashes, unknown, signals, good);
            id.state !in {Conflict, ChangedNearPunch} ==> Supported(e, u, current, ev, tolerance, id)
  {
    var id := Judge(e, u, current, ev, tolerance, hashes, unknown, signals, good);
    match id.state
    case MatchesCurrent =>
      assert hashes - {current} == {};
      assert RevokedRecord !in signals * SOFT_SIGNALS && OtherUidRecord !in signals * SOFT_SIGNALS;
    case Differs =>
    case ChangedNearPunch =>
    case Ambiguous => assert hashes - {current} == {};
    case NoRecord => assert hashes - {current} == {};
    case Conflict =>
  }

  lemma ChangeSupported(e: Event, u: Option<User>, current: string, ev: Evidence, tolerance: nat,
                        hashes: set<string>, unknown: bool, signals: set<Signal>, good: seq<Record>)
    requires var c := Changed(e, u, current, ev, tolerance);
             (c.currentNear || c.earlier.Some?) && PreviousHolderDeleted !in signals
                 && LinkedToOtherUser !in signals ==>
               Between(e, ev) && ev.before.value.cnic != current && ev.after.value.cnic == current
               && hashes == {ev.before.value.cnic}
    ensures var id := Judge(e, u, current, ev, tolerance, hashes, unknown, signals, good);
            id.state == ChangedNearPunch ==> Supported(e, u, current, ev, tolerance, id)
  {
    var id := Judge(e, u, current, ev, tolerance, hashes, unknown, signals, good);
    if id.state == ChangedNearPunch {
      assert PreviousHolderDeleted !in signals * {CapturedDiffers, PreviousHolderDeleted, LinkedToOtherUser}
          && LinkedToOtherUser !in signals * {CapturedDiffers, PreviousHolderDeleted, LinkedToOtherUser};
    }
  }

  lemma SettledIsSupported(e: Event, u: Option<User>, current: string, ev: Evidence, tolerance: nat)
    ensures var id := Identify(e, u, current, ev, tolerance);
            id.state != Conflict ==> Supported(e, u, current, ev, tolerance, id)
  {
    var hashes, signals := Hashes(e, current, ev), Signals(e, u, current, ev, tolerance);
    var good := GoodCovering(e, ev.covering) + Bridge(e, u, current, ev);
    GoodHas(e, ev.covering);
    AbsentSignals(e, u, current, ev, tolerance);
    var c := Changed(e, u, current, ev, tolerance);
    if (c.currentNear || c.earlier.Some?) && PreviousHolderDeleted !in signals && LinkedToOtherUser !in signals {
      ChangeNamesOneCnic(e, u, current, ev, tolerance);
    }
    ChangeSupported(e, u, current, ev, tolerance, hashes, UnknownHolder(ev), signals, good);
    JudgeSupported(e, u, current, ev, tolerance, hashes, UnknownHolder(ev), signals, good);
  }

  lemma IdentifySupported(e: Event, u: Option<User>, current: string, ev: Evidence, tolerance: nat)
    ensures Supported(e, u, current, ev, tolerance, Identify(e, u, current, ev, tolerance))
  {
    var id := Identify(e, u, current, ev, tolerance);
    SettledIsSupported(e, u, current, ev, tolerance);
    if id.state == Conflict {
      VerdictExactly(e, u, current, ev, tolerance);
      IdentifyReports(e, u, current, ev, tolerance);
      ConflictIsSupported(e, u, current, ev, tolerance, id);
    }
  }

  lemma ConflictIsSupported(e: Event, u: Option<User>, current: string, ev: Evidence, tolerance: nat, id: Identity)
    requires id.state == Conflict && !id.continuity && Unsettled(e, u, current, ev, tolerance)
    ensures Supported(e, u, current, ev, tolerance, id)
  {
  }

  lemma RefusingSignals(e: Event, u: Option<User>, current: string, ev: Evidence, tolerance: nat)
    ensures RecordsTruncated in Signals(e, u, current, ev, tolerance) <==> ev.truncated
    ensures ConflictUnresolved in Signals(e, u, current, ev, tolerance) <==>
              u.Some? && u.value.conflict && !ev.conflictResolved
  {
    SignalIsMeant(RecordsTruncated, e, u, current, ev, tolerance);
    SignalIsMeant(ConflictUnresolved, e, u, current, ev, tolerance);
  }

  /** The verdict reports all the evidence it was given, whatever it concluded. */
  lemma IdentifyReports(e: Event, u: Option<User>, current: string, ev: Evidence, tolerance: nat)
    ensures var id := Identify(e, u, current, ev, tolerance);
            && id.hashes == Hashes(e, current, ev) && id.unknownHolder == UnknownHolder(ev)
            && id.good == GoodCovering(e, ev.covering) + Bridge(e, u, current, ev)
            && (id.state != Differs ==> !id.continuity)
            && (RecordsTruncated in id.signals <==> ev.truncated)
            && (ConflictUnresolved in id.signals <==> u.Some? && u.value.conflict && !ev.conflictResolved)
  {
    JudgeReports(e, u, current, ev, tolerance, Hashes(e, current, ev), UnknownHolder(ev),
                 Signals(e, u, current, ev, tolerance), GoodCovering(e, ev.covering) + Bridge(e, u, current, ev));
    RefusingSignals(e, u, current, ev, tolerance);
  }

  lemma JudgeReports(e: Event, u: Option<User>, current: string, ev: Evidence, tolerance: nat,
                     hashes: set<string>, unknown: bool, signals: set<Signal>, good: seq<Record>)
    ensures var id := Judge(e, u, current, ev, tolerance, hashes, unknown, signals, good);
            id.hashes == hashes && id.unknownHolder == unknown && id.signals == signals && id.good == good
            && (id.state != Differs ==> !id.continuity)
  {
  }

  // ------------------------------------------------------ when each verdict is reached

  /** A covering record is revoked or of another UID, or another holder, linked user or UID is on record. */
  predicate Weakened(e: Event, u: Option<User>, ev: Evidence) {
    (exists r :: r in ev.covering && (r.revoked || (r.uid != e.uid && e.uid != "")))
    || ev.tombstones != [] || ev.prior.Some? || (u.Some? && OtherUid(e.uid, u.value.uid))
  }

  lemma SoftSignalsMean(e: Event, u: Option<User>, current: string, ev: Evidence, tolerance: nat)
    requires !Refuses(u, ev)
    ensures Signals(e, u, current, ev, tolerance) * SOFT_SIGNALS != {} <==> Weakened(e, u, ev)
  {
    var s := Signals(e, u, current, ev, tolerance);
    if AnyRevoked(ev.covering) { assert RevokedRecord in s * SOFT_SIGNALS; }
    if AnyOtherUid(e, ev.covering) { assert OtherUidRecord in s * SOFT_SIGNALS; }
    if ev.tombstones != [] { assert PreviousHolderDeleted in s * SOFT_SIGNALS; }
    if ev.prior.Some? { assert LinkedToOtherUser in s * SOFT_SIGNALS; }
    if !UidMatches(e, u) { assert UidDiffers in s * SOFT_SIGNALS; }
  }

  lemma RefusingSignalsMean(e: Event, u: Option<User>, current: string, ev: Evidence, tolerance: nat)
    ensures Signals(e, u, current, ev, tolerance) * REFUSING_SIGNALS != {} <==> Refuses(u, ev)
  {
    var s := Signals(e, u, current, ev, tolerance);
    RefusingSignals(e, u, current, ev, tolerance);
    if ev.truncated { assert RecordsTruncated in s * REFUSING_SIGNALS; }
    if u.Some? && u.value.conflict && !ev.conflictResolved { assert ConflictUnresolved in s * REFUSING_SIGNALS; }
  }

  /** Whatever a trusted record names is among the reported CNICs, or is today's. */
  lemma TrustedIsReported(e: Event, u: Option<User>, current: string, ev: Evidence)
    ensures forall r :: r in Trusted(e, u, current, ev) ==> r.cnic in Hashes(e, current, ev) || r.cnic == current
    ensures !AnyRevoked(ev.covering) && !AnyOtherUid(e, ev.covering) && ev.covering != [] ==>
              Trusted(e, u, current, ev) != []
  {
    GoodHas(e, ev.covering);
    forall r | r in ev.covering ensures r.cnic in Hashes(e, current, ev) {
      assert r.cnic in CoveringHashes(ev.covering);
    }
    if ev.covering != [] { assert ev.covering[0] in ev.covering; }
  }

  lemma {:induction false} JudgedSame(
      e: Event, u: Option<User>, current: string, ev: Evidence, tolerance: nat,
      hashes: set<string>, unknown: bool, signals: set<Signal>, good: seq<Record>)
    requires signals * REFUSING_SIGNALS == {} && !unknown && hashes <= {current}
    requires forall r :: r in good ==> r.cnic in hashes || r.cnic == current
    ensures var id := Judge(e, u, current, ev, tolerance, hashes, unknown, signals, good);
            id.state == if signals * SOFT_SIGNALS == {} && (good != [] || e.captured == Some(current))
                        then MatchesCurrent
                        else if ev.covering != [] || signals * SOFT_SIGNALS != {} then Ambiguous else NoRecord
  {
    assert hashes - {current} == {};
    if good != [] { assert good[0] in good; }
  }

  lemma {:induction false} JudgedOther(
      e: Event, u: Option<User>, current: string, ev: Evidence, tolerance: nat,
      hashes: set<string>, unknown: bool, signals: set<Signal>, good: seq<Record>)
    requires signals * REFUSING_SIGNALS == {} && (unknown || !(hashes <= {current}))
    ensures var id := Judge(e, u, current, ev, tolerance, hashes, unknown, signals, good);
            id.state in {Differs, ChangedNearPunch, Conflict}
            && (id.state == Differs <==> !unknown && NamesOneOther(current, hashes, good))
            && (id.state == ChangedNearPunch ==>
                  !unknown && signals * {PreviousHolderDeleted, LinkedToOtherUser} == {}
                  && (Changed(e, u, current, ev, tolerance).currentNear
                      || Changed(e, u, current, ev, tolerance).earlier.Some?))
  {
    if !unknown && NamesOneOther(current, hashes, good) {
      var c :| c != current && hashes == {c} && good != [] && NamesOnly(good, c);
      assert good[0] in good;
    }
    assert !(hashes <= {current}) ==> hashes - {current} != {};
  }

  lemma {:induction false} JudgedChange(
      e: Event, u: Option<User>, current: string, ev: Evidence, tolerance: nat,
      hashes: set<string>, signals: set<Signal>, other: string)
    requires signals * REFUSING_SIGNALS == {} && hashes == {other} && other != current
    requires CnicChangedNearPunch in signals
    requires signals * {CapturedDiffers, PreviousHolderDeleted, LinkedToOtherUser} == {}
    requires Changed(e, u, current, ev, tolerance).currentNear || Changed(e, u, current, ev, tolerance).earlier.Some?
    ensures Judge(e, u, current, ev, tolerance, hashes, false, signals, []).state == ChangedNearPunch
  {
    assert hashes - {current} == {other};
  }

  lemma {:induction false} ChangeSignals(e: Event, u: Option<User>, current: string, ev: Evidence, tolerance: nat)
    requires ev.tombstones == [] && ev.prior.None? && Between(e, ev) && Bridge(e, u, current, ev) == []
    requires ev.before.value.cnic != current
    ensures var s := Signals(e, u, current, ev, tolerance);
            CnicChangedNearPunch in s && s * {CapturedDiffers, PreviousHolderDeleted, LinkedToOtherUser} == {}
  {
    assert ev.before.value.cnic in NearbyHashes(e, current, ev);
  }

  lemma OfferedIsChanged(e: Event, u: Option<User>, current: string, ev: Evidence, tolerance: nat)
    ensures ChangeOffered(e, u, current, ev, tolerance) <==>
              Changed(e, u, current, ev, tolerance).currentNear || Changed(e, u, current, ev, tolerance).earlier.Some?
  {
  }

  /** A change around the punch with no other holder on record is always reported as one. */
  lemma {:induction false} ChangeIsReported(e: Event, u: Option<User>, current: string, ev: Evidence, tolerance: nat)
    requires !Refuses(u, ev) && ev.tombstones == [] && ev.prior.None?
    requires Changed(e, u, current, ev, tolerance).currentNear || Changed(e, u, current, ev, tolerance).earlier.Some?
    ensures Identify(e, u, current, ev, tolerance).state == ChangedNearPunch
  {
    ChangeNamesOneCnic(e, u, current, ev, tolerance);
    RefusingSignalsMean(e, u, current, ev, tolerance);
    assert Bridge(e, u, current, ev) == [] && GoodCovering(e, ev.covering) == [];
    ChangeSignals(e, u, current, ev, tolerance);
    JudgedChange(e, u, current, ev, tolerance, Hashes(e, current, ev), Signals(e, u, current, ev, tolerance),
                 ev.before.value.cnic);
    assert GoodCovering(e, ev.covering) + Bridge(e, u, current, ev) == [];
  }

  /** Exactly when each verdict is reached, on the evidence alone. */
  lemma {:induction false} VerdictExactly(e: Event, u: Option<User>, current: string, ev: Evidence, tolerance: nat)
    ensures var state, hashes := Identify(e, u, current, ev, tolerance).state, Hashes(e, current, ev);
            var sound := !Refuses(u, ev) && !UnknownHolder(ev);
            var trusted := Trusted(e, u, current, ev);
            && (state == MatchesCurrent <==>
                  sound && hashes <= {current} && !Weakened(e, u, ev)
                  && (trusted != [] || e.captured == Some(current)))
            && (state == Ambiguous <==> sound && hashes <= {current} && Weakened(e, u, ev))
            && (state == NoRecord <==>
                  sound && hashes <= {current} && !Weakened(e, u, ev) && trusted == [] && e.captured != Some(current))
            && (state == Differs <==> sound && NamesOneOther(current, hashes, trusted))
            && (state == ChangedNearPunch <==>
                  sound && ev.tombstones == [] && ev.prior.None? && ChangeOffered(e, u, current, ev, tolerance))
            && (state == Conflict <==> Unsettled(e, u, current, ev, tolerance))
  {
    var hashes, signals := Hashes(e, current, ev), Signals(e, u, current, ev, tolerance);
    var trusted := Trusted(e, u, current, ev);
    RefusingSignalsMean(e, u, current, ev, tolerance);
    OfferedIsChanged(e, u, current, ev, tolerance);
    if !Refuses(u, ev) {
      SoftSignalsMean(e, u, current, ev, tolerance);
      TrustedIsReported(e, u, current, ev);
      AbsentSignals(e, u, current, ev, tolerance);
      if !UnknownHolder(ev) && hashes <= {current} {
        JudgedSame(e, u, current, ev, tolerance, hashes, false, signals, trusted);
        SameIsNoChange(e, u, current, ev, tolerance);
      } else {
        JudgedOther(e, u, current, ev, tolerance, hashes, UnknownHolder(ev), signals, trusted);
        HolderSignals(e, u, current, ev, tolerance);
        var change := Changed(e, u, current, ev, tolerance);
        if ev.tombstones == [] && ev.prior.None? && (change.currentNear || change.earlier.Some?) {
          ChangeIsReported(e, u, current, ev, tolerance);
        }
      }
    }
  }

  /** With only today's CNIC named there is no change to report, and no other one to name. */
  lemma {:induction false} SameIsNoChange(e: Event, u: Option<User>, current: string, ev: Evidence, tolerance: nat)
    requires Hashes(e, current, ev) <= {current}
    ensures !Changed(e, u, current, ev, tolerance).currentNear && Changed(e, u, current, ev, tolerance).earlier.None?
    ensures !NamesOneOther(current, Hashes(e, current, ev), Trusted(e, u, current, ev))
  {
    assert forall h :: h in NearbyHashes(e, current, ev) ==> h in Hashes(e, current, ev);
  }

  lemma {:induction false} HolderSignals(e: Event, u: Option<User>, current: string, ev: Evidence, tolerance: nat)
    ensures PreviousHolderDeleted in Signals(e, u, current, ev, tolerance) <==> ev.tombstones != []
    ensures LinkedToOtherUser in Signals(e, u, current, ev, tolerance) <==> ev.prior.Some?
  {
    SignalIsMeant(PreviousHolderDeleted, e, u, current, ev, tolerance);
    SignalIsMeant(LinkedToOtherUser, e, u, current, ev, tolerance);
  }

  /** Both sides of a break show one person, unrevoked and of the punch's UID if it has one. */
  predicate SamePersonAround(e: Event, a: Record, b: Record) {
    !a.revoked && !b.revoked && a.deviceUser == b.deviceUser && a.uid == b.uid && a.cnic == b.cnic
    && (e.uid != "" ==> a.uid == e.uid)
  }

  /** The records a verdict may rest on, one by one. */
  lemma TrustedExactly(e: Event, u: Option<User>, current: string, ev: Evidence, r: Record)
    ensures r in Trusted(e, u, current, ev) <==>
              (r in ev.covering && !r.revoked && (e.uid != "" ==> r.uid == e.uid))
              || (ev.covering == [] && e.captured.None? && ev.before.Some? && ev.after.Some?
                  && (r == ev.before.value || r == ev.after.value)
                  && SamePersonAround(e, ev.before.value, ev.after.value)
                  && (r.cnic == current ==> u.Some? && r.deviceUser == u.value.id && r.uid == u.value.uid))
  {
    GoodHas(e, ev.covering);
  }

  /** Every CNIC on record at or near the punch is named, and no other. */
  lemma NamedExactly(e: Event, current: string, ev: Evidence, cnic: string)
    ensures cnic in Hashes(e, current, ev) <==>
              (exists r :: r in ev.covering && r.cnic == cnic)
              || e.captured == Some(cnic)
              || (exists t :: t in ev.tombstones && t.cnic == Some(cnic))
              || ev.prior == Some(Prior(Some(cnic)))
              || (Uncovered(e, ev) && cnic != current
                  && ((ev.before.Some? && ev.before.value.cnic == cnic)
                      || (ev.after.Some? && ev.after.value.cnic == cnic)))
  {
  }

  /** Where the punch lies among the records, and which kind of record the offered interval is. */
  lemma {:induction false} ReportsWhere(e: Event, u: Option<User>, current: string, ev: Evidence, tolerance: nat)
    ensures var id := Identify(e, u, current, ev, tolerance);
            && (id.position == Covered <==> ev.covering != [] || e.captured.Some?)
            && (id.position in {BetweenRecords, AfterLastRecord} <==> Uncovered(e, ev) && ev.before.Some?)
            && (id.position in {BetweenRecords, BeforeFirstRecord} <==> Uncovered(e, ev) && ev.after.Some?)
            && (id.basis == NoBasis <==> id.interval.None?)
            && (id.basis == CoveringRecord ==> id.interval.value in ev.covering)
            && (id.basis == BridgedGap ==> id.interval == ev.before || id.interval == ev.after)
            && (id.basis == RecordBeforePunch ==> id.interval == ev.before && id.state == ChangedNearPunch)
  {
    var trusted := Trusted(e, u, current, ev);
    JudgedWhere(e, u, current, ev, tolerance, Hashes(e, current, ev), UnknownHolder(ev),
                Signals(e, u, current, ev, tolerance), trusted);
    JudgedBefore(e, u, current, ev, tolerance, Hashes(e, current, ev), UnknownHolder(ev),
                 Signals(e, u, current, ev, tolerance), trusted);
    if trusted != [] {
      TrustedExactly(e, u, current, ev, Newest(trusted));
    }
  }

  lemma {:induction false} JudgedWhere(
      e: Event, u: Option<User>, current: string, ev: Evidence, tolerance: nat,
      hashes: set<string>, unknown: bool, signals: set<Signal>, good: seq<Record>)
    ensures var id := Judge(e, u, current, ev, tolerance, hashes, unknown, signals, good);
            && id.position == PositionOf(e, ev) && (id.basis == NoBasis <==> id.interval.None?)
            && (id.basis in {CoveringRecord, BridgedGap} ==>
                  good != [] && id.interval == Some(Newest(good))
                  && (id.basis == BridgedGap <==> Bridge(e, u, current, ev) != []))
  {
  }

  lemma {:induction false} JudgedBefore(
      e: Event, u: Option<User>, current: string, ev: Evidence, tolerance: nat,
      hashes: set<string>, unknown: bool, signals: set<Signal>, good: seq<Record>)
    ensures var id := Judge(e, u, current, ev, tolerance, hashes, unknown, signals, good);
            id.basis == RecordBeforePunch ==> id.interval == ev.before && id.state == ChangedNearPunch
  {
  }

  // ----------------------------------------------------------------- what each signal says

  /** A record on either side of an uncovered punch names another CNIC than today's. */
  predicate OtherNearby(e: Event, current: string, ev: Evidence) {
    ev.covering == [] && e.captured.None?
    && ((ev.before.Some? && ev.before.value.cnic != current) || (ev.after.Some? && ev.after.value.cnic != current))
  }

  /** The punch lies in a break with one person on both sides, who is today's user if the CNIC is today's. */
  predicate InBreak(e: Event, u: Option<User>, current: string, ev: Evidence) {
    ev.covering == [] && e.captured.None? && ev.before.Some? && ev.after.Some?
    && SamePersonAround(e, ev.before.value, ev.after.value)
    && var r := ev.before.value;
       (r.cnic == current ==> u.Some? && r.deviceUser == u.value.id && r.uid == u.value.uid)
  }

  /** The old CNIC's record lies before the punch and today's after it, and the old holder was deleted in between. */
  ghost predicate DeletedInBetween(e: Event, current: string, ev: Evidence, tolerance: nat) {
    ev.covering == [] && e.captured.None? && ev.before.Some? && ev.after.Some?
    && ev.before.value.cnic != current && ev.after.value.cnic == current
    && exists t :: t in ev.earlierDeletions && t.deviceUser == ev.before.value.deviceUser
         && ev.before.value.until - tolerance <= t.createdAt < e.when
  }

  ghost predicate SignalMeans(
      signal: Signal, e: Event, u: Option<User>, current: string, ev: Evidence, tolerance: nat) {
    match signal
    case RevokedRecord => exists r :: r in ev.covering && r.revoked
    case OtherUidRecord => exists r :: r in ev.covering && e.uid != "" && r.uid != e.uid
    case CapturedDiffers => e.captured.Some? && e.captured != Some(current)
    case CapturedMatches => e.captured == Some(current)
    case PreviousHolderDeleted => ev.tombstones != []
    case LinkedToOtherUser => ev.prior.Some?
    case UidDiffers => u.Some? && OtherUid(e.uid, u.value.uid)
    case ConflictUnresolved => u.Some? && u.value.conflict && !ev.conflictResolved
    case CnicChangedNearPunch =>
      OtherNearby(e, current, ev) && !(InBreak(e, u, current, ev) && ev.before.value.cnic != current)
    case RecordsTruncated => ev.truncated
    case BeforeFirstObservation =>
      ev.covering == [] && e.captured.None? && ev.before.None? && ev.after.Some?
      && ev.after.value.from > e.when + tolerance
    case GapBridged => InBreak(e, u, current, ev)
    case NameDiffers => u.Some? && e.nameDiffers
    case HolderDeletedBeforePunch => DeletedInBetween(e, current, ev, tolerance)
  }

  predicate AboutNearby(signal: Signal) {
    signal in {CnicChangedNearPunch, BeforeFirstObservation, GapBridged, HolderDeletedBeforePunch}
  }

  lemma {:induction false} BreakIsBridge(e: Event, u: Option<User>, current: string, ev: Evidence)
    ensures Bridge(e, u, current, ev) != [] <==> InBreak(e, u, current, ev)
    ensures NearbyHashes(e, current, ev) != {} <==> OtherNearby(e, current, ev)
  {
    if ev.before.Some? && ev.before.value.cnic != current && Uncovered(e, ev) {
      assert ev.before.value.cnic in NearbyHashes(e, current, ev);
    }
    if ev.after.Some? && ev.after.value.cnic != current && Uncovered(e, ev) {
      assert ev.after.value.cnic in NearbyHashes(e, current, ev);
    }
  }

  lemma {:induction false} RefutedMeans(e: Event, u: Option<User>, current: string, ev: Evidence, tolerance: nat)
    ensures Changed(e, u, current, ev, tolerance).refuted <==> DeletedInBetween(e, current, ev, tolerance)
  {
  }

  lemma {:induction false} NearbySignalMeans(
      signal: Signal, e: Event, u: Option<User>, current: string, ev: Evidence, tolerance: nat)
    ensures signal in NearbySignals(e, u, current, ev, tolerance) <==>
              AboutNearby(signal) && SignalMeans(signal, e, u, current, ev, tolerance)
  {
    BreakIsBridge(e, u, current, ev);
    RefutedMeans(e, u, current, ev, tolerance);
  }

  lemma {:induction false} PunchSignalMeans(
      signal: Signal, e: Event, u: Option<User>, current: string, ev: Evidence, tolerance: nat)
    ensures signal in PunchSignals(e, u, current, ev, AnyRevoked(ev.covering), AnyOtherUid(e, ev.covering)) <==>
              !AboutNearby(signal) && SignalMeans(signal, e, u, current, ev, tolerance)
  {
    PunchSignalIf(signal, e, u, current, ev, AnyRevoked(ev.covering), AnyOtherUid(e, ev.covering));
  }

  lemma {:induction false} PunchSignalIf(
      signal: Signal, e: Event, u: Option<User>, current: string, ev: Evidence, revoked: bool, otherUid: bool)
    ensures signal in PunchSignals(e, u, current, ev, revoked, otherUid) <==>
              match signal
              case RevokedRecord => revoked
              case OtherUidRecord => otherUid
              case CapturedDiffers => e.captured.Some? && e.captured != Some(current)
              case CapturedMatches => e.captured == Some(current)
              case PreviousHolderDeleted => ev.tombstones != []
              case LinkedToOtherUser => ev.prior.Some?
              case UidDiffers => !UidMatches(e, u)
              case ConflictUnresolved => u.Some? && u.value.conflict && !ev.conflictResolved
              case RecordsTruncated => ev.truncated
              case NameDiffers => u.Some? && e.nameDiffers
              case _ => false
  {
  }

  lemma {:induction false} SignalIsMeant(
      signal: Signal, e: Event, u: Option<User>, current: string, ev: Evidence, tolerance: nat)
    ensures signal in Signals(e, u, current, ev, tolerance) <==> SignalMeans(signal, e, u, current, ev, tolerance)
  {
    NearbySignalMeans(signal, e, u, current, ev, tolerance);
    PunchSignalMeans(signal, e, u, current, ev, tolerance);
  }

  /** Each of the fourteen signals is reported if and only if the evidence says what it means. */
  lemma {:induction false} SignalsExactly(
      signal: Signal, e: Event, u: Option<User>, current: string, ev: Evidence, tolerance: nat)
    ensures signal in Identify(e, u, current, ev, tolerance).signals <==>
              SignalMeans(signal, e, u, current, ev, tolerance)
  {
    JudgeReports(e, u, current, ev, tolerance, Hashes(e, current, ev), UnknownHolder(ev),
                 Signals(e, u, current, ev, tolerance), Trusted(e, u, current, ev));
    SignalIsMeant(signal, e, u, current, ev, tolerance);
  }
}
