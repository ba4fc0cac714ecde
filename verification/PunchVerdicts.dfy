/**
 From roster snapshots to a verdict: the intervals a log of snapshots records, read
 back through the evidence index and classified, and what the snapshots themselves
 then say about the CNIC the verdict names.
 */
module PunchVerdicts {
  import opened Options
  import opened IdentityRecords
  import opened IdentityHistory
  import opened IdentityContinuity
  import C = IdentityCoverage
  import EvidenceIndex
  import P = PunchTimeIdentity

  /** What `load_punch_evidence` adds to the intervals: deleted holders, the linked user, a resolved duplicate. */
  datatype Extras = Extras(
    tombstones: seq<P.Tombstone>, earlierDeletions: seq<P.Tombstone>, prior: Option<P.Prior>, conflictResolved: bool)

  datatype Case = Case(
    key: EvidenceIndex.Key, event: P.Event, user: Option<P.User>, current: string, extras: Extras)

  function PunchOf(c: Case): EvidenceIndex.Punch {
    EvidenceIndex.Punch(c.event.id, Some(c.key), c.event.when)
  }

  function Assembled(e: EvidenceIndex.Evidence, x: Extras): P.Evidence {
    P.Evidence(e.found.covering, e.found.before, e.found.after,
               x.tombstones, x.earlierDeletions, x.prior, e.truncated, x.conflictResolved)
  }

  // ---------------------------------------------------- what snapshots say

  /** Consecutive snapshots show this record's person from before the punch until after it, or until now. */
  ghost predicate Seen(log: seq<Snapshot>, key: EvidenceIndex.Key, r: Record, when: int, tolerance: nat) {
    EvidenceIndex.KeyOf(r) == key
    && exists lo: nat, hi: nat :: Spans(log, r, lo, hi) && log[lo].observedAt <= when
         && (when <= log[hi].observedAt
             || (hi == |log| - 1 && !r.revoked && when <= log[hi].observedAt + tolerance))
  }

  /** Snapshots show it on one side of the punch only. */
  ghost predicate Around(log: seq<Snapshot>, key: EvidenceIndex.Key, a: Record, b: Record, when: int) {
    EvidenceIndex.KeyOf(a) == key == EvidenceIndex.KeyOf(b) && Proven(log, a) && Proven(log, b)
    && a.until < when < b.from
  }

  /** The snapshots name this CNIC at the punch: across it, or alike on both sides of a break. */
  ghost predicate Names(log: seq<Snapshot>, key: EvidenceIndex.Key, cnic: string, when: int, tolerance: nat) {
    (exists r :: Seen(log, key, r, when, tolerance) && r.cnic == cnic && !r.revoked)
    || (exists a, b :: Around(log, key, a, b, when) && a.cnic == b.cnic == cnic && a.deviceUser == b.deviceUser
          && a.uid == b.uid && !a.revoked && !b.revoked)
  }

  /** A recorded interval of the user ID that reaches over the punch, or is open and was confirmed just before it. */
  ghost predicate Reaches(log: seq<Snapshot>, key: EvidenceIndex.Key, r: Record, when: int, tolerance: nat) {
    r in History(log) && EvidenceIndex.KeyOf(r) == key && r.from <= when
    && (when <= r.until || (!r.closed && when <= r.until + tolerance))
  }

  /** No recorded interval that covers the punch names another CNIC. */
  ghost predicate OnlyNames(log: seq<Snapshot>, key: EvidenceIndex.Key, cnic: string, when: int, tolerance: nat) {
    forall r :: Reaches(log, key, r, when, tolerance) ==> r.cnic == cnic
  }

  ghost predicate NothingCovers(log: seq<Snapshot>, key: EvidenceIndex.Key, when: int, tolerance: nat) {
    forall r :: !Reaches(log, key, r, when, tolerance)
  }

  /** Somebody whose CNIC ADD never had, or a CNIC other than today's, is on record for the punch or its user ID. */
  ghost predicate Disputed(log: seq<Snapshot>, c: Case, tolerance: nat) {
    (c.user.Some? && c.user.value.conflict && !c.extras.conflictResolved)
    || (c.event.captured.Some? && c.event.captured != Some(c.current))
    || (exists t :: t in c.extras.tombstones && t.cnic != Some(c.current))
    || (c.extras.prior.Some? && c.extras.prior.value.cnic != Some(c.current))
    || (exists r :: r in History(log) && EvidenceIndex.KeyOf(r) == c.key && r.cnic != c.current
          && (Reaches(log, c.key, r, c.event.when, tolerance)
              || NothingCovers(log, c.key, c.event.when, tolerance)))
  }

  /** The old CNIC's record before the punch and today's after it, each close enough where it is offered. */
  ghost predicate ChangesAround(log: seq<Snapshot>, c: Case, id: P.Identity) {
    exists a, b :: Around(log, c.key, a, b, c.event.when) && a.cnic != c.current && b.cnic == c.current
      && (id.cnic.Some? ==> id.cnic.value == a.cnic && c.event.when - a.until <= P.NEAR_RECORD_GAP)
      && (id.currentNearby ==> b.from - c.event.when <= P.NEAR_RECORD_GAP)
      && (id.cnic.Some? || id.currentNearby)
  }

  /** What each verdict promises about the snapshots the records were built from. */
  ghost predicate Grounded(log: seq<Snapshot>, c: Case, tolerance: nat, id: P.Identity) {
    match id.state
    case MatchesCurrent =>
      OnlyNames(log, c.key, c.current, c.event.when, tolerance)
      && (c.event.captured == Some(c.current) || Names(log, c.key, c.current, c.event.when, tolerance))
    case Differs =>
      id.cnic.Some? && id.cnic.value != c.current
      && Names(log, c.key, id.cnic.value, c.event.when, tolerance)
      && OnlyNames(log, c.key, id.cnic.value, c.event.when, tolerance)
    case ChangedNearPunch =>
      NothingCovers(log, c.key, c.event.when, tolerance) && ChangesAround(log, c, id)
    case Ambiguous => OnlyNames(log, c.key, c.current, c.event.when, tolerance)
    case NoRecord => NothingCovers(log, c.key, c.event.when, tolerance)
    case Conflict => Disputed(log, c, tolerance)
  }

  // ------------------------------------------------- the loaded evidence

  lemma {:induction false} InsertHas(r: Record, s: seq<Record>)
    ensures forall x :: x in EvidenceIndex.InsertById(r, s) <==> x == r || x in s
  {
    if s != [] && r.id > s[0].id {
      InsertHas(r, s[1..]);
      assert forall x :: x in s <==> x == s[0] || x in s[1..];
    }
  }

  lemma {:induction false} SortHas(s: seq<Record>)
    ensures forall x :: x in EvidenceIndex.SortById(s) <==> x in s
  {
    if s != [] {
      SortHas(s[1..]);
      InsertHas(s[0], EvidenceIndex.SortById(s[1..]));
      assert forall x :: x in s <==> x == s[0] || x in s[1..];
    }
  }

  ghost predicate Lists(db: seq<Record>, log: seq<Snapshot>) {
    forall r :: r in db <==> r in History(log)
  }

  /** The evidence is what the snapshots prove: all that covers the punch, and the nearest record on either side. */
  ghost predicate Faithful(log: seq<Snapshot>, key: EvidenceIndex.Key, when: int, tolerance: nat,
        f: EvidenceIndex.Found) {
    && (forall r :: r in f.covering ==> Seen(log, key, r, when, tolerance))
    && (forall r :: r in f.covering <==> Reaches(log, key, r, when, tolerance))
    && (f.before.Some? ==> OnRecord(log, key, f.before.value) && f.before.value.until < when)
    && (f.after.Some? ==> OnRecord(log, key, f.after.value) && f.after.value.from > when)
    && NearestKept(log, key, when, f)
  }

  ghost predicate OnRecord(log: seq<Snapshot>, key: EvidenceIndex.Key, r: Record) {
    r in History(log) && EvidenceIndex.KeyOf(r) == key && Proven(log, r)
  }

  /** No interval of the user ID ends nearer before the punch, or starts nearer after it. */
  ghost predicate NearestKept(log: seq<Snapshot>, key: EvidenceIndex.Key, when: int, f: EvidenceIndex.Found) {
    forall r :: r in History(log) && EvidenceIndex.KeyOf(r) == key ==>
      (r.until < when ==> f.before.Some? && r.until <= f.before.value.until)
      && (r.from > when ==> f.after.Some? && r.from >= f.after.value.from)
  }

  lemma ScanIsFaithful(log: seq<Snapshot>, db: seq<Record>, key: EvidenceIndex.Key, when: int, tolerance: nat)
    requires ValidLog(log) && Lists(db, log)
    ensures Faithful(log, key, when, tolerance, EvidenceIndex.NaiveScan(db, key, when, tolerance))
  {
    var rows := EvidenceIndex.CoveringRows(db, key, when, tolerance);
    SortHas(rows);
    EvidenceIndex.CoveringHas(db, key, when, tolerance);
    forall r | r in rows ensures Seen(log, key, r, when, tolerance) {
      CoveringIsProven(log, db, key, when, tolerance, r);
    }
    NearestAreProven(log, db, key, when);
    NearestAreKept(log, db, key, when, tolerance);
  }

  lemma NearestAreKept(log: seq<Snapshot>, db: seq<Record>, key: EvidenceIndex.Key, when: int, tolerance: nat)
    requires Lists(db, log)
    ensures NearestKept(log, key, when, EvidenceIndex.NaiveScan(db, key, when, tolerance))
  {
    EvidenceIndex.EndedHas(db, key, when);
    EvidenceIndex.StartedHas(db, key, when);
    forall r | r in History(log) && EvidenceIndex.KeyOf(r) == key
      ensures r.until < when ==> r in EvidenceIndex.EndedBefore(db, key, when)
      ensures r.from > when ==> r in EvidenceIndex.StartedAfter(db, key, when)
    {
      assert r in db;
    }
  }

  lemma NearestAreProven(log: seq<Snapshot>, db: seq<Record>, key: EvidenceIndex.Key, when: int)
    requires ValidLog(log) && Lists(db, log)
    ensures forall r :: r in EvidenceIndex.EndedBefore(db, key, when) ==>
              OnRecord(log, key, r) && r.until < when
    ensures forall r :: r in EvidenceIndex.StartedAfter(db, key, when) ==>
              OnRecord(log, key, r) && r.from > when
  {
    HistoryProven(log);
    EvidenceIndex.EndedHas(db, key, when);
    EvidenceIndex.StartedHas(db, key, when);
    forall r | r in db ensures Proven(log, r) {
      ListedIsProven(log, History(log), r);
    }
  }

  // ------------------------------------------------------------ the verdict

  lemma CoveringNamed(log: seq<Snapshot>, c: Case, tolerance: nat, f: EvidenceIndex.Found, truncated: bool,
        cnic: string)
    requires Faithful(log, c.key, c.event.when, tolerance, f)
    requires P.Hashes(c.event, c.current, Assembled(EvidenceIndex.Evidence(f, truncated), c.extras)) <= {cnic}
    ensures OnlyNames(log, c.key, cnic, c.event.when, tolerance)
  {
    var ev := Assembled(EvidenceIndex.Evidence(f, truncated), c.extras);
    forall r | r in f.covering ensures r.cnic == cnic {
      assert r.cnic in P.CoveringHashes(ev.covering);
      assert r.cnic in P.Hashes(c.event, c.current, ev);
    }
  }

  /** A record the verdict trusts is named by the snapshots at the punch. */
  lemma GoodNamed(log: seq<Snapshot>, c: Case, tolerance: nat, f: EvidenceIndex.Found, truncated: bool, r: Record)
    requires Faithful(log, c.key, c.event.when, tolerance, f)
    requires var ev := Assembled(EvidenceIndex.Evidence(f, truncated), c.extras);
             r in P.GoodCovering(c.event, ev.covering) + P.Bridge(c.event, c.user, c.current, ev)
    ensures Names(log, c.key, r.cnic, c.event.when, tolerance)
  {
    var ev := Assembled(EvidenceIndex.Evidence(f, truncated), c.extras);
    P.GoodHas(c.event, ev.covering);
    if r in P.GoodCovering(c.event, ev.covering) {
      assert Seen(log, c.key, r, c.event.when, tolerance);
    } else {
      assert Around(log, c.key, ev.before.value, ev.after.value, c.event.when);
    }
  }

  /** Every CNIC a trusted record names is one of the reported ones. */
  lemma GoodReported(c: Case, ev: P.Evidence, r: Record)
    requires r in P.GoodCovering(c.event, ev.covering) + P.Bridge(c.event, c.user, c.current, ev)
    ensures r.cnic in P.Hashes(c.event, c.current, ev) || r.cnic == c.current
  {
    P.GoodHas(c.event, ev.covering);
    if r in ev.covering {
      assert r.cnic in P.CoveringHashes(ev.covering);
    }
  }

  lemma UncoveredHasNone(log: seq<Snapshot>, c: Case, tolerance: nat, f: EvidenceIndex.Found, truncated: bool)
    requires Faithful(log, c.key, c.event.when, tolerance, f)
    requires P.Uncovered(c.event, Assembled(EvidenceIndex.Evidence(f, truncated), c.extras))
    ensures NothingCovers(log, c.key, c.event.when, tolerance)
  {
  }

  /** A supported verdict on faithful evidence is grounded in the snapshots. */
  lemma VerdictGrounded(log: seq<Snapshot>, c: Case, tolerance: nat, f: EvidenceIndex.Found, id: P.Identity)
    requires Faithful(log, c.key, c.event.when, tolerance, f)
    requires id == P.Identify(c.event, c.user, c.current, Assembled(EvidenceIndex.Evidence(f, false), c.extras),
             tolerance)
    ensures Grounded(log, c, tolerance, id)
  {
    var ev := Assembled(EvidenceIndex.Evidence(f, false), c.extras);
    P.IdentifySupported(c.event, c.user, c.current, ev, tolerance);
    P.IdentifyReports(c.event, c.user, c.current, ev, tolerance);
    match id.state
    case MatchesCurrent =>
      CoveringNamed(log, c, tolerance, f, false, c.current);
      if c.event.captured != Some(c.current) {
        GoodReported(c, ev, id.good[0]);
        GoodNamed(log, c, tolerance, f, false, id.good[0]);
      }
    case Differs =>
      CoveringNamed(log, c, tolerance, f, false, id.cnic.value);
      GoodNamed(log, c, tolerance, f, false, id.interval.value);
    case ChangedNearPunch =>
      UncoveredHasNone(log, c, tolerance, f, false);
      assert Around(log, c.key, ev.before.value, ev.after.value, c.event.when);
    case Ambiguous => CoveringNamed(log, c, tolerance, f, false, c.current);
    case NoRecord => UncoveredHasNone(log, c, tolerance, f, false);
    case Conflict => ConflictIsDisputed(log, c, tolerance, f);
  }

  lemma ConflictIsDisputed(log: seq<Snapshot>, c: Case, tolerance: nat, f: EvidenceIndex.Found)
    requires Faithful(log, c.key, c.event.when, tolerance, f)
    requires P.Unsettled(c.event, c.user, c.current, Assembled(EvidenceIndex.Evidence(f, false), c.extras), tolerance)
    ensures Disputed(log, c, tolerance)
  {
    var ev := Assembled(EvidenceIndex.Evidence(f, false), c.extras);
    if !P.Refuses(c.user, ev) && !P.UnknownHolder(ev) {
      var h :| h in P.Hashes(c.event, c.current, ev) && h != c.current;
      P.NamedExactly(c.event, c.current, ev, h);
      OtherIsOnRecord(log, c, tolerance, f, h);
    }
  }

  lemma OtherIsOnRecord(log: seq<Snapshot>, c: Case, tolerance: nat, f: EvidenceIndex.Found, h: string)
    requires Faithful(log, c.key, c.event.when, tolerance, f) && h != c.current
    requires (exists r :: r in f.covering && r.cnic == h) || c.event.captured == Some(h)
             || (exists t :: t in c.extras.tombstones && t.cnic == Some(h)) || c.extras.prior == Some(P.Prior(Some(h)))
             || (f.covering == [] && ((f.before.Some? && f.before.value.cnic == h)
                                      || (f.after.Some? && f.after.value.cnic == h)))
    ensures Disputed(log, c, tolerance)
  {
    if f.covering == [] {
      assert NothingCovers(log, c.key, c.event.when, tolerance);
    }
  }

  /** Unless one instant holds more intervals than a read returns, the verdict is the one on a full scan. */
  ghost predicate Exact(db: seq<Record>, c: Case, tolerance: nat, id: P.Identity) {
    EvidenceIndex.TooMany(db, c.key, c.event.when, tolerance)
    || id == P.Identify(
         c.event, c.user, c.current,
         Assembled(EvidenceIndex.Evidence(EvidenceIndex.NaiveScan(db, c.key, c.event.when, tolerance), false),
             c.extras),
         tolerance)
  }

  ghost predicate Judged(log: seq<Snapshot>, db: seq<Record>, c: Case, tolerance: nat, id: P.Identity) {
    (Grounded(log, c, tolerance, id)
     || (id.state == P.Conflict && EvidenceIndex.TooMany(db, c.key, c.event.when, tolerance)))
    && Exact(db, c, tolerance, id)
  }

  /** Whatever the chunked read returned for a punch, its verdict is grounded in the snapshots. */
  lemma ServedVerdictGrounded(
      log: seq<Snapshot>, db: seq<Record>, c: Case, tolerance: nat, e: EvidenceIndex.Evidence, id: P.Identity)
    requires ValidLog(log) && Lists(db, log)
    requires EvidenceIndex.PunchServed(db, tolerance, PunchOf(c), e)
    requires id == P.Identify(c.event, c.user, c.current, Assembled(e, c.extras), tolerance)
    ensures Judged(log, db, c, tolerance, id)
  {
    if e.truncated {
      P.RefusingEvidenceConflicts(c.event, c.user, c.current, Assembled(e, c.extras), tolerance);
    } else {
      ScanIsFaithful(log, db, c.key, c.event.when, tolerance);
      assert e == EvidenceIndex.Evidence(e.found, false);
      VerdictGrounded(log, c, tolerance, e.found, id);
    }
  }

  ghost predicate AllServed(
      db: seq<Record>, tolerance: nat, cases: seq<Case>, evidence: map<int, EvidenceIndex.Evidence>) {
    forall i :: 0 <= i < |cases| ==>
      cases[i].event.id in evidence
      && EvidenceIndex.PunchServed(db, tolerance, PunchOf(cases[i]), evidence[cases[i].event.id])
  }

  method ClassifyOne(ghost log: seq<Snapshot>, ghost db: seq<Record>, tolerance: nat, cases: seq<Case>,
                     evidence: map<int, EvidenceIndex.Evidence>, n: nat)
    returns (id: P.Identity)
    requires ValidLog(log) && Lists(db, log) && AllServed(db, tolerance, cases, evidence) && n < |cases|
    ensures Judged(log, db, cases[n], tolerance, id)
  {
    var c := cases[n];
    var e := evidence[c.event.id];
    id := P.Classify(c.event, c.user, c.current, Assembled(e, c.extras), tolerance);
    ServedVerdictGrounded(log, db, c, tolerance, e, id);
  }

  ghost predicate JudgedTo(log: seq<Snapshot>, db: seq<Record>, cases: seq<Case>, tolerance: nat,
                           verdicts: seq<P.Identity>, n: nat) {
    |verdicts| == n <= |cases| && forall i :: 0 <= i < n ==> Judged(log, db, cases[i], tolerance, verdicts[i])
  }

  lemma {:induction false} JudgedOneMore(log: seq<Snapshot>, db: seq<Record>, cases: seq<Case>, tolerance: nat,
                                         verdicts: seq<P.Identity>, id: P.Identity)
    requires |verdicts| < |cases| && JudgedTo(log, db, cases, tolerance, verdicts, |verdicts|)
    requires Judged(log, db, cases[|verdicts|], tolerance, id)
    ensures JudgedTo(log, db, cases, tolerance, verdicts + [id], |verdicts| + 1)
  {
    forall i | 0 <= i < |verdicts| + 1 ensures Judged(log, db, cases[i], tolerance, (verdicts + [id])[i]) {
      assert i < |verdicts| ==> (verdicts + [id])[i] == verdicts[i];
    }
  }

  method ClassifyEach(ghost log: seq<Snapshot>, ghost db: seq<Record>, tolerance: nat, cases: seq<Case>,
                      evidence: map<int, EvidenceIndex.Evidence>)
    returns (verdicts: seq<P.Identity>)
    requires ValidLog(log) && Lists(db, log) && AllServed(db, tolerance, cases, evidence)
    ensures |verdicts| == |cases|
    ensures forall i :: 0 <= i < |cases| ==> Judged(log, db, cases[i], tolerance, verdicts[i])
  {
    verdicts := [];
    for n := 0 to |cases|
      invariant JudgedTo(log, db, cases, tolerance, verdicts, n)
    {
      var id := ClassifyOne(log, db, tolerance, cases, evidence, n);
      JudgedOneMore(log, db, cases, tolerance, verdicts, id);
      verdicts := verdicts + [id];
    }
  }

  /**
   The identities of many punches at once. For every log of snapshots whose recorded
   intervals `db` lists, in any order, each verdict is grounded in those snapshots and
   is the one a full scan gives.
   */
  method JudgePunches(ghost log: seq<Snapshot>, db: seq<Record>, tolerance: nat, cases: seq<Case>)
    returns (verdicts: seq<P.Identity>)
    requires ValidLog(log) && Lists(db, log)
    requires forall i, j :: 0 <= i < j < |cases| ==> cases[i].event.id != cases[j].event.id
    ensures |verdicts| == |cases|
    ensures forall i :: 0 <= i < |cases| ==> Judged(log, db, cases[i], tolerance, verdicts[i])
  {
    HistoryIsReadable(log, db);
    var punches := seq(|cases|, i requires 0 <= i < |cases| => PunchOf(cases[i]));
    var evidence := EvidenceIndex.LoadPunchEvidence(db, tolerance, punches);
    assert AllServed(db, tolerance, cases, evidence) by {
      forall i | 0 <= i < |cases|
        ensures cases[i].event.id in evidence
                && EvidenceIndex.PunchServed(db, tolerance, PunchOf(cases[i]), evidence[cases[i].event.id])
      {
        assert punches[i] == PunchOf(cases[i]) && punches[i] in punches;
      }
    }
    verdicts := ClassifyEach(log, db, tolerance, cases, evidence);
  }

  // ------------------------------------------------------ a person shown throughout

  /** Snapshots k and k + 1 are good, consecutive and both show this user, unchanged. */
  ghost predicate ShownTwice(log: seq<Snapshot>, k: nat, u: User) {
    k + 1 < |log| && Trustworthy(log[k]) && Trustworthy(log[k + 1]) && Identified(u)
    && u in log[k].users && u in log[k + 1].users
    && log[k].confirmedSerial == log[k + 1].confirmedSerial
    && log[k + 1].revision == log[k].revision + 1 && log[k].observedAt <= log[k + 1].observedAt
  }

  ghost predicate OneTerminal(log: seq<Snapshot>, zkt: int) {
    forall k :: 0 <= k < |log| ==> log[k].zkt == zkt
  }

  lemma {:induction false} TimesRise(log: seq<Snapshot>, r: Record, lo: nat, hi: nat, a: nat, b: nat)
    requires Continuous(log, r, lo, hi) && lo <= a <= b <= hi
    ensures log[a].observedAt <= log[b].observedAt
    decreases b
  {
    if a < b {
      TimesRise(log, r, lo, hi, a, b - 1);
    }
  }

  /** A user two consecutive snapshots show has one recorded interval over both of them. */
  lemma ShownIsCovered(log: seq<Snapshot>, k: nat, u: User, key: EvidenceIndex.Key, when: int, tolerance: nat)
    returns (r: Record)
    requires ValidLog(log) && OneTerminal(log, key.zkt) && ShownTwice(log, k, u)
    requires key.serial == log[k].confirmedSerial && key.userId == u.userId
    requires log[k].observedAt <= when <= log[k + 1].observedAt
    ensures Reaches(log, key, r, when, tolerance)
    ensures r.deviceUser == u.id && r.uid == u.uid && r.cnic == u.cnic
  {
    var rows := History(log);
    C.HistoryLeavesNothingOut(log);
    var j :| 0 <= j < |log[k].users| && log[k].users[j] == u;
    assert C.Sighted(rows, log[k], k, u);
    var i :| 0 <= i < |rows| && C.Sights(rows[i], log[k], k, u);
    r := rows[i];
    HistoryProven(log);
    C.HistoryEndsRight(log);
    SightedReaches(log, k, u, r);
  }

  lemma SightedReaches(log: seq<Snapshot>, k: nat, u: User, r: Record)
    requires ValidLog(log) && ShownTwice(log, k, u) && C.Sights(r, log[k], k, u)
    requires Proven(log, r) && C.EndsRight(log, r)
    ensures r.from <= log[k].observedAt && log[k + 1].observedAt <= r.until
  {
    ShownGoesOn(log, k, u, r);
    SpanHolds(log, r, k);
    SpanHolds(log, r, k + 1);
  }

  lemma ShownGoesOn(log: seq<Snapshot>, k: nat, u: User, r: Record)
    requires ValidLog(log) && ShownTwice(log, k, u) && C.Sights(r, log[k], k, u)
    ensures C.GoesOn(log, r, k)
  {
    var j :| 0 <= j < |log[k + 1].users| && log[k + 1].users[j] == u;
    FindIsUnique(log[k + 1].users, j);
  }

  lemma SpanHolds(log: seq<Snapshot>, r: Record, k: nat)
    requires Proven(log, r) && r.firstSnapshot <= k <= r.lastSnapshot
    ensures k < |log| && r.from <= log[k].observedAt <= r.until
  {
    var lo: nat, hi: nat :| Spans(log, r, lo, hi);
    TimesRise(log, r, lo, hi, lo, k);
    TimesRise(log, r, lo, hi, k, hi);
  }

  /** Nothing but today's CNIC is on record for the punch, and no record of it is in doubt. */
  ghost predicate Undisputed(log: seq<Snapshot>, c: Case, tolerance: nat) {
    OnlyNames(log, c.key, c.current, c.event.when, tolerance)
    && (forall r :: Reaches(log, c.key, r, c.event.when, tolerance) ==> !r.revoked && P.UidOk(c.event, r))
    && c.extras.tombstones == [] && c.extras.prior.None? && P.UidMatches(c.event, c.user)
    && (c.event.captured.Some? ==> c.event.captured == Some(c.current))
    && (c.user.Some? && c.user.value.conflict ==> c.extras.conflictResolved)
  }

  /** A punch between two snapshots that show the same user, with nothing against it, matches today's CNIC. */
  lemma ShownThroughoutMatches(
      log: seq<Snapshot>, db: seq<Record>, c: Case, tolerance: nat, k: nat, u: User, id: P.Identity)
    requires ValidLog(log) && Lists(db, log) && OneTerminal(log, c.key.zkt) && ShownTwice(log, k, u)
    requires c.key.serial == log[k].confirmedSerial && c.key.userId == u.userId && u.cnic == c.current
    requires log[k].observedAt <= c.event.when <= log[k + 1].observedAt
    requires Undisputed(log, c, tolerance)
    requires Exact(db, c, tolerance, id) && !EvidenceIndex.TooMany(db, c.key, c.event.when, tolerance)
    ensures id.state == P.MatchesCurrent
  {
    var r := ShownIsCovered(log, k, u, c.key, c.event.when, tolerance);
    var f := EvidenceIndex.NaiveScan(db, c.key, c.event.when, tolerance);
    ScanIsFaithful(log, db, c.key, c.event.when, tolerance);
    UndisputedMatches(log, c, tolerance, f, r);
  }

  lemma UndisputedMatches(log: seq<Snapshot>, c: Case, tolerance: nat, f: EvidenceIndex.Found, r: Record)
    requires Faithful(log, c.key, c.event.when, tolerance, f) && Undisputed(log, c, tolerance)
    requires Reaches(log, c.key, r, c.event.when, tolerance)
    ensures P.Identify(c.event, c.user, c.current, Assembled(EvidenceIndex.Evidence(f, false), c.extras), tolerance)
            .state == P.MatchesCurrent
  {
    var ev := Assembled(EvidenceIndex.Evidence(f, false), c.extras);
    assert r in f.covering;
    UndisputedNamesToday(log, c, tolerance, f);
    UndisputedIsSound(log, c, tolerance, f);
    assert r in P.Trusted(c.event, c.user, c.current, ev) by {
      P.TrustedExactly(c.event, c.user, c.current, ev, r);
    }
    AloneMatches(c, tolerance, ev);
  }

  lemma AloneMatches(c: Case, tolerance: nat, ev: P.Evidence)
    requires P.Hashes(c.event, c.current, ev) <= {c.current} && P.Trusted(c.event, c.user, c.current, ev) != []
    requires !P.Refuses(c.user, ev) && !P.UnknownHolder(ev) && !P.Weakened(c.event, c.user, ev)
    ensures P.Identify(c.event, c.user, c.current, ev, tolerance).state == P.MatchesCurrent
  {
    P.VerdictExactly(c.event, c.user, c.current, ev, tolerance);
  }

  lemma UndisputedIsSound(log: seq<Snapshot>, c: Case, tolerance: nat, f: EvidenceIndex.Found)
    requires Faithful(log, c.key, c.event.when, tolerance, f) && Undisputed(log, c, tolerance)
    ensures var ev := Assembled(EvidenceIndex.Evidence(f, false), c.extras);
            !P.Refuses(c.user, ev) && !P.UnknownHolder(ev) && !P.Weakened(c.event, c.user, ev)
  {
  }

  lemma UndisputedNamesToday(log: seq<Snapshot>, c: Case, tolerance: nat, f: EvidenceIndex.Found)
    requires Faithful(log, c.key, c.event.when, tolerance, f) && Undisputed(log, c, tolerance) && f.covering != []
    ensures P.Hashes(c.event, c.current, Assembled(EvidenceIndex.Evidence(f, false), c.extras)) <= {c.current}
  {
    var ev := Assembled(EvidenceIndex.Evidence(f, false), c.extras);
    forall h | h in P.Hashes(c.event, c.current, ev) ensures h == c.current {
      P.NamedExactly(c.event, c.current, ev, h);
    }
  }
}
