/** What a retained interval proves, for every log of processed snapshots. */
module IdentityContinuity {
  import opened Options
  import opened IdentityRecords
  import opened IdentityHistory
  import EvidenceIndex

  ghost predicate ValidLog(log: seq<Snapshot>) {
    forall k :: 0 <= k < |log| ==> DistinctUsers(log[k].users)
  }

  /** A complete, stable snapshot of a terminal that confirmed its own serial. */
  predicate Trustworthy(s: Snapshot) {
    s.complete && s.stable && s.serial != "" && s.serial == s.confirmedSerial
  }

  /** A user with a valid CNIC and no conflict. */
  predicate Identified(u: User) {
    u.cnicValid && !u.conflict
  }

  /** A trustworthy snapshot that shows this interval's person. */
  predicate Shows(s: Snapshot, r: Record) {
    Trustworthy(s) && s.confirmedSerial == r.serial
    && match Find(s.users, r.deviceUser)
       case None => false
       case Some(u) => Identified(u) && u.userId == r.userId && u.uid == r.uid && u.cnic == r.cnic
  }

  predicate SamePerson(r: Record, t: Record) {
    r.deviceUser == t.deviceUser && r.serial == t.serial && r.userId == t.userId && r.uid == t.uid && r.cnic == t.cnic
  }

  /** Snapshots lo..hi all show the person, with consecutive revisions and times that never run back. */
  ghost predicate Continuous(log: seq<Snapshot>, r: Record, lo: nat, hi: nat) {
    && lo <= hi < |log|
    && (forall k :: lo <= k <= hi ==> Shows(log[k], r) && log[k].revision == log[lo].revision + (k - lo))
    && (forall k :: lo <= k < hi ==> log[k].observedAt <= log[k + 1].observedAt)
  }

  predicate ShowsFingerprint(s: Snapshot, r: Record) {
    Find(s.users, r.deviceUser).Some? && Find(s.users, r.deviceUser).value.fingerprint == r.fingerprint
  }

  /**
   The interval spans the snapshots lo..hi: its own observations, widened by at most one
   snapshot on either side where a card-policy write changed only the fingerprint.
   */
  ghost predicate Spans(log: seq<Snapshot>, r: Record, lo: nat, hi: nat) {
    && lo <= r.firstSnapshot <= r.lastSnapshot <= hi < |log|
    && r.firstSnapshot <= lo + 1 && hi <= r.lastSnapshot + 1
    && r.from == log[lo].observedAt && r.until == log[hi].observedAt
    && r.lastRevision == log[r.lastSnapshot].revision
    && Continuous(log, r, lo, hi)
    && (forall k :: r.firstSnapshot <= k <= r.lastSnapshot ==> ShowsFingerprint(log[k], r))
    && (!r.closed ==> !r.revoked && hi == r.lastSnapshot == |log| - 1)
  }

  ghost predicate Proven(log: seq<Snapshot>, r: Record) {
    exists lo: nat, hi: nat :: Spans(log, r, lo, hi)
  }

  ghost predicate AllProven(log: seq<Snapshot>, rows: seq<Record>) {
    && OneOpenEach(rows)
    && (forall i :: 0 <= i < |rows| ==> rows[i].id == i && Proven(log, rows[i]))
  }

  lemma ContinuousStays(log: seq<Snapshot>, s: Snapshot, r: Record, t: Record, lo: nat, hi: nat)
    requires Continuous(log, r, lo, hi) && SamePerson(r, t)
    ensures Continuous(log + [s], t, lo, hi)
  {
    var next := log + [s];
    forall k | lo <= k <= hi ensures Shows(next[k], t) && next[k].revision == next[lo].revision + (k - lo) {
      assert next[k] == log[k] && Shows(log[k], r);
    }
  }

  lemma ContinuousGrows(log: seq<Snapshot>, s: Snapshot, r: Record, t: Record, lo: nat)
    requires log != [] && Continuous(log, r, lo, |log| - 1) && SamePerson(r, t) && Shows(s, t)
    requires s.revision == log[|log| - 1].revision + 1 && s.observedAt >= log[|log| - 1].observedAt
    ensures Continuous(log + [s], t, lo, |log|)
  {
    ContinuousStays(log, s, r, t, lo, |log| - 1);
  }

  /** An interval that stops here keeps its span. */
  lemma SpanStays(log: seq<Snapshot>, s: Snapshot, r: Record, revoked: bool, lo: nat, hi: nat)
    requires Spans(log, r, lo, hi)
    ensures Spans(log + [s], r.(closed := true, revoked := revoked), lo, hi)
  {
    ContinuousStays(log, s, r, r.(closed := true, revoked := revoked), lo, hi);
  }

  lemma SpanContinues(log: seq<Snapshot>, s: Snapshot, r: Record, u: User, lo: nat, hi: nat)
    requires Spans(log, r, lo, hi) && !r.closed && Good(s)
    requires Find(s.users, r.deviceUser) == Some(u) && Usable(u) && Continues(r, s, u)
    ensures Spans(log + [s], Seen(r, s, |log|, u), lo, |log|)
  {
    ContinuousGrows(log, s, r, Seen(r, s, |log|, u), lo);
  }

  lemma SpanBridges(log: seq<Snapshot>, s: Snapshot, r: Record, u: User, lo: nat, hi: nat)
    requires Spans(log, r, lo, hi) && !r.closed && Good(s)
    requires Find(s.users, r.deviceUser) == Some(u) && Usable(u) && BridgesCard(r, s, u) && !Continues(r, s, u)
    ensures Spans(log + [s], Seen(r, s, |log|, u).(closed := true), lo, |log|)
  {
    ContinuousGrows(log, s, r, Seen(r, s, |log|, u).(closed := true), lo);
  }

  lemma TouchedProven(log: seq<Snapshot>, s: Snapshot, r: Record)
    requires Proven(log, r) && DistinctUsers(s.users)
    ensures Proven(log + [s], Touched(r, s, |log|))
  {
    var lo: nat, hi: nat :| Spans(log, r, lo, hi);
    var found := Find(Roster(s), r.deviceUser);
    if r.closed || found.None? {
      SpanStays(log, s, r, r.revoked, lo, hi);
    } else if !Usable(found.value) {
      SpanStays(log, s, r, true, lo, hi);
    } else if Continues(r, s, found.value) {
      SpanContinues(log, s, r, found.value, lo, hi);
    } else if BridgesCard(r, s, found.value) {
      SpanBridges(log, s, r, found.value, lo, hi);
    } else {
      SpanStays(log, s, r, r.revoked, lo, hi);
    }
  }

  /** A new interval that meets the one it replaces starts at the previous snapshot. */
  lemma SpanOpensBridged(log: seq<Snapshot>, s: Snapshot, prior: Record, lo: nat, hi: nat, r: Record)
    requires Spans(log, prior, lo, hi) && !prior.closed && SamePerson(prior, r) && Shows(s, r) && ShowsFingerprint(s, r)
    requires prior.lastRevision + 1 == s.revision && s.observedAt >= prior.until && !r.closed && !r.revoked
    requires r.firstSnapshot == r.lastSnapshot == |log| && r.lastRevision == s.revision
    requires r.from == prior.until && r.until == s.observedAt
    ensures Spans(log + [s], r, |log| - 1, |log|)
  {
    assert Continuous(log, prior, hi, hi);
    ContinuousGrows(log, s, prior, r, hi);
  }

  lemma SpanOpens(log: seq<Snapshot>, s: Snapshot, r: Record)
    requires Shows(s, r) && ShowsFingerprint(s, r) && !r.closed && !r.revoked
    requires r.firstSnapshot == r.lastSnapshot == |log| && r.lastRevision == s.revision
    requires r.from == r.until == s.observedAt
    ensures Spans(log + [s], r, |log|, |log|)
  {
    assert Continuous(log + [s], r, |log|, |log|);
  }

  lemma OpenedProven(log: seq<Snapshot>, s: Snapshot, rows: seq<Record>, u: User, id: nat)
    requires OpenOf(rows, u.id).Some? ==> Proven(log, OpenOf(rows, u.id).value)
    requires Good(s) && Find(s.users, u.id) == Some(u) && Opens(rows, s, u)
    ensures Proven(log + [s], Opened(rows, s, |log|, u, id))
  {
    var r, open := Opened(rows, s, |log|, u, id), OpenOf(rows, u.id);
    if open.Some? && BridgesCard(open.value, s, u) {
      var lo: nat, hi: nat :| Spans(log, open.value, lo, hi);
      SpanOpensBridged(log, s, open.value, lo, hi, r);
    } else {
      SpanOpens(log, s, r);
    }
  }

  /** A continuing interval and a new one never belong to the same device user. */
  lemma NewIsNotContinued(rows: seq<Record>, s: Snapshot, n: nat, i: nat, k: nat)
    requires OneOpenEach(rows) && DistinctUsers(Roster(s)) && i < |rows| && k < |Roster(s)|
    requires Opens(rows, s, Roster(s)[k]) && !Touched(rows[i], s, n).closed
    ensures rows[i].deviceUser != Roster(s)[k].id
  {
    FindIsUnique(Roster(s), k);
    OpenIsUnique(rows, i);
  }

  lemma ObservedOneOpen(rows: seq<Record>, s: Snapshot, n: nat)
    requires OneOpenEach(rows) && DistinctUsers(s.users)
    ensures OneOpenEach(Observed(rows, s, n))
  {
    var next := Observed(rows, s, n);
    var at := NewRowsFrom(rows, s, n, Roster(s), 0, |rows|);
    assert Roster(s)[0..] == Roster(s);
    forall i, j | 0 <= i < j < |next| && !next[i].closed && !next[j].closed
      ensures next[i].deviceUser != next[j].deviceUser
    {
      if i < |rows| <= j {
        NewIsNotContinued(rows, s, n, i, at[j - |rows|]);
      }
    }
  }

  lemma NewRowProven(log: seq<Snapshot>, s: Snapshot, rows: seq<Record>, k: nat, id: nat)
    requires AllProven(log, rows) && DistinctUsers(s.users) && k < |Roster(s)| && Opens(rows, s, Roster(s)[k])
    ensures Proven(log + [s], Opened(rows, s, |log|, Roster(s)[k], id))
  {
    FindIsUnique(s.users, k);
    OpenedProven(log, s, rows, Roster(s)[k], id);
  }

  /** Every new row of a snapshot is proven by it. */
  lemma NewRowsProven(log: seq<Snapshot>, s: Snapshot, rows: seq<Record>)
    requires AllProven(log, rows) && DistinctUsers(s.users)
    ensures var t := NewRows(rows, s, |log|, Roster(s), |rows|);
            forall j :: 0 <= j < |t| ==> t[j].id == |rows| + j && Proven(log + [s], t[j])
  {
    var t := NewRows(rows, s, |log|, Roster(s), |rows|);
    var at := NewRowsFrom(rows, s, |log|, Roster(s), 0, |rows|);
    assert Roster(s)[0..] == Roster(s);
    forall j | 0 <= j < |t|
      ensures t[j].id == |rows| + j && Proven(log + [s], t[j])
    {
      NewRowProven(log, s, rows, at[j], |rows| + j);
    }
  }

  lemma TouchedRowsProven(log: seq<Snapshot>, s: Snapshot, rows: seq<Record>)
    requires AllProven(log, rows) && DistinctUsers(s.users)
    ensures forall i :: 0 <= i < |rows| ==>
              Touched(rows[i], s, |log|).id == i && Proven(log + [s], Touched(rows[i], s, |log|))
  {
    forall i | 0 <= i < |rows|
      ensures Touched(rows[i], s, |log|).id == i && Proven(log + [s], Touched(rows[i], s, |log|))
    {
      assert rows[i].id == i && Proven(log, rows[i]);
      TouchedProven(log, s, rows[i]);
    }
  }

  lemma ObservedProven(log: seq<Snapshot>, s: Snapshot, rows: seq<Record>)
    requires AllProven(log, rows) && DistinctUsers(s.users)
    ensures AllProven(log + [s], Observed(rows, s, |log|))
  {
    ObservedOneOpen(rows, s, |log|);
    TouchedRowsProven(log, s, rows);
    NewRowsProven(log, s, rows);
    var next := Observed(rows, s, |log|);
    forall i | 0 <= i < |next|
      ensures next[i].id == i && Proven(log + [s], next[i])
    {
      if i < |rows| {
        assert next[i] == Touched(rows[i], s, |log|);
      } else {
        assert next[i] == NewRows(rows, s, |log|, Roster(s), |rows|)[i - |rows|];
      }
    }
  }

  /** At most one open interval per device user, and every interval proven by its own snapshots. */
  lemma {:induction false} HistoryProven(log: seq<Snapshot>)
    requires ValidLog(log)
    ensures AllProven(log, History(log))
    decreases |log|
  {
    if log != [] {
      var n := |log| - 1;
      HistoryProven(log[..n]);
      ObservedProven(log[..n], log[n], History(log[..n]));
      assert log[..n] + [log[n]] == log;
    }
  }

  lemma {:induction false} TimesOrdered(log: seq<Snapshot>, a: nat, b: nat)
    requires a <= b < |log|
    requires forall k :: a <= k < b ==> log[k].observedAt <= log[k + 1].observedAt
    ensures log[a].observedAt <= log[b].observedAt
    decreases b - a
  {
    if a < b {
      TimesOrdered(log, a + 1, b);
    }
  }

  lemma RunsForward(log: seq<Snapshot>, rows: seq<Record>, i: nat)
    requires AllProven(log, rows) && i < |rows|
    ensures rows[i].from <= rows[i].until
  {
    var lo: nat, hi: nat :| Spans(log, rows[i], lo, hi);
    TimesOrdered(log, lo, hi);
  }

  lemma ProvenWellFormed(log: seq<Snapshot>, rows: seq<Record>)
    requires AllProven(log, rows)
    ensures forall r :: r in rows ==> r.from <= r.until
    ensures EvidenceIndex.DistinctIds(rows)
  {
    forall r | r in rows
      ensures r.from <= r.until
    {
      var i :| 0 <= i < |rows| && rows[i] == r;
      RunsForward(log, rows, i);
    }
    forall x, y | x in rows && y in rows && x.id == y.id
      ensures x == y
    {
      var i, j :| 0 <= i < |rows| && 0 <= j < |rows| && rows[i] == x && rows[j] == y;
    }
  }

  /** Every interval the evidence index reads runs forward and has its own id. */
  lemma HistoryWellFormed(log: seq<Snapshot>)
    requires ValidLog(log)
    ensures forall r :: r in History(log) ==> r.from <= r.until
    ensures EvidenceIndex.DistinctIds(History(log))
  {
    HistoryProven(log);
    ProvenWellFormed(log, History(log));
  }

  lemma {:induction false} StrictlyLater(log: seq<Snapshot>, a: nat, b: nat)
    requires a < b < |log|
    requires forall k :: 0 <= k < |log| - 1 ==> log[k].observedAt < log[k + 1].observedAt
    ensures log[a].observedAt < log[b].observedAt
    decreases b - a
  {
    if a + 1 < b {
      StrictlyLater(log, a + 1, b);
    }
  }

  /** One snapshot shows one CNIC for a device user. */
  lemma NotBothShown(s: Snapshot, a: Record, b: Record)
    requires a.deviceUser == b.deviceUser && a.cnic != b.cnic
    ensures !(Shows(s, a) && Shows(s, b))
  {}

  /** With strictly increasing times, two CNICs of one device user never share an instant. */
  lemma CnicsNeverOverlap(log: seq<Snapshot>, i: nat, j: nat, t: int)
    requires ValidLog(log)
    requires forall k :: 0 <= k < |log| - 1 ==> log[k].observedAt < log[k + 1].observedAt
    requires i < |History(log)| && j < |History(log)|
    requires History(log)[i].deviceUser == History(log)[j].deviceUser && History(log)[i].cnic != History(log)[j].cnic
    requires History(log)[i].from <= t <= History(log)[i].until
    ensures !(History(log)[j].from <= t <= History(log)[j].until)
  {
    HistoryProven(log);
    var a, b := History(log)[i], History(log)[j];
    var la: nat, ha: nat :| Spans(log, a, la, ha);
    var lb: nat, hb: nat :| Spans(log, b, lb, hb);
    NotBothShown(log[la], a, b);
    NotBothShown(log[lb], a, b);
    assert ha < lb || hb < la;
    if ha < lb {
      StrictlyLater(log, ha, lb);
    } else {
      StrictlyLater(log, hb, la);
    }
  }

  /** Any listing of recorded history can be read through the evidence index. */
  lemma HistoryIsReadable(log: seq<Snapshot>, db: seq<Record>)
    requires ValidLog(log) && forall r :: r in db ==> r in History(log)
    ensures EvidenceIndex.WellFormed(db)
  {
    HistoryWellFormed(log);
  }

  /**
   A record that covers a punch was seen around it: the snapshots that show its CNIC start no later
   than the punch and reach it, or the record is still open and was confirmed within the tolerance.
   */
  lemma {:induction false} CoveringIsProven(log: seq<Snapshot>, db: seq<Record>, key: EvidenceIndex.Key, when: int,
        tolerance: nat, r: Record)
    requires ValidLog(log) && forall x :: x in db ==> x in History(log)
    requires r in EvidenceIndex.CoveringRows(db, key, when, tolerance)
    ensures EvidenceIndex.KeyOf(r) == key
    ensures exists lo: nat, hi: nat :: Spans(log, r, lo, hi) && log[lo].observedAt <= when
              && (when <= log[hi].observedAt
                  || (hi == |log| - 1 && !r.revoked && when <= log[hi].observedAt + tolerance))
  {
    HistoryProven(log);
    EvidenceIndex.CoveringHas(db, key, when, tolerance);
    ListedIsProven(log, History(log), r);
    var lo: nat, hi: nat :| Spans(log, r, lo, hi);
  }

  lemma ListedIsProven(log: seq<Snapshot>, rows: seq<Record>, r: Record)
    requires AllProven(log, rows) && r in rows
    ensures Proven(log, r)
  {
    var i :| 0 <= i < |rows| && rows[i] == r;
  }
}
