/**
 The other half of what the intervals prove: nothing a good snapshot showed is left out, and where an interval ends,
 begins or is revoked is decided by the snapshots next to it.
 */
module IdentityCoverage {
  import opened Options
  import opened IdentityRecords
  import opened IdentityHistory
  import opened IdentityContinuity

  // ------------------------------------------------------------- how an interval ends

  /** The snapshot after the last one that continued the interval lists its user with a conflict or no valid CNIC. */
  predicate UnusableNext(log: seq<Snapshot>, r: Record) {
    r.lastSnapshot + 1 < |log|
    && var s := log[r.lastSnapshot + 1];
       Trustworthy(s) && Find(s.users, r.deviceUser).Some? && !Identified(Find(s.users, r.deviceUser).value)
  }

  /** Snapshot k + 1 shows the interval's person and fingerprint again, one revision and no time back. */
  predicate GoesOn(log: seq<Snapshot>, r: Record, k: nat) {
    k + 1 < |log| && Shows(log[k + 1], r) && ShowsFingerprint(log[k + 1], r)
    && log[k + 1].revision == log[k].revision + 1 && log[k + 1].observedAt >= log[k].observedAt
  }

  /** Snapshot k + 1 shows the person with another fingerprint, where a card-policy write was recorded. */
  predicate CardChanges(log: seq<Snapshot>, r: Record, k: nat) {
    k + 1 < |log| && Shows(log[k + 1], r) && r.deviceUser in log[k + 1].cardTransitions
    && log[k + 1].revision == log[k].revision + 1 && log[k + 1].observedAt >= log[k].observedAt
  }

  /** Closed by the first snapshot that does not continue it, revoked exactly if that one lists its user as unusable. */
  ghost predicate EndsRight(log: seq<Snapshot>, r: Record) {
    && r.lastSnapshot < |log| && r.firstSnapshot < |log| && r.zkt == log[r.firstSnapshot].zkt
    && (r.closed <==> r.lastSnapshot + 1 < |log|)
    && (r.revoked <==> UnusableNext(log, r))
    && !GoesOn(log, r, r.lastSnapshot)
    && r.until == if CardChanges(log, r, r.lastSnapshot) then log[r.lastSnapshot + 1].observedAt
                  else log[r.lastSnapshot].observedAt
  }

  lemma EndedStays(log: seq<Snapshot>, s: Snapshot, r: Record)
    requires EndsRight(log, r) && r.closed
    ensures EndsRight(log + [s], r)
  {
    var next := log + [s];
    assert next[r.lastSnapshot] == log[r.lastSnapshot] && next[r.lastSnapshot + 1] == log[r.lastSnapshot + 1];
    assert next[r.firstSnapshot] == log[r.firstSnapshot];
  }

  lemma TouchedEnds(log: seq<Snapshot>, s: Snapshot, r: Record)
    requires EndsRight(log, r) && Proven(log, r)
    ensures EndsRight(log + [s], Touched(r, s, |log|))
  {
    if r.closed {
      EndedStays(log, s, r);
    } else {
      var next := log + [s];
      var lo: nat, hi: nat :| Spans(log, r, lo, hi);
      assert next[|log| - 1] == log[|log| - 1] && next[|log|] == s && next[r.firstSnapshot] == log[r.firstSnapshot];
      OpenEnds(log, s, r);
    }
  }

  lemma OpenEnds(log: seq<Snapshot>, s: Snapshot, r: Record)
    requires EndsRight(log, r) && !r.closed && !r.revoked && r.lastSnapshot == |log| - 1
    requires r.lastRevision == log[|log| - 1].revision && r.until == log[|log| - 1].observedAt
    ensures EndsRight(log + [s], Touched(r, s, |log|))
  {
    var next, t := log + [s], Touched(r, s, |log|);
    assert next[|log| - 1] == log[|log| - 1] && next[|log|] == s && next[r.firstSnapshot] == log[r.firstSnapshot];
    var found := Find(Roster(s), r.deviceUser);
    if found.Some? && Usable(found.value) && Continues(r, s, found.value) {
      assert t.lastSnapshot == |log| && !t.closed;
    } else {
      assert t.lastSnapshot == |log| - 1 && t.closed;
    }
  }

  lemma OpenedEnds(log: seq<Snapshot>, s: Snapshot, rows: seq<Record>, u: User, id: nat)
    ensures EndsRight(log + [s], Opened(rows, s, |log|, u, id))
  {
    assert (log + [s])[|log|] == s;
  }

  ghost predicate AllEndRight(log: seq<Snapshot>, rows: seq<Record>) {
    forall i :: 0 <= i < |rows| ==> EndsRight(log, rows[i])
  }

  lemma {:induction false} TouchedRowsEnd(log: seq<Snapshot>, s: Snapshot, rows: seq<Record>)
    requires AllProven(log, rows) && AllEndRight(log, rows)
    ensures AllEndRight(log + [s], TouchedAll(rows, s, |log|))
  {
    forall i | 0 <= i < |rows| ensures EndsRight(log + [s], TouchedAll(rows, s, |log|)[i]) {
      TouchedEnds(log, s, rows[i]);
    }
  }

  lemma {:induction false} NewRowsEnd(log: seq<Snapshot>, s: Snapshot, rows: seq<Record>, users: seq<User>, id: nat)
    ensures AllEndRight(log + [s], NewRows(rows, s, |log|, users, id))
    decreases |users|
  {
    if users != [] {
      var opens := Opens(rows, s, users[0]);
      NewRowsEnd(log, s, rows, users[1..], if opens then id + 1 else id);
      OpenedEnds(log, s, rows, users[0], id);
    }
  }

  lemma {:induction false} ObservedEnds(log: seq<Snapshot>, s: Snapshot, rows: seq<Record>)
    requires AllProven(log, rows) && AllEndRight(log, rows)
    ensures AllEndRight(log + [s], Observed(rows, s, |log|))
  {
    TouchedRowsEnd(log, s, rows);
    NewRowsEnd(log, s, rows, Roster(s), |rows|);
    EndTogether(log + [s], TouchedAll(rows, s, |log|), NewRows(rows, s, |log|, Roster(s), |rows|));
  }

  lemma {:induction false} EndTogether(log: seq<Snapshot>, a: seq<Record>, b: seq<Record>)
    requires AllEndRight(log, a) && AllEndRight(log, b)
    ensures AllEndRight(log, a + b)
  {
    forall i | 0 <= i < |a + b| ensures EndsRight(log, (a + b)[i]) {
      assert (a + b)[i] == if i < |a| then a[i] else b[i - |a|];
    }
  }

  /**
   For every log of snapshots: an interval is closed by the first snapshot that does not show its person and
   fingerprint again, and is revoked if and only if that snapshot is good and lists its user as unusable.
   */
  lemma {:induction false} HistoryEndsRight(log: seq<Snapshot>)
    requires ValidLog(log)
    ensures AllEndRight(log, History(log))
    decreases |log|
  {
    if log != [] {
      var n := |log| - 1;
      HistoryEndsRight(log[..n]);
      HistoryProven(log[..n]);
      ObservedEnds(log[..n], log[n], History(log[..n]));
      assert log[..n] + [log[n]] == log;
    }
  }

  // --------------------------------------------------------- nothing shown is left out

  /** The interval records that snapshot k showed this user. */
  predicate Sights(r: Record, s: Snapshot, k: nat, u: User) {
    r.deviceUser == u.id && r.serial == s.confirmedSerial && r.userId == u.userId && r.uid == u.uid
    && r.cnic == u.cnic && r.fingerprint == u.fingerprint && r.firstSnapshot <= k <= r.lastSnapshot
  }

  ghost predicate Sighted(rows: seq<Record>, s: Snapshot, k: nat, u: User) {
    exists i :: 0 <= i < |rows| && Sights(rows[i], s, k, u)
  }

  ghost predicate AllSighted(log: seq<Snapshot>, rows: seq<Record>) {
    forall k, j :: 0 <= k < |log| && Trustworthy(log[k]) && 0 <= j < |log[k].users| && Identified(log[k].users[j]) ==>
      Sighted(rows, log[k], k, log[k].users[j])
  }

  lemma TouchedSights(log: seq<Snapshot>, r: Record, s: Snapshot, shown: Snapshot, k: nat, u: User)
    requires Proven(log, r) && Sights(r, shown, k, u)
    ensures Sights(Touched(r, s, |log|), shown, k, u)
  {
    var lo: nat, hi: nat :| Spans(log, r, lo, hi);
  }

  lemma SightedStays(log: seq<Snapshot>, rows: seq<Record>, s: Snapshot, shown: Snapshot, k: nat, u: User)
    requires AllProven(log, rows) && Sighted(rows, shown, k, u)
    ensures Sighted(Observed(rows, s, |log|), shown, k, u)
  {
    var i :| 0 <= i < |rows| && Sights(rows[i], shown, k, u);
    TouchedSights(log, rows[i], s, shown, k, u);
    assert Observed(rows, s, |log|)[i] == Touched(rows[i], s, |log|);
  }

  /** A user the open intervals do not continue gets a new one. */
  lemma {:induction false} NewRowsHave(rows: seq<Record>, s: Snapshot, n: nat, users: seq<User>, id: nat, j: nat)
    returns (at: nat)
    requires j < |users| && Opens(rows, s, users[j])
    ensures at < |NewRows(rows, s, n, users, id)|
    ensures NewRows(rows, s, n, users, id)[at] == Opened(rows, s, n, users[j], id + at)
    decreases |users|
  {
    if j == 0 {
      at := 0;
    } else if Opens(rows, s, users[0]) {
      var rest := NewRowsHave(rows, s, n, users[1..], id + 1, j - 1);
      at := rest + 1;
    } else {
      at := NewRowsHave(rows, s, n, users[1..], id, j - 1);
    }
  }

  lemma SeenNow(log: seq<Snapshot>, rows: seq<Record>, s: Snapshot, j: nat)
    requires AllProven(log, rows) && DistinctUsers(s.users) && Good(s) && j < |s.users| && Usable(s.users[j])
    ensures Sighted(Observed(rows, s, |log|), s, |log|, s.users[j])
  {
    var u, next := s.users[j], Observed(rows, s, |log|);
    var open := OpenOf(rows, u.id);
    if open.Some? && Continues(open.value, s, u) {
      var i :| 0 <= i < |rows| && rows[i] == open.value;
      FindIsUnique(s.users, j);
      var lo: nat, hi: nat :| Spans(log, rows[i], lo, hi);
      assert next[i] == Touched(rows[i], s, |log|);
      assert Sights(next[i], s, |log|, u);
    } else {
      var at := NewRowsHave(rows, s, |log|, Roster(s), |rows|, j);
      assert next[|rows| + at] == Opened(rows, s, |log|, u, |rows| + at);
      assert Sights(next[|rows| + at], s, |log|, u);
    }
  }

  lemma ObservedSighted(log: seq<Snapshot>, s: Snapshot, rows: seq<Record>)
    requires AllProven(log, rows) && AllSighted(log, rows) && DistinctUsers(s.users)
    ensures AllSighted(log + [s], Observed(rows, s, |log|))
  {
    var next := log + [s];
    forall k, j | 0 <= k < |next| && Trustworthy(next[k]) && 0 <= j < |next[k].users| && Identified(next[k].users[j])
      ensures Sighted(Observed(rows, s, |log|), next[k], k, next[k].users[j])
    {
      if k < |log| {
        SightedStays(log, rows, s, log[k], k, log[k].users[j]);
      } else {
        SeenNow(log, rows, s, j);
      }
    }
  }

  /** For every log: whatever usable user a good snapshot showed, some interval records that sighting. */
  lemma {:induction false} HistoryLeavesNothingOut(log: seq<Snapshot>)
    requires ValidLog(log)
    ensures AllSighted(log, History(log))
    decreases |log|
  {
    if log != [] {
      var n := |log| - 1;
      HistoryLeavesNothingOut(log[..n]);
      HistoryProven(log[..n]);
      ObservedSighted(log[..n], log[n], History(log[..n]));
      assert log[..n] + [log[n]] == log;
    }
  }

  /** After a good snapshot each usable user of it has an open interval that shows them. */
  lemma UsableUserIsOpen(log: seq<Snapshot>, j: nat)
    requires ValidLog(log) && log != [] && Trustworthy(log[|log| - 1])
    requires j < |log[|log| - 1].users| && Identified(log[|log| - 1].users[j])
    ensures exists i :: 0 <= i < |History(log)| && !History(log)[i].closed
              && Sights(History(log)[i], log[|log| - 1], |log| - 1, log[|log| - 1].users[j])
  {
    HistoryLeavesNothingOut(log);
    HistoryEndsRight(log);
    var n := |log| - 1;
    assert Sighted(History(log), log[n], n, log[n].users[j]);
    var i :| 0 <= i < |History(log)| && Sights(History(log)[i], log[n], n, log[n].users[j]);
    assert EndsRight(log, History(log)[i]);
  }

  // ----------------------------------------------------------- how an interval begins

  /** The snapshot before the interval's first one shows its person, one revision and no time before it. */
  predicate FollowsOn(log: seq<Snapshot>, r: Record) {
    0 < r.firstSnapshot < |log| && Shows(log[r.firstSnapshot - 1], r)
    && log[r.firstSnapshot].revision == log[r.firstSnapshot - 1].revision + 1
    && log[r.firstSnapshot].observedAt >= log[r.firstSnapshot - 1].observedAt
  }

  /** It starts at its first sighting, or meets the interval before it where only a card-policy write came between. */
  ghost predicate BeginsRight(log: seq<Snapshot>, r: Record) {
    && r.firstSnapshot < |log|
    && !(FollowsOn(log, r) && ShowsFingerprint(log[r.firstSnapshot - 1], r))
    && r.from == if FollowsOn(log, r) && r.deviceUser in log[r.firstSnapshot].cardTransitions
                 then log[r.firstSnapshot - 1].observedAt else log[r.firstSnapshot].observedAt
  }

  ghost predicate AllBeginRight(log: seq<Snapshot>, rows: seq<Record>) {
    forall i :: 0 <= i < |rows| ==> BeginsRight(log, rows[i])
  }

  lemma TouchedBegins(log: seq<Snapshot>, s: Snapshot, r: Record)
    requires BeginsRight(log, r)
    ensures BeginsRight(log + [s], Touched(r, s, |log|))
  {
    var next, t := log + [s], Touched(r, s, |log|);
    assert SamePerson(r, t) && t.firstSnapshot == r.firstSnapshot && t.from == r.from && t.fingerprint == r.fingerprint;
    assert next[r.firstSnapshot] == log[r.firstSnapshot];
    assert r.firstSnapshot > 0 ==> next[r.firstSnapshot - 1] == log[r.firstSnapshot - 1];
  }

  /** The open interval of a user, if any, is of the person the last snapshot shows. */
  lemma OpenIsShown(log: seq<Snapshot>, rows: seq<Record>, user: int)
    requires AllProven(log, rows) && OpenOf(rows, user).Some?
    ensures var r := OpenOf(rows, user).value;
            && log != [] && Shows(log[|log| - 1], r) && ShowsFingerprint(log[|log| - 1], r) && !r.revoked
            && r.lastRevision == log[|log| - 1].revision && r.until == log[|log| - 1].observedAt
  {
    var r := OpenOf(rows, user).value;
    ListedIsProven(log, rows, r);
    var lo: nat, hi: nat :| Spans(log, r, lo, hi);
  }

  /** The person the last snapshot shows has an open interval. */
  lemma ShownIsOpen(log: seq<Snapshot>, rows: seq<Record>, r: Record)
    requires AllProven(log, rows) && AllSighted(log, rows) && AllEndRight(log, rows)
    requires log != [] && Shows(log[|log| - 1], r)
    ensures OpenOf(rows, r.deviceUser).Some? && SamePerson(OpenOf(rows, r.deviceUser).value, r)
  {
    var n := |log| - 1;
    var u := Find(log[n].users, r.deviceUser).value;
    var j :| 0 <= j < |log[n].users| && log[n].users[j] == u;
    assert Sighted(rows, log[n], n, log[n].users[j]);
    var i :| 0 <= i < |rows| && Sights(rows[i], log[n], n, u);
    assert EndsRight(log, rows[i]);
    OpenIsUnique(rows, i);
  }

  /** What is known of a user's open interval decides where a new one begins. */
  lemma OpenedBeginsAt(log: seq<Snapshot>, s: Snapshot, r: Record, u: User, open: Option<Record>)
    requires r.firstSnapshot == |log| && r.deviceUser == u.id && r.serial == s.confirmedSerial
    requires r.userId == u.userId && r.uid == u.uid && r.cnic == u.cnic && r.fingerprint == u.fingerprint
    requires r.from == if open.Some? && BridgesCard(open.value, s, u) then open.value.until else s.observedAt
    requires open.None? || !Continues(open.value, s, u)
    requires open.Some? ==>
               && open.value.deviceUser == u.id && !open.value.revoked && log != []
               && Shows(log[|log| - 1], open.value) && ShowsFingerprint(log[|log| - 1], open.value)
               && open.value.lastRevision == log[|log| - 1].revision && open.value.until == log[|log| - 1].observedAt
    requires log != [] && Shows(log[|log| - 1], r) ==> open.Some? && SamePerson(open.value, r)
    ensures BeginsRight(log + [s], r)
  {
    var next := log + [s];
    assert next[|log|] == s;
    if log != [] {
      var last := log[|log| - 1];
      assert next[|log| - 1] == last;
      assert open.Some? && SameIdentity(open.value, s, u) ==> Shows(last, r);
      assert Shows(last, r) && s.revision == last.revision + 1 && s.observedAt >= last.observedAt ==>
               SameIdentity(open.value, s, u);
    }
  }

  lemma OpenedBegins(log: seq<Snapshot>, s: Snapshot, rows: seq<Record>, u: User, id: nat)
    requires AllProven(log, rows) && AllSighted(log, rows) && AllEndRight(log, rows) && Opens(rows, s, u)
    ensures BeginsRight(log + [s], Opened(rows, s, |log|, u, id))
  {
    var r := Opened(rows, s, |log|, u, id);
    if log != [] && Shows(log[|log| - 1], r) {
      ShownIsOpen(log, rows, r);
    }
    if OpenOf(rows, u.id).Some? {
      OpenIsShown(log, rows, u.id);
    }
    OpenedBeginsAt(log, s, r, u, OpenOf(rows, u.id));
  }

  ghost predicate OpeningsBegin(log: seq<Snapshot>, s: Snapshot, rows: seq<Record>) {
    forall u, id :: Opens(rows, s, u) ==> BeginsRight(log + [s], Opened(rows, s, |log|, u, id))
  }

  lemma OpeningsBeginRight(log: seq<Snapshot>, s: Snapshot, rows: seq<Record>)
    requires AllProven(log, rows) && AllSighted(log, rows) && AllEndRight(log, rows)
    ensures OpeningsBegin(log, s, rows)
  {
    forall u, id | Opens(rows, s, u) ensures BeginsRight(log + [s], Opened(rows, s, |log|, u, id)) {
      OpenedBegins(log, s, rows, u, id);
    }
  }

  lemma {:induction false} NewRowsBegin(log: seq<Snapshot>, s: Snapshot, rows: seq<Record>, users: seq<User>, id: nat)
    requires OpeningsBegin(log, s, rows)
    ensures AllBeginRight(log + [s], NewRows(rows, s, |log|, users, id))
    decreases |users|
  {
    if users != [] {
      if Opens(rows, s, users[0]) {
        NewRowsBegin(log, s, rows, users[1..], id + 1);
        var first := [Opened(rows, s, |log|, users[0], id)];
        assert AllBeginRight(log + [s], first);
        BeginTogether(log + [s], first, NewRows(rows, s, |log|, users[1..], id + 1));
      } else {
        NewRowsBegin(log, s, rows, users[1..], id);
      }
    }
  }

  lemma TouchedRowsBegin(log: seq<Snapshot>, s: Snapshot, rows: seq<Record>)
    requires AllBeginRight(log, rows)
    ensures AllBeginRight(log + [s], TouchedAll(rows, s, |log|))
  {
    forall i | 0 <= i < |rows| ensures BeginsRight(log + [s], TouchedAll(rows, s, |log|)[i]) {
      TouchedBegins(log, s, rows[i]);
    }
  }

  lemma ObservedBegins(log: seq<Snapshot>, s: Snapshot, rows: seq<Record>)
    requires AllProven(log, rows) && AllSighted(log, rows) && AllEndRight(log, rows) && AllBeginRight(log, rows)
    ensures AllBeginRight(log + [s], Observed(rows, s, |log|))
  {
    OpeningsBeginRight(log, s, rows);
    NewRowsBegin(log, s, rows, Roster(s), |rows|);
    TouchedRowsBegin(log, s, rows);
    BeginTogether(log + [s], TouchedAll(rows, s, |log|), NewRows(rows, s, |log|, Roster(s), |rows|));
  }

  lemma BeginTogether(log: seq<Snapshot>, a: seq<Record>, b: seq<Record>)
    requires AllBeginRight(log, a) && AllBeginRight(log, b)
    ensures AllBeginRight(log, a + b)
  {
    forall i | 0 <= i < |a + b| ensures BeginsRight(log, (a + b)[i]) {
      assert (a + b)[i] == if i < |a| then a[i] else b[i - |a|];
    }
  }

  /**
   For every log: an interval begins only where the snapshot before does not show the same person and fingerprint, and
   reaches back to that snapshot exactly where it shows the person and a card-policy write was recorded.
   */
  lemma {:induction false} HistoryBeginsRight(log: seq<Snapshot>)
    requires ValidLog(log)
    ensures AllBeginRight(log, History(log))
    decreases |log|
  {
    if log != [] {
      var n := |log| - 1;
      HistoryBeginsRight(log[..n]);
      HistoryProven(log[..n]);
      HistoryEndsRight(log[..n]);
      HistoryLeavesNothingOut(log[..n]);
      ObservedBegins(log[..n], log[n], History(log[..n]));
      assert log[..n] + [log[n]] == log;
    }
  }
}
