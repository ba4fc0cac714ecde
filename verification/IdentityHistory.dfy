/**
 Retained identity intervals over every sequence of roster snapshots of one terminal.
 A snapshot's id is its position in the log of processed snapshots.
 */
module IdentityHistory {
  import opened Options
  import opened IdentityRecords

  datatype User = User(
    id: int, userId: string, uid: string, fingerprint: Option<string>, cnic: string, cnicValid: bool, conflict: bool)

  /** The roster as stored with the snapshot: the present, active terminal users. */
  datatype Snapshot = Snapshot(
    zkt: int, revision: int, complete: bool, stable: bool, observedAt: int,
    confirmedSerial: string, serial: string, users: seq<User>, cardTransitions: set<int>)

  predicate Good(s: Snapshot) {
    s.complete && s.stable && s.confirmedSerial != "" && s.confirmedSerial == s.serial
  }

  function Roster(s: Snapshot): seq<User> {
    if Good(s) then s.users else []
  }

  /** Terminal user rows have one primary key each. */
  predicate DistinctUsers(users: seq<User>) {
    forall i, j :: 0 <= i < j < |users| ==> users[i].id != users[j].id
  }

  predicate Usable(u: User) {
    !u.conflict && u.cnicValid
  }

  predicate SameIdentity(r: Record, s: Snapshot, u: User) {
    !r.revoked && r.serial == s.confirmedSerial && r.userId == u.userId && r.uid == u.uid
    && r.cnic == u.cnic && r.lastRevision + 1 == s.revision && s.observedAt >= r.until
  }

  predicate Continues(r: Record, s: Snapshot, u: User) {
    SameIdentity(r, s, u) && r.fingerprint == u.fingerprint
  }

  /** A card-policy write changed only the fingerprint: the two intervals meet. */
  predicate BridgesCard(r: Record, s: Snapshot, u: User) {
    SameIdentity(r, s, u) && u.id in s.cardTransitions
  }

  function Find(users: seq<User>, id: int): (r: Option<User>)
    ensures r.Some? ==> r.value in users && r.value.id == id
    ensures r.None? ==> forall u :: u in users ==> u.id != id
  {
    if users == [] then None
    else if users[0].id == id then Some(users[0])
    else Find(users[1..], id)
  }

  /** What one snapshot does to one open interval, before the closing pass. */
  function Seen(r: Record, s: Snapshot, n: nat, u: User): Record {
    if !Usable(u) then r.(revoked := true)
    else if Continues(r, s, u) then r.(lastSnapshot := n, lastRevision := s.revision, until := s.observedAt)
    else if BridgesCard(r, s, u) then r.(until := s.observedAt)
    else r
  }

  function Touched(r: Record, s: Snapshot, n: nat): Record {
    if r.closed then r
    else
      match Find(Roster(s), r.deviceUser)
      case None => r.(closed := true)
      case Some(u) => if Usable(u) && Continues(r, s, u) then Seen(r, s, n, u) else Seen(r, s, n, u).(closed := true)
  }

  /** The open interval of a device user, if any. */
  function OpenOf(rows: seq<Record>, user: int): (r: Option<Record>)
    ensures r.Some? ==> r.value in rows && !r.value.closed && r.value.deviceUser == user
    ensures r.None? ==> forall x :: x in rows ==> x.closed || x.deviceUser != user
  {
    if rows == [] then None
    else if !rows[0].closed && rows[0].deviceUser == user then Some(rows[0])
    else OpenOf(rows[1..], user)
  }

  predicate Opens(rows: seq<Record>, s: Snapshot, u: User) {
    Usable(u) && (OpenOf(rows, u.id).None? || !Continues(OpenOf(rows, u.id).value, s, u))
  }

  function Opened(rows: seq<Record>, s: Snapshot, n: nat, u: User, id: nat): Record {
    var open := OpenOf(rows, u.id);
    var start := if open.Some? && BridgesCard(open.value, s, u) then open.value.until else s.observedAt;
    Record(id, s.zkt, u.id, s.confirmedSerial, u.userId, u.uid, u.fingerprint, u.cnic, n, n, s.revision, start,
        s.observedAt, false, false)
  }

  function NewRows(rows: seq<Record>, s: Snapshot, n: nat, users: seq<User>, id: nat): seq<Record> {
    if users == [] then []
    else if Opens(rows, s, users[0]) then
      [Opened(rows, s, n, users[0], id)] + NewRows(rows, s, n, users[1..], id + 1)
    else NewRows(rows, s, n, users[1..], id)
  }

  function TouchedAll(rows: seq<Record>, s: Snapshot, n: nat): (t: seq<Record>)
    ensures |t| == |rows|
    ensures forall i :: 0 <= i < |t| ==> t[i] == Touched(rows[i], s, n)
  {
    seq(|rows|, i requires 0 <= i < |rows| => Touched(rows[i], s, n))
  }

  function Observed(rows: seq<Record>, s: Snapshot, n: nat): seq<Record> {
    TouchedAll(rows, s, n) + NewRows(rows, s, n, Roster(s), |rows|)
  }

  /** Every interval after a log of snapshots. */
  function History(log: seq<Snapshot>): seq<Record> {
    if log == [] then [] else Observed(History(log[..|log| - 1]), log[|log| - 1], |log| - 1)
  }

  ghost predicate OneOpenEach(rows: seq<Record>) {
    forall i, j :: 0 <= i < j < |rows| && !rows[i].closed && !rows[j].closed ==>
        rows[i].deviceUser != rows[j].deviceUser
  }

  lemma OpenIsUnique(rows: seq<Record>, i: nat)
    requires OneOpenEach(rows) && i < |rows| && !rows[i].closed
    ensures OpenOf(rows, rows[i].deviceUser) == Some(rows[i])
  {
    var r := OpenOf(rows, rows[i].deviceUser);
    var j :| 0 <= j < |rows| && rows[j] == r.value;
  }

  lemma FindIsUnique(users: seq<User>, i: nat)
    requires DistinctUsers(users) && i < |users|
    ensures Find(users, users[i].id) == Some(users[i])
  {
    var r := Find(users, users[i].id);
    var j :| 0 <= j < |users| && users[j] == r.value;
  }

  /** A new interval is the opening of some roster user from the k-th on, in roster order. */
  lemma {:induction false} NewRowsFrom(rows: seq<Record>, s: Snapshot, n: nat, users: seq<User>, k: nat, id: nat)
    returns (at: seq<nat>)
    requires k <= |users|
    ensures var t := NewRows(rows, s, n, users[k..], id);
            && |at| == |t|
            && (forall j :: 0 <= j < |t| ==>
                  k <= at[j] < |users| && Opens(rows, s, users[at[j]])
                      && t[j] == Opened(rows, s, n, users[at[j]], id + j))
            && (forall i, j :: 0 <= i < j < |t| ==> at[i] < at[j])
    decreases |users| - k
  {
    if k == |users| {
      at := [];
    } else {
      assert users[k..][0] == users[k] && users[k..][1..] == users[k + 1..];
      if Opens(rows, s, users[k]) {
        var rest := NewRowsFrom(rows, s, n, users, k + 1, id + 1);
        at := [k] + rest;
      } else {
        at := NewRowsFrom(rows, s, n, users, k + 1, id);
      }
    }
  }

  /** The stored intervals; `Observe` is the snapshot transaction. */
  class HistoryStore {
    var rows: seq<Record>

    ghost predicate Valid()
      reads this
    {
      OneOpenEach(rows)
    }

    method IndexOpen() returns (byUser: map<int, nat>)
      requires Valid()
      ensures forall u :: u in byUser ==>
                byUser[u] < |rows| && !rows[byUser[u]].closed && rows[byUser[u]].deviceUser == u
      ensures forall i :: 0 <= i < |rows| && !rows[i].closed ==>
                rows[i].deviceUser in byUser && byUser[rows[i].deviceUser] == i
    {
      byUser := map[];
      for k := 0 to |rows|
        invariant forall u :: u in byUser ==>
                    byUser[u] < k && !rows[byUser[u]].closed && rows[byUser[u]].deviceUser == u
        invariant forall i :: 0 <= i < k && !rows[i].closed ==>
                    rows[i].deviceUser in byUser && byUser[rows[i].deviceUser] == i
      {
        if !rows[k].closed {
          byUser := byUser[rows[k].deviceUser := k];
        }
      }
    }

    /** One roster user: extend, revoke or bridge the user's open interval, or add a new one. */
    method SeeUser(u: User, at: Option<nat>, s: Snapshot, n: nat) returns (continues: bool)
      requires at.Some? ==> at.value < |rows|
      modifies this
      ensures rows == WithUser(old(rows), at, s, n, u)
      ensures continues == (at.Some? && Usable(u) && Continues(old(rows)[at.value], s, u))
    {
      if !Usable(u) {
        if at.Some? {
          rows := rows[at.value := rows[at.value].(revoked := true)];
        }
        return false;
      }
      if at.Some? && Continues(rows[at.value], s, u) {
        rows := rows[at.value := rows[at.value].(lastSnapshot := n, lastRevision := s.revision, until := s.observedAt)];
        return true;
      }
      var start := s.observedAt;
      if at.Some? && BridgesCard(rows[at.value], s, u) {
        start := rows[at.value].until;
        rows := rows[at.value := rows[at.value].(until := s.observedAt)];
      }
      rows := rows + [Record(|rows|, s.zkt, u.id, s.confirmedSerial, u.userId, u.uid, u.fingerprint, u.cnic,
                             n, n, s.revision, start, s.observedAt, false, false)];
      return false;
    }

    method CloseOthers(before: seq<Record>, continued: set<nat>)
      requires |before| <= |rows|
      modifies this
      ensures |rows| == |old(rows)|
      ensures forall i :: 0 <= i < |rows| ==>
                rows[i] == if i < |before| && !before[i].closed && i !in continued then old(rows)[i].(closed := true)
                    else old(rows)[i]
    {
      for k := 0 to |before|
        invariant |rows| == |old(rows)|
        invariant forall i :: 0 <= i < |rows| ==>
                    rows[i] == if i < k && !before[i].closed && i !in continued then old(rows)[i].(closed := true)
                        else old(rows)[i]
      {
        if !before[k].closed && k !in continued {
          rows := rows[k := rows[k].(closed := true)];
        }
      }
    }

    /** The loop over the roster: which open intervals go on, and what the others and the new users become. */
    method SeeRoster(s: Snapshot, n: nat, users: seq<User>, byUser: map<int, nat>) returns (continued: set<nat>)
      requires Valid() && DistinctUsers(users)
      requires forall u :: u in byUser ==>
                 byUser[u] < |rows| && !rows[byUser[u]].closed && rows[byUser[u]].deviceUser == u
      requires forall i :: 0 <= i < |rows| && !rows[i].closed ==>
                 rows[i].deviceUser in byUser && byUser[rows[i].deviceUser] == i
      modifies this
      ensures Progress(old(rows), rows, s, n, users, |users|)
      ensures forall i: nat :: i in continued <==> i < |old(rows)| && Kept(old(rows)[i], s, users)
    {
      ghost var before := rows;
      continued := {};
      for k := 0 to |users|
        invariant Progress(before, rows, s, n, users, k)
        invariant forall i: nat :: i in continued <==> i < |before| && Kept(before[i], s, users[..k])
      {
        var at := if users[k].id in byUser then Some(byUser[users[k].id]) else None;
        SeesNext(before, rows, s, n, users, k, at);
        KeptNext(before, s, users, k, at);
        var continues := SeeUser(users[k], at, s, n);
        if continues {
          continued := continued + {at.value};
        }
      }
      assert users[..|users|] == users;
    }

    method Observe(s: Snapshot, n: nat)
      requires Valid() && DistinctUsers(s.users)
      modifies this
      ensures rows == Observed(old(rows), s, n)
    {
      var before := rows;
      var byUser := IndexOpen();
      var users := if Good(s) then s.users else [];
      var continued := SeeRoster(s, n, users, byUser);
      ghost var seen := rows;
      CloseOthers(before, continued);
      ClosedIsObserved(before, seen, rows, s, n, users, continued);
    }
  }

  lemma ClosedIsObserved(before: seq<Record>, seen: seq<Record>, rows: seq<Record>, s: Snapshot, n: nat,
        users: seq<User>, continued: set<nat>)
    requires users == Roster(s) && Progress(before, seen, s, n, users, |users|)
    requires forall i: nat :: i in continued <==> i < |before| && Kept(before[i], s, users)
    requires |rows| == |seen| && forall i :: 0 <= i < |rows| ==>
               rows[i] == if i < |before| && !before[i].closed && i !in continued then seen[i].(closed := true)
                   else seen[i]
    ensures rows == Observed(before, s, n)
  {
    assert users[..|users|] == users && users[|users|..] == [];
    forall i | 0 <= i < |before|
      ensures rows[i] == Touched(before[i], s, n)
    {
      assert seen[i] == AfterUsers(before[i], s, n, users);
    }
    assert rows[..|before|] == TouchedAll(before, s, n);
    assert rows[|before|..] == seen[|before|..] == NewRows(before, s, n, users, |before|);
    assert rows == rows[..|before|] + rows[|before|..];
  }

  function WithUser(rows: seq<Record>, at: Option<nat>, s: Snapshot, n: nat, u: User): seq<Record>
    requires at.Some? ==> at.value < |rows|
  {
    var touched := if at.Some? then rows[at.value := Seen(rows[at.value], s, n, u)] else rows;
    if !Usable(u) || (at.Some? && Continues(rows[at.value], s, u)) then touched
    else
      var start := if at.Some? && BridgesCard(rows[at.value], s, u) then rows[at.value].until else s.observedAt;
      touched + [Record(|rows|, s.zkt, u.id, s.confirmedSerial, u.userId, u.uid, u.fingerprint, u.cnic,
                        n, n, s.revision, start, s.observedAt, false, false)]
  }

  /** The state of the user loop after `k` users. */
  ghost predicate Progress(before: seq<Record>, rows: seq<Record>, s: Snapshot, n: nat, users: seq<User>, k: nat)
    requires k <= |users|
  {
    && |before| <= |rows|
    && rows[|before|..] + NewRows(before, s, n, users[k..], |rows|) == NewRows(before, s, n, users, |before|)
    && forall i :: 0 <= i < |before| ==> rows[i] == AfterUsers(before[i], s, n, users[..k])
  }

  /** The open interval of the k-th user, if there is one, is the one at `at`. */
  ghost predicate Located(before: seq<Record>, u: User, at: Option<nat>) {
    && (at.Some? ==> at.value < |before| && !before[at.value].closed && before[at.value].deviceUser == u.id)
    && (forall i :: 0 <= i < |before| && at != Some(i) ==> before[i].closed || before[i].deviceUser != u.id)
  }

  lemma LocatedOpens(before: seq<Record>, s: Snapshot, u: User, at: Option<nat>)
    requires OneOpenEach(before) && Located(before, u, at)
    ensures OpenOf(before, u.id) == if at.Some? then Some(before[at.value]) else None
  {
    if at.Some? { OpenIsUnique(before, at.value); }
  }

  lemma SeesNext(before: seq<Record>, rows: seq<Record>, s: Snapshot, n: nat, users: seq<User>, k: nat, at: Option<nat>)
    requires OneOpenEach(before) && DistinctUsers(users) && k < |users| && Progress(before, rows, s, n, users, k)
    requires Located(before, users[k], at)
    ensures Progress(before, WithUser(rows, at, s, n, users[k]), s, n, users, k + 1)
    ensures at.Some? ==> rows[at.value] == before[at.value]
  {
    FindNext(users, k);
    LocatedOpens(before, s, users[k], at);
    assert at.Some? ==> rows[at.value] == before[at.value];
    SeesNew(before, rows, s, n, users, k, at);
  }

  /** The next user adds exactly the next new interval. */
  lemma {:induction false} SeesNew(before: seq<Record>, rows: seq<Record>, s: Snapshot, n: nat, users: seq<User>,
        k: nat, at: Option<nat>)
    requires k < |users| && |before| <= |rows|
             && (at.Some? ==> at.value < |before| && rows[at.value] == before[at.value])
    requires OpenOf(before, users[k].id) == if at.Some? then Some(before[at.value]) else None
    ensures var next := WithUser(rows, at, s, n, users[k]);
            next[|before|..] + NewRows(before, s, n, users[k + 1..], |next|)
                == rows[|before|..] + NewRows(before, s, n, users[k..], |rows|)
  {
    var next, tail := WithUser(rows, at, s, n, users[k]), rows[|before|..];
    AddsOpened(before, rows, s, n, users[k], at);
    NewRowsNext(before, s, n, users, k, |rows|);
    if Opens(before, s, users[k]) {
      var row, rest := Opened(before, s, n, users[k], |rows|), NewRows(before, s, n, users[k + 1..], |rows| + 1);
      assert |next| == |rows| + 1;
      assert (tail + [row]) + rest == tail + ([row] + rest);
    } else {
      assert |next| == |rows| && tail + [] == tail;
    }
  }

  lemma NewRowsNext(rows: seq<Record>, s: Snapshot, n: nat, users: seq<User>, k: nat, id: nat)
    requires k < |users|
    ensures NewRows(rows, s, n, users[k..], id)
            == if Opens(rows, s, users[k]) then [Opened(rows, s, n, users[k], id)]
                + NewRows(rows, s, n, users[k + 1..], id + 1)
               else NewRows(rows, s, n, users[k + 1..], id)
  {
    assert users[k..][0] == users[k] && users[k..][1..] == users[k + 1..];
  }

  lemma {:induction false} AddsOpened(before: seq<Record>, rows: seq<Record>, s: Snapshot, n: nat, u: User,
        at: Option<nat>)
    requires |before| <= |rows| && (at.Some? ==> at.value < |before| && rows[at.value] == before[at.value])
    requires OpenOf(before, u.id) == if at.Some? then Some(before[at.value]) else None
    ensures WithUser(rows, at, s, n, u)[|before|..]
            == rows[|before|..] + if Opens(before, s, u) then [Opened(before, s, n, u, |rows|)] else []
  {
    var next := WithUser(rows, at, s, n, u);
    assert forall i :: |before| <= i < |rows| ==> next[i] == rows[i];
  }

  lemma KeptNext(before: seq<Record>, s: Snapshot, users: seq<User>, k: nat, at: Option<nat>)
    requires DistinctUsers(users) && k < |users| && Located(before, users[k], at)
    ensures forall i: nat :: i < |before| ==>
              (Kept(before[i], s, users[..k + 1]) <==>
                 Kept(before[i], s, users[..k])
                 || (at == Some(i) && Usable(users[k]) && Continues(before[i], s, users[k])))
  {
    FindNext(users, k);
  }

  /** An open interval after the users seen so far, before the closing pass. */
  ghost function AfterUsers(r: Record, s: Snapshot, n: nat, users: seq<User>): Record {
    if r.closed || Find(users, r.deviceUser).None? then r else Seen(r, s, n, Find(users, r.deviceUser).value)
  }

  ghost predicate Kept(r: Record, s: Snapshot, users: seq<User>) {
    !r.closed && Find(users, r.deviceUser).Some?
    && Usable(Find(users, r.deviceUser).value) && Continues(r, s, Find(users, r.deviceUser).value)
  }

  /** Looking one roster user further changes the answer for that user only. */
  lemma FindNext(users: seq<User>, k: nat)
    requires DistinctUsers(users) && k < |users|
    ensures Find(users[..k], users[k].id).None? && Find(users[..k + 1], users[k].id) == Some(users[k])
    ensures forall id :: id != users[k].id ==> Find(users[..k + 1], id) == Find(users[..k], id)
  {
    if k > 0 {
      assert users[..k + 1][1..] == users[1..][..k] && users[..k][1..] == users[1..][..k - 1];
      FindNext(users[1..], k - 1);
    } else {
      assert users[..1] == [users[0]];
    }
  }
}
