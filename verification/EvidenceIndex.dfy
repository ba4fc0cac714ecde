/**
 Punch-time evidence for many punches, read through bounded windows: chunks of
 terminal user IDs, each with one time window, split by punch time when a window holds
 more intervals than one read returns. The stored intervals are listed in the order a
 query returns them, so a limited read is a prefix of the filtered list.
 */
module EvidenceIndex {
  import opened Options
  import opened IdentityRecords

  const KEY_CHUNK := 50
  const CHUNK_ROW_LIMIT := 5000
  const PER_KEY_LIMIT := 500
  const MAX_COVERING := 100

  datatype Key = Key(zkt: int, serial: string, userId: string)

  function KeyOf(r: Record): Key {
    Key(r.zkt, r.serial, r.userId)
  }

  predicate Covers(r: Record, when: int, tolerance: nat) {
    r.from <= when && (r.until >= when || (!r.closed && r.until >= when - tolerance))
  }

  predicate InWindow(r: Record, key: Key, low: int, high: int, tolerance: nat) {
    KeyOf(r) == key && r.from <= high && r.until >= low - tolerance
  }

  function Kept<T>(x: T, keep: T -> bool): seq<T> {
    if keep(x) then [x] else []
  }

  function Filter<T>(s: seq<T>, keep: T -> bool): seq<T> {
    if s == [] then [] else Kept(s[0], keep) + Filter(s[1..], keep)
  }

  lemma {:induction false} FilterHas<T(!new)>(s: seq<T>, keep: T -> bool)
    ensures forall x :: x in Filter(s, keep) <==> x in s && keep(x)
  {
    if s != [] {
      FilterHas(s[1..], keep);
      assert forall x :: x in s <==> x == s[0] || x in s[1..];
    }
  }

  /** A coarser filter in front of a finer one changes nothing. */
  lemma {:induction false} FilterThrough<T(!new)>(s: seq<T>, coarse: T -> bool, fine: T -> bool)
    requires forall x :: x in s && fine(x) ==> coarse(x)
    ensures Filter(Filter(s, coarse), fine) == Filter(s, fine)
  {
    if s != [] {
      FilterThrough(s[1..], coarse, fine);
      var rest := Filter(s[1..], coarse);
      if coarse(s[0]) {
        assert Filter(s, coarse)[1..] == rest;
      } else {
        assert Filter(s, coarse) == rest;
      }
    }
  }

  lemma {:induction false} FilterAgrees<T(!new)>(s: seq<T>, f: T -> bool, g: T -> bool)
    requires forall x :: x in s ==> f(x) == g(x)
    ensures Filter(s, f) == Filter(s, g)
  {
    if s != [] {
      FilterAgrees(s[1..], f, g);
    }
  }

  // ------------------------------------------------------------ nearest records

  predicate EndsNoLater(x: Record, y: Record) {
    x.until < y.until || (x.until == y.until && x.id <= y.id)
  }

  predicate StartsNoEarlier(x: Record, y: Record) {
    x.from > y.from || (x.from == y.from && x.id >= y.id)
  }

  function Latest(s: seq<Record>): (m: Option<Record>)
    ensures m.None? <==> s == []
    ensures m.Some? ==> m.value in s && forall x :: x in s ==> EndsNoLater(x, m.value)
  {
    if s == [] then None
    else
      var rest := Latest(s[1..]);
      assert forall x :: x in s ==> x == s[0] || x in s[1..];
      if rest.None? || EndsNoLater(rest.value, s[0]) then Some(s[0]) else rest
  }

  function Earliest(s: seq<Record>): (m: Option<Record>)
    ensures m.None? <==> s == []
    ensures m.Some? ==> m.value in s && forall x :: x in s ==> StartsNoEarlier(x, m.value)
  {
    if s == [] then None
    else
      var rest := Earliest(s[1..]);
      assert forall x :: x in s ==> x == s[0] || x in s[1..];
      if rest.None? || StartsNoEarlier(rest.value, s[0]) then Some(s[0]) else rest
  }

  ghost predicate DistinctIds(db: seq<Record>) {
    forall x, y :: x in db && y in db && x.id == y.id ==> x == y
  }

  ghost predicate WellFormed(db: seq<Record>) {
    DistinctIds(db) && forall x :: x in db ==> x.from <= x.until
  }

  /** Dropping records that something kept outranks does not move the maximum. */
  lemma LatestOfPart(db: seq<Record>, part: seq<Record>, whole: seq<Record>)
    requires DistinctIds(db) && (forall x :: x in whole ==> x in db) && (forall x :: x in part ==> x in whole)
    requires forall x :: x in whole ==> Latest(part).Some? && EndsNoLater(x, Latest(part).value)
    ensures Latest(part) == Latest(whole)
  {
    var m, p := Latest(whole), Latest(part);
    if m.Some? {
      assert p.value in whole && EndsNoLater(p.value, m.value);
    }
  }

  lemma EarliestOfPart(db: seq<Record>, part: seq<Record>, whole: seq<Record>)
    requires DistinctIds(db) && (forall x :: x in whole ==> x in db) && (forall x :: x in part ==> x in whole)
    requires forall x :: x in whole ==> Earliest(part).Some? && StartsNoEarlier(x, Earliest(part).value)
    ensures Earliest(part) == Earliest(whole)
  {
    var m, p := Earliest(whole), Earliest(part);
    if m.Some? {
      assert p.value in whole && StartsNoEarlier(p.value, m.value);
    }
  }

  // ------------------------------------------------------------- naive full scan

  datatype Found = Found(covering: seq<Record>, before: Option<Record>, after: Option<Record>)

  function InsertById(r: Record, s: seq<Record>): seq<Record> {
    if s == [] || r.id <= s[0].id then [r] + s else [s[0]] + InsertById(r, s[1..])
  }

  function SortById(s: seq<Record>): seq<Record> {
    if s == [] then [] else InsertById(s[0], SortById(s[1..]))
  }

  lemma {:induction false} SortedLength(s: seq<Record>)
    ensures |SortById(s)| == |s|
  {
    if s != [] {
      SortedLength(s[1..]);
      InsertLength(s[0], SortById(s[1..]));
    }
  }

  lemma {:induction false} InsertLength(r: Record, s: seq<Record>)
    ensures |InsertById(r, s)| == |s| + 1
  {
    if s != [] && r.id > s[0].id {
      InsertLength(r, s[1..]);
    }
  }

  function CoveringRows(db: seq<Record>, key: Key, when: int, tolerance: nat): seq<Record> {
    Filter(db, (r: Record) => KeyOf(r) == key && Covers(r, when, tolerance))
  }

  function EndedBefore(db: seq<Record>, key: Key, when: int): seq<Record> {
    Filter(db, (r: Record) => KeyOf(r) == key && r.until < when)
  }

  function StartedAfter(db: seq<Record>, key: Key, when: int): seq<Record> {
    Filter(db, (r: Record) => KeyOf(r) == key && r.from > when)
  }

  function WindowRows(db: seq<Record>, key: Key, low: int, high: int, tolerance: nat): seq<Record> {
    Filter(db, (r: Record) => InWindow(r, key, low, high, tolerance))
  }

  /** Everything retained about one terminal user ID at one instant, by scanning it all. */
  function NaiveScan(db: seq<Record>, key: Key, when: int, tolerance: nat): Found {
    Found(SortById(CoveringRows(db, key, when, tolerance)), Latest(EndedBefore(db, key, when)),
        Earliest(StartedAfter(db, key, when)))
  }

  // --------------------------------------------------------------- windowed reads

  datatype Span = Span(
    key: Key, times: seq<int>, rows: seq<Record>, before: Option<Record>, after: Option<Record>, truncated: bool)

  predicate Sorted(times: seq<int>) {
    forall i, j :: 0 <= i < j < |times| ==> times[i] <= times[j]
  }

  lemma SortedCons(x: int, s: seq<int>)
    requires Sorted(s) && forall y :: y in s ==> x <= y
    ensures Sorted([x] + s)
  {
    var t := [x] + s;
    forall i, j | 0 <= i < j < |t| ensures t[i] <= t[j] {
      assert t[j] == s[j - 1] && t[j] in s;
    }
  }

  function Low(times: seq<int>): int
    requires times != []
  {
    times[0]
  }

  function High(times: seq<int>): int
    requires times != []
  {
    times[|times| - 1]
  }

  /** What a finished span promises about the stored intervals. */
  ghost predicate SpanSound(db: seq<Record>, tolerance: nat, span: Span) {
    && span.times != [] && Sorted(span.times)
    && span.before == Latest(EndedBefore(db, span.key, Low(span.times) - tolerance))
    && span.after == Earliest(StartedAfter(db, span.key, High(span.times)))
    && (if span.truncated then
          Low(span.times) == High(span.times)
          && |WindowRows(db, span.key, Low(span.times), Low(span.times), tolerance)| > PER_KEY_LIMIT
        else span.rows == WindowRows(db, span.key, Low(span.times), High(span.times), tolerance))
  }

  function Take<T>(s: seq<T>, n: nat): seq<T> {
    if |s| <= n then s else s[..n]
  }

  /** `sorted(set(times))` of sorted times. */
  function Distinct(times: seq<int>): (d: seq<int>)
    requires Sorted(times)
    ensures forall t :: t in d <==> t in times
    ensures forall i, j :: 0 <= i < j < |d| ==> d[i] < d[j]
  {
    if |times| <= 1 then times
    else if times[0] == times[1] then Distinct(times[1..])
    else
      var rest := Distinct(times[1..]);
      assert forall k :: 0 <= k < |rest| ==> times[0] < rest[k] by {
        assert forall i :: 0 <= i < |times[1..]| ==> times[1..][i] == times[i + 1] >= times[1];
        assert forall k :: 0 <= k < |rest| ==> rest[k] in times[1..];
      }
      [times[0]] + rest
  }

  function Values(times: seq<int>): set<int> {
    set t | t in times
  }

  lemma {:induction false} FilterSorted(times: seq<int>, keep: int -> bool)
    requires Sorted(times)
    ensures Sorted(Filter(times, keep))
  {
    if times != [] {
      FilterSorted(times[1..], keep);
      assert forall i :: 0 <= i < |times[1..]| ==> times[1..][i] == times[i + 1] >= times[0];
      FilterHas(times[1..], keep);
      SortedCons(times[0], Filter(times[1..], keep));
    }
  }

  function TimesBefore(times: seq<int>, pivot: int): (part: seq<int>)
    ensures forall t :: t in part <==> t in times && t < pivot
  {
    FilterHas(times, (t: int) => t < pivot);
    Filter(times, (t: int) => t < pivot)
  }

  function TimesFrom(times: seq<int>, pivot: int): (part: seq<int>)
    ensures forall t :: t in part <==> t in times && t >= pivot
  {
    FilterHas(times, (t: int) => t >= pivot);
    Filter(times, (t: int) => t >= pivot)
  }

  function Middle(distinct: seq<int>): int
    requires |distinct| > 1
  {
    distinct[|distinct| / 2]
  }

  lemma HalvesSorted(times: seq<int>, pivot: int)
    requires Sorted(times)
    ensures Sorted(TimesBefore(times, pivot)) && Sorted(TimesFrom(times, pivot))
  {
    FilterSorted(times, (t: int) => t < pivot);
    FilterSorted(times, (t: int) => t >= pivot);
  }

  /** A part that leaves out a time holds fewer distinct times. */
  lemma FewerValues(part: seq<int>, times: seq<int>, missing: int)
    requires (forall t :: t in part ==> t in times) && missing in times && missing !in part
    ensures |Values(part)| < |Values(times)|
  {
    assert forall t :: t in Values(part) ==> t in part && t in Values(times);
    assert missing in Values(times) && missing !in Values(part);
    assert Values(part) <= Values(times) - {missing};
    SubsetCount(Values(part), Values(times) - {missing});
  }

  /** Both halves are nonempty and hold strictly fewer distinct punch times. */
  lemma Halves(times: seq<int>)
    requires Sorted(times) && |Distinct(times)| > 1
    ensures var left, right := TimesBefore(times, Middle(Distinct(times))), TimesFrom(times, Middle(Distinct(times)));
            && left != [] && right != [] && Sorted(left) && Sorted(right)
            && |Values(left)| < |Values(times)| && |Values(right)| < |Values(times)|
  {
    var d := Distinct(times);
    var pivot := Middle(d);
    HalvesSorted(times, pivot);
    assert |d| / 2 > 0 && d[|d| / 2] == pivot;
    assert d[0] in d && pivot in d && d[0] < pivot;
    assert d[0] in TimesBefore(times, pivot) && pivot in TimesFrom(times, pivot);
    FewerValues(TimesBefore(times, pivot), times, pivot);
    FewerValues(TimesFrom(times, pivot), times, d[0]);
  }

  lemma SubsetCount(a: set<int>, b: set<int>)
    requires a <= b
    ensures |a| <= |b|
  {
    assert b == a + (b - a);
  }

  predicate Splits(db: seq<Record>, tolerance: nat, key: Key, times: seq<int>)
    requires times != [] && Sorted(times)
  {
    |Take(WindowRows(db, key, Low(times), High(times), tolerance), PER_KEY_LIMIT + 1)| > PER_KEY_LIMIT
        && |Distinct(times)| > 1
  }

  /** One window read to the limit, with the nearest records outside it. */
  function Leaf(db: seq<Record>, tolerance: nat, key: Key, times: seq<int>): Span
    requires times != [] && Sorted(times)
  {
    var rows := Take(WindowRows(db, key, Low(times), High(times), tolerance), PER_KEY_LIMIT + 1);
    Span(key, times, Take(rows, PER_KEY_LIMIT),
         Latest(EndedBefore(db, key, Low(times) - tolerance)), Earliest(StartedAfter(db, key, High(times))),
         |rows| > PER_KEY_LIMIT)
  }

  /** One terminal user ID's window, halved until each part reads in full. */
  function ReadSpan(db: seq<Record>, tolerance: nat, key: Key, times: seq<int>): seq<Span>
    requires times != [] && Sorted(times)
    decreases |Values(times)|
  {
    if Splits(db, tolerance, key, times) then
      Halves(times);
      ReadSpan(db, tolerance, key, TimesBefore(times, Middle(Distinct(times))))
          + ReadSpan(db, tolerance, key, TimesFrom(times, Middle(Distinct(times))))
    else [Leaf(db, tolerance, key, times)]
  }

  ghost predicate Answers(spans: seq<Span>, key: Key, times: seq<int>) {
    forall t :: t in times ==> exists sp :: sp in spans && sp.key == key && t in sp.times
  }

  lemma AnswersTogether(a: seq<Span>, b: seq<Span>, key: Key, left: seq<int>, right: seq<int>, times: seq<int>)
    requires Answers(a, key, left) && Answers(b, key, right)
    requires forall t :: t in times ==> t in left || t in right
    ensures Answers(a + b, key, times)
  {
    forall t | t in times ensures exists sp: Span :: sp in a + b && sp.key == key && t in sp.times {
      if t in left {
        var sp: Span :| sp in a && sp.key == key && t in sp.times;
        assert sp in a + b;
      } else {
        var sp: Span :| sp in b && sp.key == key && t in sp.times;
        assert sp in a + b;
      }
    }
  }

  lemma OneTimeOnly(times: seq<int>)
    requires times != [] && Sorted(times) && |Distinct(times)| <= 1
    ensures Low(times) == High(times)
  {
    var d := Distinct(times);
    assert Low(times) in times && High(times) in times;
    assert Low(times) in d && High(times) in d;
  }

  lemma TakeTwice<T>(s: seq<T>, n: nat)
    ensures |Take(s, n + 1)| > n <==> |s| > n
    ensures |s| <= n ==> Take(Take(s, n + 1), n) == s
  {
  }

  lemma LeafSound(db: seq<Record>, tolerance: nat, key: Key, times: seq<int>)
    requires times != [] && Sorted(times) && !Splits(db, tolerance, key, times)
    ensures SpanSound(db, tolerance, Leaf(db, tolerance, key, times))
  {
    var window := WindowRows(db, key, Low(times), High(times), tolerance);
    TakeTwice(window, PER_KEY_LIMIT);
    if |window| > PER_KEY_LIMIT {
      OneTimeOnly(times);
    }
  }

  lemma {:induction false} ReadSpanSound(db: seq<Record>, tolerance: nat, key: Key, times: seq<int>)
    requires times != [] && Sorted(times)
    ensures forall sp :: sp in ReadSpan(db, tolerance, key, times) ==> SpanSound(db, tolerance, sp)
    ensures Answers(ReadSpan(db, tolerance, key, times), key, times)
    decreases |Values(times)|
  {
    if Splits(db, tolerance, key, times) {
      Halves(times);
      var left, right := TimesBefore(times, Middle(Distinct(times))), TimesFrom(times, Middle(Distinct(times)));
      ReadSpanSound(db, tolerance, key, left);
      ReadSpanSound(db, tolerance, key, right);
      AnswersTogether(ReadSpan(db, tolerance, key, left), ReadSpan(db, tolerance, key, right), key, left, right, times);
    } else {
      LeafSound(db, tolerance, key, times);
      assert Leaf(db, tolerance, key, times) in ReadSpan(db, tolerance, key, times);
    }
  }

  datatype Wanted = Wanted(key: Key, times: seq<int>)

  ghost predicate ValidWanted(wanted: seq<Wanted>) {
    && (forall i :: 0 <= i < |wanted| ==> wanted[i].times != [] && Sorted(wanted[i].times))
    && (forall i, j :: 0 <= i < j < |wanted| ==> wanted[i].key != wanted[j].key)
  }

  predicate Wants(chunk: seq<Wanted>, r: Record, tolerance: nat) {
    exists i :: 0 <= i < |chunk| && chunk[i].times != []
      && InWindow(r, chunk[i].key, Low(chunk[i].times), High(chunk[i].times), tolerance)
  }

  /** One query for a whole chunk of terminal user IDs. */
  function ChunkRows(db: seq<Record>, chunk: seq<Wanted>, tolerance: nat): seq<Record> {
    Filter(db, (r: Record) => Wants(chunk, r, tolerance))
  }

  /** The rows of a chunk that carry one key are that key's own window. */
  lemma ChunkSplitsByKey(db: seq<Record>, chunk: seq<Wanted>, i: nat, tolerance: nat)
    requires ValidWanted(chunk) && i < |chunk|
    ensures OfKey(ChunkRows(db, chunk, tolerance), chunk[i].key)
         == WindowRows(db, chunk[i].key, Low(chunk[i].times), High(chunk[i].times), tolerance)
  {
    var wants := (r: Record) => Wants(chunk, r, tolerance);
    var same := (r: Record) => KeyOf(r) == chunk[i].key;
    var own := (r: Record) => InWindow(r, chunk[i].key, Low(chunk[i].times), High(chunk[i].times), tolerance);
    var rows := Filter(db, wants);
    FilterHas(db, wants);
    assert forall r :: r in rows ==> (same(r) <==> own(r)) by {
      forall r | r in rows && same(r) ensures own(r) {
        var j :| 0 <= j < |chunk| && chunk[j].times != []
                 && InWindow(r, chunk[j].key, Low(chunk[j].times), High(chunk[j].times), tolerance);
        assert j == i;
      }
    }
    FilterAgrees(rows, same, own);
    FilterThrough(db, wants, own);
  }

  function OfKey(rows: seq<Record>, key: Key): seq<Record> {
    Filter(rows, (r: Record) => KeyOf(r) == key)
  }

  function Group(byKey: map<Key, seq<Record>>, key: Key): seq<Record> {
    if key in byKey then byKey[key] else []
  }

  lemma OfKeyAppend(rows: seq<Record>, r: Record, key: Key)
    ensures OfKey(rows + [r], key) == OfKey(rows, key) + (if KeyOf(r) == key then [r] else [])
  {
    FilterAppend(rows, r, (x: Record) => KeyOf(x) == key);
  }

  /** The groups hold the first n rows, each under its own key and in order. */
  ghost predicate Grouped(byKey: map<Key, seq<Record>>, rows: seq<Record>, n: nat) {
    n <= |rows| && forall key :: Group(byKey, key) == OfKey(rows[..n], key)
  }

  lemma {:induction false} GroupOneMore(byKey: map<Key, seq<Record>>, rows: seq<Record>, n: nat)
    requires n < |rows| && Grouped(byKey, rows, n)
    ensures Grouped(byKey[KeyOf(rows[n]) := Group(byKey, KeyOf(rows[n])) + [rows[n]]], rows, n + 1)
  {
    var r := rows[n];
    var next := byKey[KeyOf(r) := Group(byKey, KeyOf(r)) + [r]];
    assert rows[..n + 1] == rows[..n] + [r];
    forall key ensures Group(next, key) == OfKey(rows[..n + 1], key) {
      OfKeyAppend(rows[..n], r, key);
      assert Group(byKey, key) == OfKey(rows[..n], key);
    }
  }

  lemma {:induction false} GroupedWhole(byKey: map<Key, seq<Record>>, rows: seq<Record>, key: Key)
    requires Grouped(byKey, rows, |rows|)
    ensures Group(byKey, key) == OfKey(rows, key)
  {
    assert rows[..|rows|] == rows;
  }

  /** `by_key[...].append(row)` over the rows of one chunk query. */
  method GroupByKey(rows: seq<Record>) returns (byKey: map<Key, seq<Record>>)
    ensures Grouped(byKey, rows, |rows|)
  {
    byKey := map[];
    for n := 0 to |rows|
      invariant Grouped(byKey, rows, n)
    {
      GroupOneMore(byKey, rows, n);
      byKey := byKey[KeyOf(rows[n]) := Group(byKey, KeyOf(rows[n])) + [rows[n]]];
    }
  }

  lemma {:induction false} FilterAppend<T(!new)>(s: seq<T>, x: T, keep: T -> bool)
    ensures Filter(s + [x], keep) == Filter(s, keep) + Kept(x, keep)
  {
    if s == [] {
      assert s + [x] == [x] && [x][1..] == [];
    } else {
      var rest := s[1..];
      FilterAppend(rest, x, keep);
      assert (s + [x])[1..] == rest + [x] && (s + [x])[0] == s[0];
      calc {
        Filter(s + [x], keep);
        Kept(s[0], keep) + Filter(rest + [x], keep);
        Kept(s[0], keep) + (Filter(rest, keep) + Kept(x, keep));
        (Kept(s[0], keep) + Filter(rest, keep)) + Kept(x, keep);
        Filter(s, keep) + Kept(x, keep);
      }
    }
  }

  /** Spans that answer the first `n` wanted terminal user IDs. */
  ghost predicate ReadSoFar(db: seq<Record>, tolerance: nat, done: seq<Span>, wanted: seq<Wanted>, n: nat)
    requires n <= |wanted|
  {
    && (forall sp :: sp in done ==> SpanSound(db, tolerance, sp))
    && (forall i :: 0 <= i < n ==> Answers(done, wanted[i].key, wanted[i].times))
  }

  lemma ReadOneMore(db: seq<Record>, tolerance: nat, done: seq<Span>, more: seq<Span>, wanted: seq<Wanted>, n: nat)
    requires n < |wanted| && ReadSoFar(db, tolerance, done, wanted, n)
    requires forall sp :: sp in more ==> SpanSound(db, tolerance, sp)
    requires Answers(more, wanted[n].key, wanted[n].times)
    ensures ReadSoFar(db, tolerance, done + more, wanted, n + 1)
  {
    forall i | 0 <= i < n + 1 ensures Answers(done + more, wanted[i].key, wanted[i].times) {
      AnswersStay(done, more, wanted[i].key, wanted[i].times);
    }
  }

  /** Unusually many intervals: each terminal user ID on its own. */
  method ReadEach(db: seq<Record>, tolerance: nat, chunk: seq<Wanted>) returns (done: seq<Span>)
    requires ValidWanted(chunk)
    ensures ReadSoFar(db, tolerance, done, chunk, |chunk|)
  {
    done := [];
    for n := 0 to |chunk|
      invariant ReadSoFar(db, tolerance, done, chunk, n)
    {
      ReadSpanSound(db, tolerance, chunk[n].key, chunk[n].times);
      var more := ReadSpan(db, tolerance, chunk[n].key, chunk[n].times);
      ReadOneMore(db, tolerance, done, more, chunk, n);
      done := done + more;
    }
  }

  /** The span of one terminal user ID out of a complete chunk read. */
  function WholeSpan(db: seq<Record>, tolerance: nat, w: Wanted, rows: seq<Record>): Span
    requires w.times != []
  {
    Span(w.key, w.times, rows, Latest(EndedBefore(db, w.key, Low(w.times) - tolerance)),
         Earliest(StartedAfter(db, w.key, High(w.times))), false)
  }

  method ReadChunk(db: seq<Record>, tolerance: nat, chunk: seq<Wanted>) returns (done: seq<Span>)
    requires ValidWanted(chunk)
    ensures ReadSoFar(db, tolerance, done, chunk, |chunk|)
  {
    var rows := Take(ChunkRows(db, chunk, tolerance), CHUNK_ROW_LIMIT + 1);
    if |rows| > CHUNK_ROW_LIMIT {
      done := ReadEach(db, tolerance, chunk);
      return;
    }
    done := [];
    var byKey := GroupByKey(rows);
    for n := 0 to |chunk|
      invariant WholeSpans(db, tolerance, chunk, byKey, done, n)
    {
      done := done + [WholeSpan(db, tolerance, chunk[n], Group(byKey, chunk[n].key))];
    }
    WholeSpansAnswer(db, tolerance, chunk, byKey, done);
  }

  ghost predicate WholeSpans(
      db: seq<Record>, tolerance: nat, chunk: seq<Wanted>, byKey: map<Key, seq<Record>>, done: seq<Span>, n: nat)
    requires ValidWanted(chunk)
  {
    |done| == n <= |chunk|
    && forall j :: 0 <= j < n ==> done[j] == WholeSpan(db, tolerance, chunk[j], Group(byKey, chunk[j].key))
  }

  lemma {:induction false} WholeSpansAnswer(
      db: seq<Record>, tolerance: nat, chunk: seq<Wanted>, byKey: map<Key, seq<Record>>, done: seq<Span>)
    requires ValidWanted(chunk)
    requires Grouped(byKey, ChunkRows(db, chunk, tolerance), |ChunkRows(db, chunk, tolerance)|)
    requires WholeSpans(db, tolerance, chunk, byKey, done, |chunk|)
    ensures ReadSoFar(db, tolerance, done, chunk, |chunk|)
  {
    forall j | 0 <= j < |chunk|
      ensures SpanSound(db, tolerance, done[j]) && Answers(done, chunk[j].key, chunk[j].times)
    {
      GroupedWhole(byKey, ChunkRows(db, chunk, tolerance), chunk[j].key);
      WholeSpanSound(db, tolerance, chunk, j, Group(byKey, chunk[j].key));
      assert done[j] in done;
    }
  }

  lemma {:induction false} WholeSpanSound(db: seq<Record>, tolerance: nat, chunk: seq<Wanted>, j: nat,
        rows: seq<Record>)
    requires ValidWanted(chunk) && j < |chunk| && rows == OfKey(ChunkRows(db, chunk, tolerance), chunk[j].key)
    ensures SpanSound(db, tolerance, WholeSpan(db, tolerance, chunk[j], rows))
  {
    ChunkSplitsByKey(db, chunk, j, tolerance);
  }

  lemma AnswersStay(a: seq<Span>, b: seq<Span>, key: Key, times: seq<int>)
    requires Answers(a, key, times) || Answers(b, key, times)
    ensures Answers(a + b, key, times)
  {
    forall t | t in times ensures exists sp: Span :: sp in a + b && sp.key == key && t in sp.times {
      if Answers(a, key, times) {
        var sp: Span :| sp in a && sp.key == key && t in sp.times;
        assert sp in a + b;
      } else {
        var sp: Span :| sp in b && sp.key == key && t in sp.times;
        assert sp in a + b;
      }
    }
  }

  method ReadSpans(db: seq<Record>, tolerance: nat, wanted: seq<Wanted>) returns (done: seq<Span>)
    requires ValidWanted(wanted)
    ensures ReadSoFar(db, tolerance, done, wanted, |wanted|)
  {
    done := [];
    var start := 0;
    while start < |wanted|
      invariant start <= |wanted| && ReadSoFar(db, tolerance, done, wanted, start)
    {
      var end := if start + KEY_CHUNK <= |wanted| then start + KEY_CHUNK else |wanted|;
      var more := ReadChunk(db, tolerance, wanted[start..end]);
      forall i | 0 <= i < end ensures Answers(done + more, wanted[i].key, wanted[i].times) {
        if i >= start {
          assert wanted[i] == wanted[start..end][i - start];
        }
        AnswersStay(done, more, wanted[i].key, wanted[i].times);
      }
      done := done + more;
      start := end;
    }
  }

  // --------------------------------------------------------------- per punch

  datatype Evidence = Evidence(found: Found, truncated: bool)

  /** What one punch reads out of its span. */
  function CoveringIn(rows: seq<Record>, when: int, tolerance: nat): seq<Record> {
    Filter(rows, (r: Record) => Covers(r, when, tolerance))
  }

  function EndingIn(rows: seq<Record>, when: int): seq<Record> {
    Filter(rows, (r: Record) => r.until < when)
  }

  function StartingIn(rows: seq<Record>, when: int): seq<Record> {
    Filter(rows, (r: Record) => r.from > when)
  }

  function OrNone(r: Option<Record>): seq<Record> {
    if r.Some? then [r.value] else []
  }

  function FromSpan(span: Span, when: int, tolerance: nat): Evidence {
    var covering := SortById(CoveringIn(span.rows, when, tolerance));
    Evidence(Found(covering, Latest(EndingIn(span.rows, when) + OrNone(span.before)),
        Earliest(StartingIn(span.rows, when) + OrNone(span.after))),
             span.truncated || |covering| > MAX_COVERING)
  }

  lemma CoveringMatches(db: seq<Record>, tolerance: nat, span: Span, when: int)
    requires SpanSound(db, tolerance, span) && !span.truncated && when in span.times
    ensures CoveringIn(span.rows, when, tolerance) == CoveringRows(db, span.key, when, tolerance)
  {
    var low, high := Low(span.times), High(span.times);
    var coarse := (r: Record) => InWindow(r, span.key, low, high, tolerance);
    FilterHas(db, coarse);
    var fine := (r: Record) => KeyOf(r) == span.key && Covers(r, when, tolerance);
    FilterThrough(db, coarse, fine);
    FilterAgrees(span.rows, fine, (r: Record) => Covers(r, when, tolerance));
  }

  lemma EndedHas(db: seq<Record>, key: Key, when: int)
    ensures forall r :: r in EndedBefore(db, key, when) <==> r in db && KeyOf(r) == key && r.until < when
  {
    FilterHas(db, (r: Record) => KeyOf(r) == key && r.until < when);
  }

  lemma StartedHas(db: seq<Record>, key: Key, when: int)
    ensures forall r :: r in StartedAfter(db, key, when) <==> r in db && KeyOf(r) == key && r.from > when
  {
    FilterHas(db, (r: Record) => KeyOf(r) == key && r.from > when);
  }

  lemma WindowHas(db: seq<Record>, key: Key, low: int, high: int, tolerance: nat)
    ensures forall r :: r in WindowRows(db, key, low, high, tolerance) <==>
              r in db && InWindow(r, key, low, high, tolerance)
  {
    FilterHas(db, (r: Record) => InWindow(r, key, low, high, tolerance));
  }

  lemma CoveringHas(db: seq<Record>, key: Key, when: int, tolerance: nat)
    ensures forall r :: r in CoveringRows(db, key, when, tolerance) <==>
              r in db && KeyOf(r) == key && Covers(r, when, tolerance)
  {
    FilterHas(db, (r: Record) => KeyOf(r) == key && Covers(r, when, tolerance));
  }

  lemma NearestHave(rows: seq<Record>, when: int)
    ensures forall r :: r in EndingIn(rows, when) <==> r in rows && r.until < when
    ensures forall r :: r in StartingIn(rows, when) <==> r in rows && r.from > when
  {
    FilterHas(rows, (r: Record) => r.until < when);
    FilterHas(rows, (r: Record) => r.from > when);
  }

  /** What ended before the punch is in the span's rows, or no later than the span's own record before it. */
  lemma {:induction false} BeforeOutranks(db: seq<Record>, tolerance: nat, span: Span, when: int, x: Record)
    requires WellFormed(db) && SpanSound(db, tolerance, span) && !span.truncated && when in span.times
    requires x in EndedBefore(db, span.key, when)
    ensures x in EndingIn(span.rows, when)
            || (span.before.Some? && EndsNoLater(x, span.before.value) && span.before.value.until < when)
  {
    NearestHave(span.rows, when);
    WindowHas(db, span.key, Low(span.times), High(span.times), tolerance);
    EndedHas(db, span.key, when);
    EndedHas(db, span.key, Low(span.times) - tolerance);
    if x.until < Low(span.times) - tolerance {
      assert x in EndedBefore(db, span.key, Low(span.times) - tolerance);
    } else {
      assert InWindow(x, span.key, Low(span.times), High(span.times), tolerance);
    }
  }

  lemma {:induction false} BeforeMatches(db: seq<Record>, tolerance: nat, span: Span, when: int)
    requires WellFormed(db) && SpanSound(db, tolerance, span) && !span.truncated && when in span.times
    ensures Latest(EndingIn(span.rows, when) + OrNone(span.before)) == Latest(EndedBefore(db, span.key, when))
  {
    var part, whole := EndingIn(span.rows, when) + OrNone(span.before), EndedBefore(db, span.key, when);
    BeforeIsWithin(db, tolerance, span, when);
    forall x | x in whole ensures Latest(part).Some? && EndsNoLater(x, Latest(part).value) {
      BeforeOutranks(db, tolerance, span, when, x);
      if x !in EndingIn(span.rows, when) {
        assert span.before.value in part;
      }
    }
    EndedHas(db, span.key, when);
    LatestOfPart(db, part, whole);
  }

  lemma {:induction false} BeforeIsWithin(db: seq<Record>, tolerance: nat, span: Span, when: int)
    requires SpanSound(db, tolerance, span) && !span.truncated && when in span.times
    ensures forall x :: x in EndingIn(span.rows, when) + OrNone(span.before) ==> x in EndedBefore(db, span.key, when)
  {
    NearestHave(span.rows, when);
    WindowHas(db, span.key, Low(span.times), High(span.times), tolerance);
    EndedHas(db, span.key, when);
    EndedHas(db, span.key, Low(span.times) - tolerance);
  }

  /** What started after the punch is in the span's rows, or no earlier than the span's own record after it. */
  lemma {:induction false} AfterOutranks(db: seq<Record>, tolerance: nat, span: Span, when: int, x: Record)
    requires WellFormed(db) && SpanSound(db, tolerance, span) && !span.truncated && when in span.times
    requires x in StartedAfter(db, span.key, when)
    ensures x in StartingIn(span.rows, when)
            || (span.after.Some? && StartsNoEarlier(x, span.after.value) && span.after.value.from > when)
  {
    NearestHave(span.rows, when);
    WindowHas(db, span.key, Low(span.times), High(span.times), tolerance);
    StartedHas(db, span.key, when);
    StartedHas(db, span.key, High(span.times));
    if x !in span.rows {
      assert x in StartedAfter(db, span.key, High(span.times));
    }
  }

  lemma {:induction false} AfterMatches(db: seq<Record>, tolerance: nat, span: Span, when: int)
    requires WellFormed(db) && SpanSound(db, tolerance, span) && !span.truncated && when in span.times
    ensures Earliest(StartingIn(span.rows, when) + OrNone(span.after)) == Earliest(StartedAfter(db, span.key, when))
  {
    var part, whole := StartingIn(span.rows, when) + OrNone(span.after), StartedAfter(db, span.key, when);
    AfterIsWithin(db, tolerance, span, when);
    forall x | x in whole ensures Earliest(part).Some? && StartsNoEarlier(x, Earliest(part).value) {
      AfterOutranks(db, tolerance, span, when, x);
      if x !in StartingIn(span.rows, when) {
        assert span.after.value in part;
      }
    }
    StartedHas(db, span.key, when);
    EarliestOfPart(db, part, whole);
  }

  lemma {:induction false} AfterIsWithin(db: seq<Record>, tolerance: nat, span: Span, when: int)
    requires SpanSound(db, tolerance, span) && !span.truncated && when in span.times
    ensures forall x :: x in StartingIn(span.rows, when) + OrNone(span.after) ==> x in StartedAfter(db, span.key, when)
  {
    NearestHave(span.rows, when);
    WindowHas(db, span.key, Low(span.times), High(span.times), tolerance);
    StartedHas(db, span.key, when);
    StartedHas(db, span.key, High(span.times));
  }

  /** Refused as truncated only where one instant really holds too many intervals. */
  /** How many records of the user ID began by this instant and had not ended more than the tolerance before it. */
  function RecordsAt(db: seq<Record>, key: Key, when: int, tolerance: nat): nat {
    if db == [] then 0
    else
      var r := db[0];
      (if KeyOf(r) == key && r.from <= when && when <= r.until + tolerance then 1 else 0)
      + RecordsAt(db[1..], key, when, tolerance)
  }

  lemma {:induction false} WindowCount(db: seq<Record>, key: Key, when: int, tolerance: nat)
    ensures |WindowRows(db, key, when, when, tolerance)| == RecordsAt(db, key, when, tolerance)
  {
    if db != [] {
      WindowCount(db[1..], key, when, tolerance);
    }
  }

  ghost predicate TooMany(db: seq<Record>, key: Key, when: int, tolerance: nat) {
    RecordsAt(db, key, when, tolerance) > 500 || |CoveringRows(db, key, when, tolerance)| > 100
  }

  /** The batched read agrees with the naive scan, or says it could not read everything. */
  ghost predicate Agrees(db: seq<Record>, key: Key, when: int, tolerance: nat, e: Evidence) {
    && (!e.truncated ==> e.found == NaiveScan(db, key, when, tolerance))
    && (e.truncated ==> TooMany(db, key, when, tolerance))
    && (|CoveringRows(db, key, when, tolerance)| > MAX_COVERING ==> e.truncated)
  }

  lemma {:induction false} SpanAgrees(db: seq<Record>, tolerance: nat, span: Span, when: int)
    requires WellFormed(db) && SpanSound(db, tolerance, span) && when in span.times
    ensures Agrees(db, span.key, when, tolerance, FromSpan(span, when, tolerance))
  {
    if span.truncated {
      WindowCount(db, span.key, when, tolerance);
    } else {
      WholeSpanAgrees(db, tolerance, span, when);
    }
  }

  /** A span read in full gives a punch what the naive scan gives it. */
  lemma {:induction false} WholeSpanAgrees(db: seq<Record>, tolerance: nat, span: Span, when: int)
    requires WellFormed(db) && SpanSound(db, tolerance, span) && !span.truncated && when in span.times
    ensures var e := FromSpan(span, when, tolerance);
            && (!e.truncated ==> e.found == NaiveScan(db, span.key, when, tolerance))
            && (e.truncated <==> |CoveringRows(db, span.key, when, tolerance)| > MAX_COVERING)
  {
    CoveringMatches(db, tolerance, span, when);
    BeforeMatches(db, tolerance, span, when);
    AfterMatches(db, tolerance, span, when);
    SortedLength(CoveringRows(db, span.key, when, tolerance));
  }

  datatype Punch = Punch(id: int, key: Option<Key>, when: int)

  function InsertTime(t: int, s: seq<int>): (r: seq<int>)
    requires Sorted(s)
    ensures Sorted(r) && r != [] && forall x :: x in r <==> x == t || x in s
  {
    if s == [] || t <= s[0] then [t] + s
    else
      var rest := InsertTime(t, s[1..]);
      assert forall x :: x in rest ==> s[0] <= x by {
        assert forall i :: 0 <= i < |s[1..]| ==> s[1..][i] == s[i + 1] >= s[0];
      }
      SortedCons(s[0], rest);
      [s[0]] + rest
  }

  ghost predicate Listed(wanted: seq<Wanted>, p: Punch) {
    p.key.Some? ==> exists i :: 0 <= i < |wanted| && wanted[i].key == p.key.value && p.when in wanted[i].times
  }

  /** Nothing wanted before is dropped. */
  ghost predicate WantsMore(a: seq<Wanted>, b: seq<Wanted>) {
    |a| <= |b| && forall i :: 0 <= i < |a| ==> b[i].key == a[i].key && forall t :: t in a[i].times ==> t in b[i].times
  }

  /** Adds one punch time under its terminal user ID. */
  method AddTime(wanted: seq<Wanted>, key: Key, when: int) returns (out: seq<Wanted>)
    requires ValidWanted(wanted)
    ensures ValidWanted(out) && WantsMore(wanted, out)
    ensures exists i :: 0 <= i < |out| && out[i].key == key && when in out[i].times
  {
    var k := 0;
    while k < |wanted| && wanted[k].key != key
      invariant k <= |wanted| && forall j :: 0 <= j < k ==> wanted[j].key != key
    {
      k := k + 1;
    }
    if k < |wanted| {
      out := wanted[k := Wanted(key, InsertTime(when, wanted[k].times))];
    } else {
      out := wanted + [Wanted(key, [when])];
    }
    assert out[k].key == key && when in out[k].times;
  }

  lemma StaysListed(a: seq<Wanted>, b: seq<Wanted>, p: Punch)
    requires WantsMore(a, b) && Listed(a, p)
    ensures Listed(b, p)
  {
    if p.key.Some? {
      var i :| 0 <= i < |a| && a[i].key == p.key.value && p.when in a[i].times;
      assert b[i].key == p.key.value && p.when in b[i].times;
    }
  }

  /** The punch times wanted for each terminal user ID. */
  method CollectTimes(punches: seq<Punch>) returns (wanted: seq<Wanted>)
    ensures ValidWanted(wanted)
    ensures forall k :: 0 <= k < |punches| ==> Listed(wanted, punches[k])
  {
    wanted := [];
    for n := 0 to |punches|
      invariant ValidWanted(wanted)
      invariant forall k :: 0 <= k < n ==> Listed(wanted, punches[k])
    {
      if punches[n].key.Some? {
        var more := AddTime(wanted, punches[n].key.value, punches[n].when);
        forall k | 0 <= k < n ensures Listed(more, punches[k]) { StaysListed(wanted, more, punches[k]); }
        wanted := more;
      }
    }
  }

  /** Every punch time of every span, indexed by terminal user ID and instant. */
  method IndexSpans(spans: seq<Span>) returns (spanFor: map<(Key, int), Span>)
    ensures forall k :: k in spanFor ==> spanFor[k] in spans && spanFor[k].key == k.0 && k.1 in spanFor[k].times
    ensures forall j, t :: 0 <= j < |spans| && t in spans[j].times ==> (spans[j].key, t) in spanFor
  {
    spanFor := map[];
    for n := 0 to |spans|
      invariant forall k :: k in spanFor ==> spanFor[k] in spans && spanFor[k].key == k.0 && k.1 in spanFor[k].times
      invariant forall j, t :: 0 <= j < n && t in spans[j].times ==> (spans[j].key, t) in spanFor
    {
      var span := spans[n];
      for m := 0 to |span.times|
        invariant forall k :: k in spanFor ==> spanFor[k] in spans && spanFor[k].key == k.0 && k.1 in spanFor[k].times
        invariant forall j, t :: 0 <= j < n && t in spans[j].times ==> (spans[j].key, t) in spanFor
        invariant forall j :: 0 <= j < m ==> (span.key, span.times[j]) in spanFor
      {
        spanFor := spanFor[(span.key, span.times[m]) := span];
      }
    }
  }

  function Served(spanFor: map<(Key, int), Span>, p: Punch, tolerance: nat): Evidence {
    if p.key.None? || (p.key.value, p.when) !in spanFor then Evidence(Found([], None, None), false)
    else FromSpan(spanFor[(p.key.value, p.when)], p.when, tolerance)
  }

  /** What one punch's evidence promises. */
  ghost predicate PunchServed(db: seq<Record>, tolerance: nat, p: Punch, e: Evidence) {
    if p.key.Some? then Agrees(db, p.key.value, p.when, tolerance, e)
    else e == Evidence(Found([], None, None), false)
  }

  lemma {:induction false} ServedAgrees(db: seq<Record>, tolerance: nat, wanted: seq<Wanted>, spans: seq<Span>,
                     spanFor: map<(Key, int), Span>, p: Punch, i: nat)
    requires WellFormed(db) && ReadSoFar(db, tolerance, spans, wanted, |wanted|)
    requires forall k :: k in spanFor ==> spanFor[k] in spans && spanFor[k].key == k.0 && k.1 in spanFor[k].times
    requires forall j, t :: 0 <= j < |spans| && t in spans[j].times ==> (spans[j].key, t) in spanFor
    requires p.key.Some? ==> i < |wanted| && wanted[i].key == p.key.value && p.when in wanted[i].times
    ensures PunchServed(db, tolerance, p, Served(spanFor, p, tolerance))
  {
    if p.key.Some? {
      assert Answers(spans, wanted[i].key, wanted[i].times);
      var sp: Span :| sp in spans && sp.key == p.key.value && p.when in sp.times;
      var k := (p.key.value, p.when);
      assert k in spanFor;
      SpanAgrees(db, tolerance, spanFor[k], p.when);
    }
  }

  /** The evidence of every selected punch, for every selection, chunking and window split. */
  method LoadPunchEvidence(db: seq<Record>, tolerance: nat, punches: seq<Punch>) returns (evidence: map<int, Evidence>)
    requires WellFormed(db)
    requires forall i, j :: 0 <= i < j < |punches| ==> punches[i].id != punches[j].id
    ensures forall p :: p in punches ==> p.id in evidence && PunchServed(db, tolerance, p, evidence[p.id])
  {
    var wanted := CollectTimes(punches);
    var spans := ReadSpans(db, tolerance, wanted);
    var spanFor := IndexSpans(spans);
    evidence := map[];
    for n := 0 to |punches|
      invariant forall j :: 0 <= j < n ==>
                  punches[j].id in evidence && evidence[punches[j].id] == Served(spanFor, punches[j], tolerance)
    {
      evidence := evidence[punches[n].id := Served(spanFor, punches[n], tolerance)];
    }
    forall p | p in punches ensures p.id in evidence && PunchServed(db, tolerance, p, evidence[p.id]) {
      var k :| 0 <= k < |punches| && punches[k] == p;
      assert Listed(wanted, punches[k]);
      var i: nat := 0;
      if p.key.Some? {
        i :| 0 <= i < |wanted| && wanted[i].key == p.key.value && p.when in wanted[i].times;
      }
      ServedAgrees(db, tolerance, wanted, spans, spanFor, p, i);
    }
  }
}
