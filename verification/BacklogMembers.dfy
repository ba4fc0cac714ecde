/** The frozen members of a zone release, run-length encoded as inclusive ID ranges. */
module BacklogMembers {

  datatype Range = Range(first: int, last: int)

  function Span(first: int, last: int): (s: seq<int>)
    ensures |s| == (if first <= last then last - first + 1 else 0)
    ensures forall i :: 0 <= i < |s| ==> s[i] == first + i
    decreases last - first
  {
    if first > last then [] else [first] + Span(first + 1, last)
  }

  function Expand(ranges: seq<Range>): seq<int> {
    if ranges == [] then []
    else Expand(ranges[..|ranges| - 1]) + Span(ranges[|ranges| - 1].first, ranges[|ranges| - 1].last)
  }

  predicate Ordered(s: seq<int>) {
    forall i, j :: 0 <= i < j < |s| ==> s[i] <= s[j]
  }

  function Insert(x: int, s: seq<int>): (r: seq<int>)
    requires Ordered(s)
    ensures Ordered(r) && multiset(r) == multiset(s) + multiset{x}
    ensures r != [] && (r[0] == x || (s != [] && r[0] == s[0]))
  {
    if s == [] || x <= s[0] then [x] + s
    else
      assert s == [s[0]] + s[1..];
      [s[0]] + Insert(x, s[1..])
  }

  /** Python's `sorted`: the ordered permutation. */
  function Sorted(ids: seq<int>): (r: seq<int>)
    ensures Ordered(r) && multiset(r) == multiset(ids)
  {
    if ids == [] then []
    else
      assert ids == [ids[0]] + ids[1..];
      Insert(ids[0], Sorted(ids[1..]))
  }

  predicate Distinct(ids: seq<int>) {
    forall i, j :: 0 <= i < j < |ids| ==> ids[i] != ids[j]
  }

  lemma {:induction false} CountedOnce(ids: seq<int>, x: int)
    requires Distinct(ids)
    ensures multiset(ids)[x] <= 1
  {
    if ids != [] {
      var n := |ids| - 1;
      CountedOnce(ids[..n], x);
      assert ids == ids[..n] + [ids[n]];
      if ids[n] == x { assert x !in ids[..n]; }
    }
  }

  lemma CountedTwice(s: seq<int>, i: nat, j: nat)
    requires i < j < |s| && s[i] == s[j]
    ensures multiset(s)[s[i]] >= 2
  {
    assert s == s[..j] + s[j..];
    assert s[i] in s[..j] && s[j] in s[j..];
  }

  /** Sorting distinct IDs gives strictly increasing ones. */
  lemma SortedIsStrict(ids: seq<int>)
    requires Distinct(ids)
    ensures forall i, j :: 0 <= i < j < |Sorted(ids)| ==> Sorted(ids)[i] < Sorted(ids)[j]
    ensures forall x :: x in Sorted(ids) <==> x in ids
  {
    var s := Sorted(ids);
    forall i, j | 0 <= i < j < |s| ensures s[i] < s[j] {
      if s[i] == s[j] {
        CountedTwice(s, i, j);
        CountedOnce(ids, s[i]);
      }
    }
    forall x ensures x in s <==> x in ids {
      assert x in s <==> x in multiset(s);
      assert x in ids <==> x in multiset(ids);
    }
  }

  lemma SpanGrows(first: int, last: int)
    requires first <= last + 1
    ensures Span(first, last + 1) == Span(first, last) + [last + 1]
  {
  }

  lemma ExpandLast(ranges: seq<Range>, r: Range)
    ensures Expand(ranges + [r]) == Expand(ranges) + Span(r.first, r.last)
  {
    assert (ranges + [r])[..|ranges|] == ranges;
  }

  /** No two neighbouring ranges could be one, and none is empty. */
  predicate Compact(ranges: seq<Range>) {
    && (forall i :: 0 <= i < |ranges| ==> ranges[i].first <= ranges[i].last)
    && (forall i :: 0 < i < |ranges| ==> ranges[i].first != ranges[i - 1].last + 1)
  }

  function Extended(ranges: seq<Range>, value: int): seq<Range> {
    if ranges != [] && value == ranges[|ranges| - 1].last + 1
    then ranges[|ranges| - 1 := Range(ranges[|ranges| - 1].first, value)]
    else ranges + [Range(value, value)]
  }

  lemma ExtendedExpands(ranges: seq<Range>, value: int)
    requires Compact(ranges)
    ensures Expand(Extended(ranges, value)) == Expand(ranges) + [value]
  {
    if ranges != [] && value == ranges[|ranges| - 1].last + 1 {
      var k := |ranges| - 1;
      SpanGrows(ranges[k].first, ranges[k].last);
      ExpandLast(ranges[..k], Range(ranges[k].first, value));
      assert Extended(ranges, value) == ranges[..k] + [Range(ranges[k].first, value)];
    } else {
      ExpandLast(ranges, Range(value, value));
      assert Span(value, value) == [value];
    }
  }

  // ---- No ranges are shorter ----

  /** How many maximal stretches of consecutive values a list has. */
  function Stretches(s: seq<int>): nat {
    if s == [] then 0
    else
      var n := |s| - 1;
      Stretches(s[..n]) + if n > 0 && s[n] == s[n - 1] + 1 then 0 else 1
  }

  lemma StretchesAppend(s: seq<int>, x: int)
    ensures Stretches(s + [x]) == Stretches(s) + if s != [] && x == s[|s| - 1] + 1 then 0 else 1
  {
    assert (s + [x])[..|s|] == s;
  }

  /** One range adds at most one stretch, and exactly one when it is not empty and does not continue the last. */
  lemma {:induction false} SpanAddsOne(s: seq<int>, first: int, last: int)
    ensures Stretches(s + Span(first, last)) <= Stretches(s) + 1
    ensures first <= last && (s == [] || first != s[|s| - 1] + 1) ==>
              Stretches(s + Span(first, last)) == Stretches(s) + 1
    decreases last - first
  {
    if first > last {
      assert s + Span(first, last) == s;
    } else {
      SpanAddsOne(s, first, last - 1);
      SpanGrows(first, last - 1);
      var before := s + Span(first, last - 1);
      assert s + Span(first, last) == before + [last];
      StretchesAppend(before, last);
      if first == last {
        assert before == s;
      } else {
        assert before[|before| - 1] == last - 1;
      }
    }
  }

  lemma {:induction false} StretchesBelow(ranges: seq<Range>)
    ensures Stretches(Expand(ranges)) <= |ranges|
  {
    if ranges != [] {
      var n := |ranges| - 1;
      StretchesBelow(ranges[..n]);
      SpanAddsOne(Expand(ranges[..n]), ranges[n].first, ranges[n].last);
    }
  }

  lemma {:induction false} CompactIsStretches(ranges: seq<Range>)
    requires Compact(ranges)
    ensures Stretches(Expand(ranges)) == |ranges|
    ensures ranges != [] ==> Expand(ranges) != [] && Expand(ranges)[|Expand(ranges)| - 1] == ranges[|ranges| - 1].last
  {
    if ranges != [] {
      var n := |ranges| - 1;
      CompactIsStretches(ranges[..n]);
      SpanAddsOne(Expand(ranges[..n]), ranges[n].first, ranges[n].last);
    }
  }

  /** No other ranges for the same members are fewer. */
  lemma CompactIsShortest(ranges: seq<Range>, other: seq<Range>)
    requires Compact(ranges) && Expand(other) == Expand(ranges)
    ensures |ranges| <= |other|
  {
    CompactIsStretches(ranges);
    StretchesBelow(other);
  }

  method Runs(values: seq<int>) returns (ranges: seq<Range>)
    ensures Expand(ranges) == values && Compact(ranges)
  {
    ranges := [];
    for n := 0 to |values|
      invariant Expand(ranges) == values[..n] && Compact(ranges)
    {
      ExtendedExpands(ranges, values[n]);
      assert values[..n + 1] == values[..n] + [values[n]];
      ranges := Extend(ranges, values[n]);
    }
    assert values[..|values|] == values;
  }

  /** `_id_ranges`: expanding the ranges gives the sorted IDs back, and no fewer ranges do. */
  method IdRanges(ids: seq<int>) returns (ranges: seq<Range>)
    ensures Expand(ranges) == Sorted(ids) && Compact(ranges)
    ensures forall other :: Expand(other) == Sorted(ids) ==> |ranges| <= |other|
  {
    ranges := Runs(Sorted(ids));
    forall other | Expand(other) == Sorted(ids) ensures |ranges| <= |other| {
      CompactIsShortest(ranges, other);
    }
  }

  method Extend(ranges: seq<Range>, value: int) returns (next: seq<Range>)
    requires Compact(ranges)
    ensures next == Extended(ranges, value) && Compact(next)
  {
    next := ranges;
    if ranges != [] && value == ranges[|ranges| - 1].last + 1 {
      next := next[|next| - 1 := Range(next[|next| - 1].first, value)];
    } else {
      next := next + [Range(value, value)];
    }
  }

  // ---- The next members after a cursor ----

  function After(s: seq<int>, cursor: int): seq<int> {
    if s == [] then []
    else After(s[..|s| - 1], cursor) + if s[|s| - 1] > cursor then [s[|s| - 1]] else []
  }

  function Take(s: seq<int>, limit: nat): seq<int> {
    if |s| <= limit then s else s[..limit]
  }

  lemma {:induction false} AfterConcat(a: seq<int>, b: seq<int>, cursor: int)
    ensures After(a + b, cursor) == After(a, cursor) + After(b, cursor)
  {
    if b == [] {
      assert a + b == a;
    } else {
      AfterConcat(a, b[..|b| - 1], cursor);
      assert (a + b)[..|a + b| - 1] == a + b[..|b| - 1];
    }
  }

  lemma {:induction false} AfterSpan(first: int, last: int, cursor: int)
    ensures After(Span(first, last), cursor) == Span(if first > cursor then first else cursor + 1, last)
    decreases last - first
  {
    if first <= last {
      AfterSpan(first, last - 1, cursor);
      SpanGrows(first, last - 1);
      if last > cursor { SpanGrows(if first > cursor then first else cursor + 1, last - 1); }
    }
  }

  /** Appends the values of one range until the limit is reached. */
  method TakeRange(found: seq<int>, start: int, last: int, limit: nat) returns (more: seq<int>)
    requires |found| <= limit
    ensures more == Take(found + Span(start, last), limit)
  {
    more := found;
    var value := start;
    while value <= last && |more| < limit
      invariant start <= value && (value <= last + 1 || value == start)
      invariant more == found + Span(start, value - 1) && |more| <= limit
    {
      SpanGrows(start, value - 1);
      more, value := more + [value], value + 1;
    }
    assert forall i :: 0 <= i < |more| ==> more[i] == (found + Span(start, last))[i];
  }

  lemma TakeTwice(a: seq<int>, b: seq<int>, limit: nat)
    ensures Take(Take(a, limit) + b, limit) == Take(a + b, limit)
  {
  }

  /** Once the limit is reached, later ranges add nothing. */
  lemma TakeOfPrefix(ranges: seq<Range>, n: nat, cursor: int, limit: nat)
    requires n <= |ranges| && |After(Expand(ranges[..n]), cursor)| >= limit
    ensures Take(After(Expand(ranges[..n]), cursor), limit) == Take(After(Expand(ranges), cursor), limit)
  {
    var part, all := Expand(ranges[..n]), Expand(ranges);
    ExpandPrefix(ranges, n);
    assert all == part + all[|part|..];
    AfterConcat(part, all[|part|..], cursor);
  }

  lemma {:induction false} ExpandPrefix(ranges: seq<Range>, n: nat)
    requires n <= |ranges|
    ensures Expand(ranges[..n]) <= Expand(ranges)
  {
    if n < |ranges| {
      assert ranges[..|ranges| - 1][..n] == ranges[..n];
      ExpandPrefix(ranges[..|ranges| - 1], n);
    } else {
      assert ranges[..n] == ranges;
    }
  }

  lemma AfterOneMoreRange(ranges: seq<Range>, n: nat, cursor: int)
    requires n < |ranges|
    ensures After(Expand(ranges[..n + 1]), cursor)
            == After(Expand(ranges[..n]), cursor)
                + Span(if ranges[n].first > cursor then ranges[n].first else cursor + 1, ranges[n].last)
  {
    assert ranges[..n + 1] == ranges[..n] + [ranges[n]];
    ExpandLast(ranges[..n], ranges[n]);
    AfterConcat(Expand(ranges[..n]), Span(ranges[n].first, ranges[n].last), cursor);
    AfterSpan(ranges[n].first, ranges[n].last, cursor);
  }

  /** `_members_after`: the first `limit` members beyond the cursor, in ID order. */
  method MembersAfter(ranges: seq<Range>, cursor: int, limit: nat) returns (found: seq<int>)
    ensures found == Take(After(Expand(ranges), cursor), limit)
  {
    found := [];
    for n := 0 to |ranges|
      invariant found == Take(After(Expand(ranges[..n]), cursor), limit)
    {
      AfterOneMoreRange(ranges, n, cursor);
      if ranges[n].last <= cursor { continue; }
      var start := if ranges[n].first > cursor then ranges[n].first else cursor + 1;
      TakeTwice(After(Expand(ranges[..n]), cursor), Span(start, ranges[n].last), limit);
      found := TakeRange(found, start, ranges[n].last, limit);
      if |found| >= limit {
        TakeOfPrefix(ranges, n + 1, cursor, limit);
        return;
      }
    }
    assert ranges[..|ranges|] == ranges;
  }

  /** For distinct ordered members, what lies beyond the p-th one is the rest of the list. */
  lemma {:induction false} AfterIsSuffix(s: seq<int>, p: nat, cursor: int)
    requires p <= |s| && (forall i :: 0 <= i < p ==> s[i] <= cursor) && (forall i :: p <= i < |s| ==> s[i] > cursor)
    ensures After(s, cursor) == s[p..]
  {
    if |s| > 0 {
      var n := |s| - 1;
      if p <= n {
        AfterIsSuffix(s[..n], p, cursor);
        assert s[..n][p..] + [s[n]] == s[p..];
      } else {
        AfterIsSuffix(s[..n], n, cursor);
      }
    }
  }
}
