/** Settling the rows of one accepted batch: validation, ordered ingest, one disposition per row. */
module BatchRows {
  import opened Options
  import opened BatchContent

  datatype Disposition = Accepted | Duplicate | Quarantined

  datatype Item = Item(disposition: Disposition, uid: Option<string>, digest: Digest, evidence: Option<Json>)

  function QuarantinedItem(row: Json, context: Json): Item {
    Item(Quarantined, None, Sha(row), Some(Protected(row, context)))
  }

  /** The event UID was stored before the batch, or an earlier row of the batch carries it. */
  predicate SeenBefore(sc: Schema, rows: seq<Json>, i: nat, stored: set<string>, uid: string)
    requires i <= |rows|
  {
    uid in stored || exists j :: 0 <= j < i && sc.parse(rows[j]) == Some(uid)
  }

  function RowItem(sc: Schema, rows: seq<Json>, i: nat, stored: set<string>, context: Json): Item
    requires i < |rows|
  {
    match sc.parse(rows[i])
    case None => QuarantinedItem(rows[i], context)
    case Some(uid) =>
      Item(if SeenBefore(sc, rows, i, stored, uid) then Duplicate else Accepted, Some(uid), Sha(rows[i]), None)
  }

  /** What every row of a batch settles to. */
  function RowItems(sc: Schema, rows: seq<Json>, stored: set<string>, context: Json): map<int, Item> {
    map i | 0 <= i < |rows| :: RowItem(sc, rows, i, stored, context)
  }

  function QuarantinedItems(rows: seq<Json>, context: Json): map<int, Item> {
    map i | 0 <= i < |rows| :: QuarantinedItem(rows[i], context)
  }

  function CountOf(items: map<int, Item>, n: nat, d: Disposition): nat
    requires forall i :: 0 <= i < n ==> i in items
  {
    if n == 0 then 0 else CountOf(items, n - 1, d) + (if items[n - 1].disposition == d then 1 else 0)
  }

  lemma {:induction false} CountsCover(items: map<int, Item>, n: nat)
    requires forall i :: 0 <= i < n ==> i in items
    ensures CountOf(items, n, Accepted) + CountOf(items, n, Duplicate) + CountOf(items, n, Quarantined) == n
  {
    if n > 0 {
      CountsCover(items, n - 1);
    }
  }

  lemma {:induction false} CountAgrees(a: map<int, Item>, b: map<int, Item>, n: nat, d: Disposition)
    requires forall i :: 0 <= i < n ==> i in a && i in b && a[i] == b[i]
    ensures CountOf(a, n, d) == CountOf(b, n, d)
  {
    if n > 0 {
      CountAgrees(a, b, n - 1, d);
    }
  }

  lemma {:induction false} SizeOfRange(items: map<int, Item>, n: nat)
    requires forall i :: i in items <==> 0 <= i < n
    ensures |items| == n
  {
    if n == 0 {
      assert items == map[];
    } else {
      var rest := map i | i in items && i != n - 1 :: items[i];
      SizeOfRange(rest, n - 1);
      assert items == rest[n - 1 := items[n - 1]];
    }
  }

  // ---- Ordered insert-if-absent ----

  function Firsts(stored: set<string>, uids: seq<string>): seq<string> {
    if uids == [] then []
    else
      var last := uids[|uids| - 1];
      var rest := Firsts(stored, uids[..|uids| - 1]);
      if last in stored || last in uids[..|uids| - 1] then rest else rest + [last]
  }

  function Repeats(stored: set<string>, uids: seq<string>): seq<string> {
    if uids == [] then []
    else
      var last := uids[|uids| - 1];
      var rest := Repeats(stored, uids[..|uids| - 1]);
      if last in stored || last in uids[..|uids| - 1] then rest + [last] else rest
  }

  lemma {:induction false} FirstsAreNew(stored: set<string>, uids: seq<string>)
    ensures forall u :: u in Firsts(stored, uids) <==> u in uids && u !in stored
    ensures |Firsts(stored, uids)| + |Repeats(stored, uids)| == |uids|
  {
    if uids != [] {
      FirstsAreNew(stored, uids[..|uids| - 1]);
    }
  }

  /** `ingest_attendance`: events are inserted in order unless their UID is already stored. */
  method Ingest(stored: set<string>, uids: seq<string>)
    returns (accepted: seq<string>, duplicates: seq<string>, seen: set<string>)
    ensures accepted == Firsts(stored, uids) && duplicates == Repeats(stored, uids)
    ensures seen == stored + set u | u in uids
  {
    accepted, duplicates, seen := [], [], stored;
    for n := 0 to |uids|
      invariant accepted == Firsts(stored, uids[..n]) && duplicates == Repeats(stored, uids[..n])
      invariant seen == stored + set u | u in uids[..n]
    {
      assert uids[..n + 1][..n] == uids[..n];
      if uids[n] in seen {
        duplicates := duplicates + [uids[n]];
      } else {
        accepted, seen := accepted + [uids[n]], seen + {uids[n]};
      }
    }
    assert uids[..|uids|] == uids;
  }

  // ---- Rows ----

  datatype Valid = Valid(index: nat, uid: string, row: Json)

  /** `valid` lists exactly the rows that validate, in order. */
  ghost predicate Lists(sc: Schema, rows: seq<Json>, valid: seq<Valid>) {
    && (forall k :: 0 <= k < |valid| ==>
          valid[k].index < |rows| && rows[valid[k].index] == valid[k].row
              && sc.parse(valid[k].row) == Some(valid[k].uid))
    && (forall i :: 0 <= i < |rows| && sc.parse(rows[i]).Some? ==> exists k :: 0 <= k < |valid| && valid[k].index == i)
    && (forall a, b :: 0 <= a < b < |valid| ==> valid[a].index < valid[b].index)
  }

  function ValidRows(sc: Schema, rows: seq<Json>): seq<Valid> {
    if rows == [] then []
    else
      var n := |rows| - 1;
      var rest := ValidRows(sc, rows[..n]);
      match sc.parse(rows[n])
      case None => rest
      case Some(uid) => rest + [Valid(n, uid, rows[n])]
  }

  lemma {:induction false} ValidRowsList(sc: Schema, rows: seq<Json>)
    ensures Lists(sc, rows, ValidRows(sc, rows))
  {
    if rows != [] {
      var n := |rows| - 1;
      ValidRowsList(sc, rows[..n]);
      ListsOneMore(sc, rows, ValidRows(sc, rows[..n]));
    }
  }

  lemma {:induction false} ListsOneMore(sc: Schema, rows: seq<Json>, rest: seq<Valid>)
    requires rows != [] && Lists(sc, rows[..|rows| - 1], rest)
    ensures var n := |rows| - 1;
            Lists(sc, rows, match sc.parse(rows[n]) case None => rest case Some(uid) => rest + [Valid(n, uid, rows[n])])
  {
    var n := |rows| - 1;
    if sc.parse(rows[n]).Some? {
      ListsAppended(sc, rows, rest, Valid(n, sc.parse(rows[n]).value, rows[n]));
    } else {
      forall i | 0 <= i < |rows| && sc.parse(rows[i]).Some?
        ensures exists k :: 0 <= k < |rest| && rest[k].index == i
      {
        assert rows[..n][i] == rows[i];
      }
    }
  }

  lemma {:induction false} ListsAppended(sc: Schema, rows: seq<Json>, rest: seq<Valid>, last: Valid)
    requires rows != [] && Lists(sc, rows[..|rows| - 1], rest)
    requires last.index == |rows| - 1 && last.row == rows[|rows| - 1] && sc.parse(last.row) == Some(last.uid)
    ensures Lists(sc, rows, rest + [last])
  {
    var all := rest + [last];
    forall i | 0 <= i < |rows| && sc.parse(rows[i]).Some?
      ensures exists k :: 0 <= k < |all| && all[k].index == i
    {
      if i < last.index {
        assert rows[..last.index][i] == rows[i];
        var k :| 0 <= k < |rest| && rest[k].index == i;
        assert all[k] == rest[k];
      } else {
        assert all[|rest|] == last;
      }
    }
  }

  function UidsOf(valid: seq<Valid>): (out: seq<string>)
    ensures |out| == |valid| && forall i :: 0 <= i < |valid| ==> out[i] == valid[i].uid
  {
    if valid == [] then [] else UidsOf(valid[..|valid| - 1]) + [valid[|valid| - 1].uid]
  }

  /** A valid row repeats an earlier row exactly when it repeats an earlier valid one. */
  lemma {:induction false} EarlierValid(sc: Schema, rows: seq<Json>, valid: seq<Valid>, uids: seq<string>, k: nat,
        stored: set<string>)
    requires Lists(sc, rows, valid) && k < |valid| == |uids| && forall i :: 0 <= i < |valid| ==> uids[i] == valid[i].uid
    ensures SeenBefore(sc, rows, valid[k].index, stored, valid[k].uid) <==>
              valid[k].uid in stored || valid[k].uid in uids[..k]
  {
    var v := valid[k];
    if j :| 0 <= j < v.index && sc.parse(rows[j]) == Some(v.uid) {
      var a :| 0 <= a < |valid| && valid[a].index == j;
      assert a < k;
      assert uids[..k][a] == v.uid;
    }
    if v.uid in uids[..k] {
      var a :| 0 <= a < k && uids[a] == v.uid;
      assert valid[a].index < v.index && sc.parse(rows[valid[a].index]) == Some(v.uid);
    }
  }

  /** An earlier row settles the same whatever follows it. */
  lemma {:induction false} RowItemOfPrefix(
      sc: Schema, rows: seq<Json>, n: nat, i: nat, stored: set<string>, context: Json)
    requires i < n <= |rows|
    ensures RowItem(sc, rows[..n], i, stored, context) == RowItem(sc, rows, i, stored, context)
  {
    assert forall j :: 0 <= j < n ==> rows[..n][j] == rows[j];
  }

  lemma {:induction false} CountOneMore(sc: Schema, rows: seq<Json>, stored: set<string>, context: Json, d: Disposition)
    requires rows != []
    ensures var n := |rows| - 1;
            CountOf(RowItems(sc, rows, stored, context), n + 1, d)
            == CountOf(RowItems(sc, rows[..n], stored, context), n, d)
               + if RowItem(sc, rows, n, stored, context).disposition == d then 1 else 0
  {
    var n := |rows| - 1;
    var items, before := RowItems(sc, rows, stored, context), RowItems(sc, rows[..n], stored, context);
    forall i | 0 <= i < n ensures items[i] == before[i] { RowItemOfPrefix(sc, rows, n, i, stored, context); }
    CountAgrees(items, before, n, d);
  }

  lemma IngestOneMore(stored: set<string>, uids: seq<string>, uid: string)
    ensures Firsts(stored, uids + [uid]) == Firsts(stored, uids) + if uid in stored || uid in uids then [] else [uid]
    ensures Repeats(stored, uids + [uid]) == Repeats(stored, uids) + if uid in stored || uid in uids then [uid] else []
  {
    assert (uids + [uid])[..|uids|] == uids;
  }

  /** The last row is new exactly when no valid row before it carries its UID. */
  lemma {:induction false} LastIsNew(sc: Schema, rows: seq<Json>, stored: set<string>, uid: string)
    requires rows != [] && sc.parse(rows[|rows| - 1]) == Some(uid)
    ensures var rest := UidsOf(ValidRows(sc, rows[..|rows| - 1]));
            && UidsOf(ValidRows(sc, rows)) == rest + [uid]
            && (SeenBefore(sc, rows, |rows| - 1, stored, uid) <==> uid in stored || uid in rest)
  {
    var n := |rows| - 1;
    var valid, rest := ValidRows(sc, rows), ValidRows(sc, rows[..n]);
    ValidRowsList(sc, rows);
    assert valid == rest + [Valid(n, uid, rows[n])] && valid[..|rest|] == rest;
    EarlierValid(sc, rows, valid, UidsOf(valid), |rest|, stored);
    assert UidsOf(valid)[..|rest|] == UidsOf(rest);
  }

  ghost predicate Tallies(sc: Schema, rows: seq<Json>, stored: set<string>, context: Json, uids: seq<string>) {
    var items := RowItems(sc, rows, stored, context);
    && |Firsts(stored, uids)| == CountOf(items, |rows|, Accepted)
    && |Repeats(stored, uids)| == CountOf(items, |rows|, Duplicate)
    && |rows| - |uids| == CountOf(items, |rows|, Quarantined)
  }

  lemma {:induction false} TalliesOneMore(
      sc: Schema, rows: seq<Json>, stored: set<string>, context: Json, rest: seq<string>, uids: seq<string>)
    requires rows != [] && Tallies(sc, rows[..|rows| - 1], stored, context, rest)
    requires match sc.parse(rows[|rows| - 1])
             case None => uids == rest
             case Some(uid) =>
               uids == rest + [uid]
               && (SeenBefore(sc, rows, |rows| - 1, stored, uid) <==> uid in stored || uid in rest)
    ensures Tallies(sc, rows, stored, context, uids)
  {
    CountOneMore(sc, rows, stored, context, Accepted);
    CountOneMore(sc, rows, stored, context, Duplicate);
    CountOneMore(sc, rows, stored, context, Quarantined);
    if sc.parse(rows[|rows| - 1]).Some? {
      IngestOneMore(stored, rest, sc.parse(rows[|rows| - 1]).value);
    }
  }

  /** The counts of an ingest are the counts of the row dispositions. */
  lemma {:induction false} CountsMatchIngest(sc: Schema, rows: seq<Json>, stored: set<string>, context: Json)
    ensures Tallies(sc, rows, stored, context, UidsOf(ValidRows(sc, rows)))
  {
    if rows != [] {
      var n := |rows| - 1;
      CountsMatchIngest(sc, rows[..n], stored, context);
      if sc.parse(rows[n]).Some? {
        LastIsNew(sc, rows, stored, sc.parse(rows[n]).value);
      } else {
        assert ValidRows(sc, rows) == ValidRows(sc, rows[..n]);
      }
      TalliesOneMore(sc, rows, stored, context, UidsOf(ValidRows(sc, rows[..n])), UidsOf(ValidRows(sc, rows)));
    }
  }

  /** First pass over the rows: invalid ones are quarantined, valid ones collected. */
  method Validate(sc: Schema, rows: seq<Json>, context: Json)
    returns (items: map<int, Item>, valid: seq<Valid>, quarantined: nat)
    ensures valid == ValidRows(sc, rows) && quarantined == |rows| - |valid|
    ensures forall i :: i in items <==> 0 <= i < |rows| && sc.parse(rows[i]).None?
    ensures forall i :: i in items ==> items[i] == QuarantinedItem(rows[i], context)
  {
    items, valid, quarantined := map[], [], 0;
    for n := 0 to |rows|
      invariant valid == ValidRows(sc, rows[..n]) && quarantined == n - |valid|
      invariant forall i :: i in items <==> 0 <= i < n && sc.parse(rows[i]).None?
      invariant forall i :: i in items ==> items[i] == QuarantinedItem(rows[i], context)
    {
      assert rows[..n + 1][..n] == rows[..n];
      match sc.parse(rows[n])
      case None => items, quarantined := items[n := QuarantinedItem(rows[n], context)], quarantined + 1;
      case Some(uid) => valid := valid + [Valid(n, uid, rows[n])];
    }
    assert rows[..|rows|] == rows;
  }

  function PlacedItem(v: Valid, earlier: seq<string>, news: seq<string>): Item {
    Item(if v.uid in news && v.uid !in earlier then Accepted else Duplicate, Some(v.uid), Sha(v.row), None)
  }

  /** `items` is `first` with the first n valid rows placed. */
  ghost predicate Placed(valid: seq<Valid>, uids: seq<string>, first: map<int, Item>, news: seq<string>,
        items: map<int, Item>, n: nat)
    requires n <= |valid| == |uids|
  {
    && (forall i :: i in first ==> i in items && items[i] == first[i])
    && (forall k :: 0 <= k < n ==>
        valid[k].index in items && items[valid[k].index] == PlacedItem(valid[k], uids[..k], news))
    && (forall i :: i in items ==> i in first || exists k :: 0 <= k < n && valid[k].index == i)
  }

  /** Second pass: each valid row is accepted the first time its newly stored UID appears. */
  method Place(valid: seq<Valid>, first: map<int, Item>, news: seq<string>) returns (items: map<int, Item>)
    requires forall a, b :: 0 <= a < b < |valid| ==> valid[a].index < valid[b].index
    requires forall k :: 0 <= k < |valid| ==> valid[k].index !in first
    ensures Placed(valid, UidsOf(valid), first, news, items, |valid|)
  {
    ghost var uids := UidsOf(valid);
    items := first;
    var remaining := set u | u in news;
    for n := 0 to |valid|
      invariant Remaining(remaining, news, uids, n)
      invariant Placed(valid, uids, first, news, items, n)
    {
      var v := valid[n];
      RemainingNext(remaining, news, uids, n);
      var item := Item(if v.uid in remaining then Accepted else Duplicate, Some(v.uid), Sha(v.row), None);
      PlacedOneMore(valid, uids, first, news, items, n, item);
      items := items[v.index := item];
      remaining := remaining - {v.uid};
    }
  }

  /** What `accepted_remaining` holds after n valid rows. */
  ghost predicate Remaining(remaining: set<string>, news: seq<string>, uids: seq<string>, n: nat)
    requires n <= |uids|
  {
    forall u :: u in remaining <==> u in news && u !in uids[..n]
  }

  lemma RemainingNext(remaining: set<string>, news: seq<string>, uids: seq<string>, n: nat)
    requires n < |uids| && Remaining(remaining, news, uids, n)
    ensures Remaining(remaining - {uids[n]}, news, uids, n + 1)
    ensures uids[n] in remaining <==> uids[n] in news && uids[n] !in uids[..n]
  {
    assert uids[..n + 1] == uids[..n] + [uids[n]];
  }

  lemma PlacedOneMore(valid: seq<Valid>, uids: seq<string>, first: map<int, Item>, news: seq<string>,
                      items: map<int, Item>, n: nat, item: Item)
    requires n < |valid| == |uids| && Placed(valid, uids, first, news, items, n)
    requires forall a, b :: 0 <= a < b < |valid| ==> valid[a].index < valid[b].index
    requires forall k :: 0 <= k < |valid| ==> valid[k].index !in first
    requires item == PlacedItem(valid[n], uids[..n], news)
    ensures Placed(valid, uids, first, news, items[valid[n].index := item], n + 1)
  {
  }

  /** Both passes give every row its disposition, and the ingest's counts are those of the items. */
  method SettleRows(sc: Schema, rows: seq<Json>, stored: set<string>, context: Json)
    returns (items: map<int, Item>, accepted: nat, duplicates: nat, quarantined: nat, seen: set<string>)
    ensures items == RowItems(sc, rows, stored, context)
    ensures accepted == CountOf(items, |rows|, Accepted) && duplicates == CountOf(items, |rows|, Duplicate)
    ensures quarantined == CountOf(items, |rows|, Quarantined)
    ensures seen == stored + ParsedUids(sc, rows)
  {
    var first, valid, invalid := Validate(sc, rows, context);
    var uids := UidsOf(valid);
    var news, repeats, after := Ingest(stored, uids);
    items := PlaceRows(sc, rows, stored, context, valid, uids, first, news);
    accepted, duplicates, quarantined, seen := |news|, |repeats|, invalid, after;
    CountsMatchIngest(sc, rows, stored, context);
    ValidRowsList(sc, rows);
    UidsAreParsed(sc, rows, valid, uids);
  }

  method PlaceRows(sc: Schema, rows: seq<Json>, stored: set<string>, context: Json, valid: seq<Valid>,
                   uids: seq<string>, first: map<int, Item>, news: seq<string>) returns (items: map<int, Item>)
    requires valid == ValidRows(sc, rows) && uids == UidsOf(valid) && news == Firsts(stored, uids)
    requires forall i :: i in first <==> 0 <= i < |rows| && sc.parse(rows[i]).None?
    requires forall i :: i in first ==> first[i] == QuarantinedItem(rows[i], context)
    ensures items == RowItems(sc, rows, stored, context)
  {
    ValidRowsList(sc, rows);
    items := Place(valid, first, news);
    FirstsAreNew(stored, uids);
    PlacedRows(sc, rows, stored, context, valid, uids, first, news, items);
  }

  function ParsedUids(sc: Schema, rows: seq<Json>): set<string> {
    set row | row in rows && sc.parse(row).Some? :: sc.parse(row).value
  }

  lemma UidsAreParsed(sc: Schema, rows: seq<Json>, valid: seq<Valid>, uids: seq<string>)
    requires Lists(sc, rows, valid) && |uids| == |valid| && forall i :: 0 <= i < |valid| ==> uids[i] == valid[i].uid
    ensures (set u | u in uids) == ParsedUids(sc, rows)
  {
    forall u | u in ParsedUids(sc, rows)
      ensures u in uids
    {
      var i :| 0 <= i < |rows| && sc.parse(rows[i]) == Some(u);
      var k :| 0 <= k < |valid| && valid[k].index == i;
      assert uids[k] == u;
    }
  }

  lemma {:induction false} PlacedRow(sc: Schema, rows: seq<Json>, stored: set<string>, context: Json,
                                     valid: seq<Valid>, uids: seq<string>, news: seq<string>, k: nat)
    requires Lists(sc, rows, valid) && |uids| == |valid| && forall i :: 0 <= i < |valid| ==> uids[i] == valid[i].uid
    requires k < |valid| && forall u :: u in news <==> u in uids && u !in stored
    ensures PlacedItem(valid[k], uids[..k], news) == RowItem(sc, rows, valid[k].index, stored, context)
  {
    EarlierValid(sc, rows, valid, uids, k, stored);
    assert uids[k] in uids;
  }

  lemma {:induction false} PlacedRows(sc: Schema, rows: seq<Json>, stored: set<string>, context: Json,
                                      valid: seq<Valid>, uids: seq<string>, first: map<int, Item>,
                                      news: seq<string>, items: map<int, Item>)
    requires Lists(sc, rows, valid) && |uids| == |valid| && forall i :: 0 <= i < |valid| ==> uids[i] == valid[i].uid
    requires forall u :: u in news <==> u in uids && u !in stored
    requires forall i :: i in first <==> 0 <= i < |rows| && sc.parse(rows[i]).None?
    requires forall i :: i in first ==> first[i] == QuarantinedItem(rows[i], context)
    requires Placed(valid, uids, first, news, items, |valid|)
    ensures items == RowItems(sc, rows, stored, context)
  {
    forall i | 0 <= i < |rows|
      ensures i in items && items[i] == RowItem(sc, rows, i, stored, context)
    {
      if sc.parse(rows[i]).Some? {
        var k :| 0 <= k < |valid| && valid[k].index == i;
        PlacedRow(sc, rows, stored, context, valid, uids, news, k);
      }
    }
    forall i | i in items
      ensures 0 <= i < |rows|
    {
    }
  }

  /** Batch-level quarantine keeps every row. */
  method QuarantineRows(rows: seq<Json>, context: Json) returns (items: map<int, Item>)
    ensures items == QuarantinedItems(rows, context)
  {
    items := map[];
    for n := 0 to |rows|
      invariant items == map i | 0 <= i < n :: QuarantinedItem(rows[i], context)
    {
      items := items[n := QuarantinedItem(rows[n], context)];
    }
  }

  /** The earliest row with this UID. */
  lemma {:induction false} FirstOccurrence(sc: Schema, rows: seq<Json>, uid: string, n: nat) returns (i: nat)
    requires n < |rows| && sc.parse(rows[n]) == Some(uid)
    ensures i <= n && sc.parse(rows[i]) == Some(uid) && forall j :: 0 <= j < i ==> sc.parse(rows[j]) != Some(uid)
  {
    if j :| 0 <= j < n && sc.parse(rows[j]) == Some(uid) {
      i := FirstOccurrence(sc, rows, uid, j);
    } else {
      i := n;
    }
  }

  /** Of the rows that carry a UID, exactly the first is accepted, and none if the UID was stored before. */
  lemma AcceptedOnceAtFirst(sc: Schema, rows: seq<Json>, stored: set<string>, context: Json, uid: string, n: nat)
    requires n < |rows| && sc.parse(rows[n]) == Some(uid)
    ensures var items := RowItems(sc, rows, stored, context);
            if uid in stored then
              forall i :: i in items && items[i].uid == Some(uid) ==> items[i].disposition == Duplicate
            else exists i :: 0 <= i <= n && items[i] == Item(Accepted, Some(uid), Sha(rows[i]), None)
                             && forall k :: k in items && k != i && items[k].uid == Some(uid) ==>
                                 i < k && items[k].disposition == Duplicate
  {
    var items := RowItems(sc, rows, stored, context);
    var i := FirstOccurrence(sc, rows, uid, n);
    if uid !in stored {
      assert !SeenBefore(sc, rows, i, stored, uid);
      forall k | k in items && k != i && items[k].uid == Some(uid)
        ensures i < k && items[k].disposition == Duplicate
      {
        assert sc.parse(rows[k]) == Some(uid);
      }
    }
  }
}
