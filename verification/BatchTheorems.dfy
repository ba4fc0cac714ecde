/** What every run of settlements keeps: no row is lost, receipts are frozen, evidence is read once. */
module BatchTheorems {
  import opened Options
  import opened BatchContent
  import opened BatchRows
  import opened BatchSettlement

  // ---- What a receipt holds ----

  /** Evidence equal to the wrapped row apart from the annotation's key. */
  ghost predicate KeepsRow(evidence: Json, row: Json) {
    evidence.Obj? && Stripped(evidence) == Stripped(Obj(Wrapped(row)))
  }

  ghost predicate ItemOk(sc: Schema, it: Item, row: Json, stored: set<string>) {
    it.digest == Sha(row)
    && if it.disposition == Quarantined then it.evidence.Some? && KeepsRow(it.evidence.value, row)
       else it.uid.Some? && sc.parse(row) == it.uid && it.uid.value in stored
  }

  ghost predicate RowsOk(sc: Schema, r: Receipt, rows: seq<Json>, stored: set<string>) {
    && r.count == |rows|
    && (forall i :: i in r.items <==> 0 <= i < |rows|)
    && (forall i :: 0 <= i < |rows| ==> ItemOk(sc, r.items[i], rows[i], stored))
    && r.accepted == CountOf(r.items, |rows|, Accepted)
    && r.duplicates == CountOf(r.items, |rows|, Duplicate)
    && r.quarantined == CountOf(r.items, |rows|, Quarantined)
  }

  /** A batch with no bounded event list is kept whole. */
  ghost predicate KeptWhole(r: Receipt) {
    && r.items.Keys == {-1} && r.items[-1].disposition == Quarantined && r.items[-1].evidence.Some?
    && r.items[-1].evidence.value.Obj?
    && Get(r.items[-1].evidence.value.fields, "batch").Obj?
    && Material(Get(r.items[-1].evidence.value.fields, "batch").fields) == r.digest.content
    && r.accepted == 0 && r.duplicates == 0 && r.quarantined == 1 && !(1 <= r.count <= MAX_BATCH_EVENTS)
  }

  predicate ListsRows(r: Receipt) {
    r.digest.content.List? && Bounded(r.digest.content.items)
  }

  ghost predicate ReceiptOk(sc: Schema, r: Receipt, stored: set<string>) {
    && (if ListsRows(r) then RowsOk(sc, r, r.digest.content.items, stored) else KeptWhole(r))
    && (r.content.Marked? ==> r.digest.content.List? && r.content.digest == ContentDigest(sc, r.digest.content.items))
  }

  /** No two receipts of one id, digest and reported digest. */
  ghost predicate Distinct(rs: seq<Receipt>) {
    forall i, j :: 0 <= i < j < |rs| ==> !IsExact(rs[j], rs[i].batch, rs[i].digest, rs[i].reported)
  }

  /** A receipt with a stored row carries the digest of every receipt of its id before it. */
  ghost predicate FirstWins(rs: seq<Receipt>) {
    forall i, j :: 0 <= i < j < |rs| && rs[j].accepted + rs[j].duplicates > 0 && rs[i].batch == rs[j].batch ==>
      rs[i].digest == rs[j].digest
  }

  ghost predicate StoreOk(sc: Schema, st: Store) {
    && (forall k :: 0 <= k < |st.receipts| ==> ReceiptOk(sc, st.receipts[k], st.stored))
    && Distinct(st.receipts) && FirstWins(st.receipts)
  }

  // ---- Rebuilt digests ----

  ghost predicate Kept(it: Item, row: Json) {
    it.disposition == Quarantined && it.digest == Sha(row) && it.evidence.Some? && KeepsRow(it.evidence.value, row)
  }

  lemma KeptRowRebuilds(it: Item, row: Json)
    requires Kept(it, row)
    ensures RebuiltRow(it.evidence.value, it.digest) == if Rebuildable(row) then Some(row) else None
  {
    RebuiltIsTheRow(row, Null);
    assert Stripped(Protected(row, Null)) == Stripped(Obj(Wrapped(row)));
  }

  predicate Rebuilds(it: Item, row: Json) {
    it.evidence.Some? && it.evidence.value.Obj?
    && RebuiltRow(it.evidence.value, it.digest) == if Rebuildable(row) then Some(row) else None
  }

  lemma {:induction false} RebuiltRowsAre(items: map<int, Item>, rows: seq<Json>, n: nat)
    requires n <= |rows| && forall i :: 0 <= i < n ==> i in items && Rebuilds(items[i], rows[i])
    requires forall i :: 0 <= i < n ==> items[i].evidence.Some? && items[i].evidence.value.Obj?
    ensures RebuiltRows(items, n) == if forall i :: 0 <= i < n ==> Rebuildable(rows[i]) then Some(rows[..n]) else None
  {
    if n > 0 {
      RebuiltRowsAre(items, rows, n - 1);
      assert Rebuilds(items[n - 1], rows[n - 1]);
      assert rows[..n] == rows[..n - 1] + [rows[n - 1]];
    }
  }

  lemma QuarantinedAreKept(sc: Schema, r: Receipt, rows: seq<Json>, stored: set<string>)
    requires RowsOk(sc, r, rows, stored) && r.quarantined == r.count
    ensures forall i :: 0 <= i < |rows| ==> Kept(r.items[i], rows[i])
  {
    AllOfThem(r.items, r.count);
    forall i | 0 <= i < |rows|
      ensures Kept(r.items[i], rows[i])
    {
      assert ItemOk(sc, r.items[i], rows[i], stored);
    }
  }

  lemma {:induction false} QuarantinedRebuild(sc: Schema, r: Receipt, rows: seq<Json>, stored: set<string>)
    requires RowsOk(sc, r, rows, stored) && r.quarantined == r.count
    ensures forall i :: 0 <= i < |rows| ==> Rebuilds(r.items[i], rows[i])
  {
    QuarantinedAreKept(sc, r, rows, stored);
    forall i | 0 <= i < |rows| ensures Rebuilds(r.items[i], rows[i]) {
      KeptRowRebuilds(r.items[i], rows[i]);
    }
  }

  /** A content digest rebuilt from evidence is the original batch's, and is rebuilt exactly when every row can be. */
  lemma {:induction false} RebuiltIsOriginal(sc: Schema, r: Receipt, stored: set<string>)
    requires ReceiptOk(sc, r, stored) && ListsRows(r) && r.quarantined == r.count
    ensures RebuiltContent(sc, r) ==
            if forall i :: 0 <= i < r.count ==> Rebuildable(r.digest.content.items[i])
            then Some(ContentDigest(sc, r.digest.content.items)) else None
  {
    var rows := r.digest.content.items;
    QuarantinedAreKept(sc, r, rows, stored);
    QuarantinedRebuild(sc, r, rows, stored);
    RebuiltRowsAre(r.items, rows, r.count);
    assert rows[..r.count] == rows;
    assert AllPreserved(r);
  }

  lemma {:induction false} AllOfThem(items: map<int, Item>, n: nat)
    requires forall i :: 0 <= i < n ==> i in items
    requires CountOf(items, n, Quarantined) == n
    ensures forall i :: 0 <= i < n ==> items[i].disposition == Quarantined
  {
    if n > 0 {
      CountsCover(items, n - 1);
      AllOfThem(items, n - 1);
    }
  }

  // ---- What settling keeps ----

  /** A receipt never changes after it is created, except for its content mark, which is never unset again. */
  predicate Frozen(a: Receipt, b: Receipt) {
    a.(content := Unset) == b.(content := Unset) && (a.content.Unset? || !b.content.Unset?)
  }

  ghost predicate Grows(a: Store, b: Store) {
    && |a.receipts| <= |b.receipts| && a.stored <= b.stored
    && forall k :: 0 <= k < |a.receipts| ==> Frozen(a.receipts[k], b.receipts[k])
  }

  lemma StoredGrows(sc: Schema, r: Receipt, stored: set<string>, more: set<string>)
    requires ReceiptOk(sc, r, stored) && stored <= more
    ensures ReceiptOk(sc, r, more)
  {
    if ListsRows(r) {
      forall i | 0 <= i < r.count
        ensures ItemOk(sc, r.items[i], r.digest.content.items[i], more)
      {
        assert ItemOk(sc, r.items[i], r.digest.content.items[i], stored);
      }
    }
  }

  /** Changing one receipt's content mark to its own content keeps the store. */
  lemma MarkingKeeps(sc: Schema, st: Store, k: nat, mark: Mark)
    requires StoreOk(sc, st) && k < |st.receipts| && !mark.Unset?
    requires mark.Marked? ==>
               st.receipts[k].digest.content.List?
                   && mark.digest == ContentDigest(sc, st.receipts[k].digest.content.items)
    ensures var next := st.(receipts := st.receipts[k := st.receipts[k].(content := mark)]);
            StoreOk(sc, next) && Grows(st, next)
  {
    var next := st.(receipts := st.receipts[k := st.receipts[k].(content := mark)]);
    assert forall j :: 0 <= j < |st.receipts| ==>
             next.receipts[j].(content := Unset) == st.receipts[j].(content := Unset);
    assert ReceiptOk(sc, st.receipts[k], st.stored);
    forall j | 0 <= j < |next.receipts|
      ensures ReceiptOk(sc, next.receipts[j], next.stored)
    {
      assert ReceiptOk(sc, st.receipts[j], st.stored);
    }
  }

  lemma CandidateListsRows(sc: Schema, r: Receipt, stored: set<string>, id: string, n: nat)
    requires ReceiptOk(sc, r, stored) && Candidate(r, id, n) && n <= MAX_BATCH_EVENTS
    ensures ListsRows(r)
  {
  }

  lemma GrowsThrough(a: Store, b: Store, c: Store)
    requires Grows(a, b) && Grows(b, c)
    ensures Grows(a, c)
  {
    forall k | 0 <= k < |a.receipts|
      ensures Frozen(a.receipts[k], c.receipts[k])
    {
      assert Frozen(a.receipts[k], b.receipts[k]) && Frozen(b.receipts[k], c.receipts[k]);
    }
  }

  /** Reading candidates marks exactly those read, each unmarked before, and a match has the wanted content. */
  ghost predicate ReadingOk(sc: Schema, st: Store, got: Reading, want: Digest) {
    && |got.receipts| == |st.receipts|
    && StoreOk(sc, st.(receipts := got.receipts)) && Grows(st, st.(receipts := got.receipts))
    && (forall i :: 0 <= i < |got.read| ==>
          got.read[i] < |st.receipts| && st.receipts[got.read[i]].content.Unset?
              && !got.receipts[got.read[i]].content.Unset?)
    && (forall i, j :: 0 <= i < j < |got.read| ==> got.read[i] != got.read[j])
    && (got.found.Some? ==> got.found.value < |got.receipts| && got.receipts[got.found.value].content == Marked(want))
  }

  ghost predicate AllCandidates(rs: seq<Receipt>, todo: seq<nat>, id: string, n: nat) {
    && (forall i :: 0 <= i < |todo| ==> todo[i] < |rs| && Candidate(rs[todo[i]], id, n))
    && (forall i, j :: 0 <= i < j < |todo| ==> todo[i] != todo[j])
  }

  /** Reading one candidate stores its own content mark and leaves the rest of the list unread. */
  lemma ReadOneOk(sc: Schema, st: Store, todo: seq<nat>, id: string, n: nat)
    requires StoreOk(sc, st) && n <= MAX_BATCH_EVENTS && todo != [] && AllCandidates(st.receipts, todo, id, n)
    ensures var next := st.(receipts := ReadOne(sc, st.receipts, todo[0]));
            StoreOk(sc, next) && Grows(st, next) && AllCandidates(next.receipts, todo[1..], id, n)
            && !next.receipts[todo[0]].content.Unset?
  {
    var k := todo[0];
    assert ReceiptOk(sc, st.receipts[k], st.stored);
    CandidateListsRows(sc, st.receipts[k], st.stored, id, n);
    RebuiltIsOriginal(sc, st.receipts[k], st.stored);
    MarkingKeeps(sc, st, k, MarkOf(RebuiltContent(sc, st.receipts[k])));
  }

  lemma ReadThenRest(sc: Schema, st: Store, mid: Store, rest: Reading, k: nat, want: Digest)
    requires mid.stored == st.stored && k < |st.receipts| == |mid.receipts|
    requires st.receipts[k].content.Unset? && !mid.receipts[k].content.Unset?
    requires Grows(st, mid) && ReadingOk(sc, mid, rest, want) && k !in rest.read
    requires forall i :: 0 <= i < |st.receipts| && i != k ==> mid.receipts[i] == st.receipts[i]
    ensures ReadingOk(sc, st, rest.(read := [k] + rest.read), want)
  {
    var last := st.(receipts := rest.receipts);
    assert last == mid.(receipts := rest.receipts);
    GrowsThrough(st, mid, last);
    assert Frozen(mid.receipts[k], rest.receipts[k]);
    forall i | 0 <= i < |rest.read|
      ensures rest.read[i] != k
    {
      assert rest.read[i] in rest.read;
    }
  }

  lemma {:induction false} ReadCandidatesOk(sc: Schema, st: Store, todo: seq<nat>, id: string, n: nat, want: Digest)
    requires StoreOk(sc, st) && n <= MAX_BATCH_EVENTS && AllCandidates(st.receipts, todo, id, n)
    ensures ReadingOk(sc, st, ReadCandidates(sc, st.receipts, todo, want), want)
    ensures forall k :: k in ReadCandidates(sc, st.receipts, todo, want).read ==> k in todo
    decreases |todo|
  {
    if todo != [] {
      var k := todo[0];
      var mid := st.(receipts := ReadOne(sc, st.receipts, k));
      ReadOneOk(sc, st, todo, id, n);
      if mid.receipts[k].content != Marked(want) {
        ReadCandidatesOk(sc, mid, todo[1..], id, n, want);
        assert k !in todo[1..];
        ReadThenRest(sc, st, mid, ReadCandidates(sc, mid.receipts, todo[1..], want), k, want);
      }
    }
  }

  lemma ReplayedOk(sc: Schema, st: Store, id: string, want: Digest, n: nat)
    requires StoreOk(sc, st) && n <= MAX_BATCH_EVENTS
    ensures ReadingOk(sc, st, Replayed(sc, st.receipts, id, want, n), want)
  {
    if Prior(st.receipts, id, want).None? {
      ReadCandidatesOk(sc, st, ToRead(st.receipts, id, n), id, n, want);
    }
  }

  lemma NewItemsOk(sc: Schema, st: Store, m: map<string, Json>, i: nat)
    requires HasBoundedRows(m) && i < |EventsOf(m).items|
    ensures var rows := EventsOf(m).items;
            ItemOk(sc, NewItems(sc, st, m)[i], rows[i],
                   if BatchError(st.receipts, sc, m) then st.stored else st.stored + ParsedUids(sc, rows))
  {
    var row := EventsOf(m).items[i];
    assert Stripped(Protected(row, Context(m))) == Stripped(Obj(Wrapped(row)));
  }

  lemma NewReceiptOk(sc: Schema, st: Store, m: map<string, Json>)
    ensures ReceiptOk(sc, NewReceipt(sc, st, m), WithNew(sc, st, m, []).store.stored)
  {
    var r := NewReceipt(sc, st, m);
    if HasBoundedRows(m) {
      forall i | 0 <= i < r.count
        ensures ItemOk(sc, r.items[i], EventsOf(m).items[i], WithNew(sc, st, m, []).store.stored)
      {
        NewItemsOk(sc, st, m, i);
      }
    } else {
      var whole := Obj(map["batch" := Obj(m)]);
      assert Get(whole.fields, "batch") == Obj(m);
    }
  }

  lemma OnlyUncontestedStores(sc: Schema, st: Store, m: map<string, Json>)
    requires BatchError(st.receipts, sc, m)
    ensures var r := NewReceipt(sc, st, m); r.accepted == 0 && r.duplicates == 0
  {
    if HasBoundedRows(m) {
      AllCounted(EventsOf(m).items, Context(m), |EventsOf(m).items|);
    }
  }

  /** Rows are stored only from a well-named, bounded, uncontested batch whose reported digest, if any, is right. */
  lemma StoresOnlySoundBatches(sc: Schema, st: Store, m: map<string, Json>)
    requires NewReceipt(sc, st, m).accepted + NewReceipt(sc, st, m).duplicates > 0
    ensures ValidId(Get(m, "batch_id")) && HasBoundedRows(m)
    ensures forall r :: r in st.receipts && r.batch == Get(m, "batch_id").s ==> r.digest == Sha(EventsOf(m))
    ensures Get(m, "payload_digest") == Null || Get(m, "payload_digest") == Str(sc.hex(Sha(EventsOf(m))))
  {
    if BatchError(st.receipts, sc, m) {
      OnlyUncontestedStores(sc, st, m);
      assert false;
    }
  }

  lemma {:induction false} OldReceiptsStay(sc: Schema, st: Store, more: set<string>)
    requires StoreOk(sc, st) && st.stored <= more
    ensures forall k :: 0 <= k < |st.receipts| ==> ReceiptOk(sc, st.receipts[k], more)
  {
    forall k | 0 <= k < |st.receipts| ensures ReceiptOk(sc, st.receipts[k], more) {
      StoredGrows(sc, st.receipts[k], st.stored, more);
    }
  }

  lemma {:induction false} AppendedIsDistinct(rs: seq<Receipt>, r: Receipt)
    requires Distinct(rs) && FindExact(rs, r.batch, r.digest, r.reported).None?
    ensures Distinct(rs + [r])
  {
    forall i | 0 <= i < |rs|
      ensures !IsExact(r, rs[i].batch, rs[i].digest, rs[i].reported)
    {
      assert !IsExact(rs[i], r.batch, r.digest, r.reported);
    }
  }

  lemma {:induction false} NewKeeps(sc: Schema, st: Store, m: map<string, Json>, read: seq<nat>)
    requires StoreOk(sc, st) && FindExact(st.receipts, BatchId(sc, m), Sha(Material(m)), Reported(m)).None?
    ensures var s := WithNew(sc, st, m, read); StoreOk(sc, s.store) && Grows(st, s.store)
  {
    NewReceiptOk(sc, st, m);
    OldReceiptsStay(sc, st, WithNew(sc, st, m, read).store.stored);
    AppendedIsDistinct(st.receipts, NewReceipt(sc, st, m));
    if BatchError(st.receipts, sc, m) {
      OnlyUncontestedStores(sc, st, m);
    }
  }

  /** Forgetting the content mark of one receipt keeps the store. */
  lemma {:induction false} UnmarkingKeeps(sc: Schema, st: Store, k: nat)
    requires StoreOk(sc, st) && k < |st.receipts|
    ensures StoreOk(sc, st.(receipts := st.receipts[k := st.receipts[k].(content := Unset)]))
  {
    var next := st.(receipts := st.receipts[k := st.receipts[k].(content := Unset)]);
    assert forall j :: 0 <= j < |st.receipts| ==>
             next.receipts[j].(content := Unset) == st.receipts[j].(content := Unset);
    forall j | 0 <= j < |next.receipts| ensures ReceiptOk(sc, next.receipts[j], next.stored) {
      assert ReceiptOk(sc, st.receipts[j], st.stored);
    }
  }

  lemma {:induction false} NewUnmarkedKeeps(sc: Schema, st: Store, m: map<string, Json>)
    requires StoreOk(sc, st) && FindExact(st.receipts, BatchId(sc, m), Sha(Material(m)), Reported(m)).None?
    ensures var s := SettleUnmarked(sc, st, m); StoreOk(sc, s.store) && Grows(st, s.store)
  {
    NewKeeps(sc, st, m, []);
    UnmarkingKeeps(sc, WithNew(sc, st, m, []).store, |st.receipts|);
  }
}
