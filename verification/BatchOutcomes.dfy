/**
 How every payload is settled, in terms of the payload and the receipts alone: which batches are stored, which are
 answered from their own receipt and which from the receipt of an earlier capture of the same rows.
 */
module BatchOutcomes {
  import opened Options
  import opened BatchContent
  import opened BatchRows
  import opened BatchSettlement
  import opened BatchTheorems
  import opened BatchRuns

  // ------------------------------------------------------------- sound batches

  predicate WellNamed(m: map<string, Json>) {
    var id := Get(m, "batch_id");
    id.Str? && 1 <= |id.s| <= 120 && '\0' !in id.s
  }

  predicate ListsSome(m: map<string, Json>) {
    Get(m, "events").List? && 1 <= |Get(m, "events").items| <= 100
  }

  /** No receipt of the id carries another digest. */
  ghost predicate Uncontested(rs: seq<Receipt>, m: map<string, Json>)
    requires WellNamed(m)
  {
    forall r :: r in rs && r.batch == Get(m, "batch_id").s ==> r.digest == Sha(Get(m, "events"))
  }

  predicate Vouched(sc: Schema, m: map<string, Json>) {
    Get(m, "payload_digest") == Null || Get(m, "payload_digest") == Str(sc.hex(Sha(Get(m, "events"))))
  }

  /** A named list of 1 to 100 rows, no other digest under its name, and its own digest right or not reported. */
  ghost predicate SoundBatch(sc: Schema, rs: seq<Receipt>, m: map<string, Json>) {
    WellNamed(m) && ListsSome(m) && Uncontested(rs, m) && Vouched(sc, m)
  }

  /** The payload has a receipt of its own: of its id, digest and reported digest. */
  ghost predicate Owned(sc: Schema, rs: seq<Receipt>, m: map<string, Json>) {
    exists r :: r in rs && r.batch == BatchId(sc, m) && r.digest == DigestOf(m)
      && r.reported == Get(m, "payload_digest")
  }

  /** The digest of the event list, or of the whole payload where it is none. */
  function DigestOf(m: map<string, Json>): Digest {
    Sha(if Get(m, "events").List? then Get(m, "events") else Obj(m))
  }

  lemma SoundHasNoError(sc: Schema, rs: seq<Receipt>, m: map<string, Json>)
    ensures SoundBatch(sc, rs, m) <==> !BatchError(rs, sc, m)
  {
  }

  lemma OwnedIsFound(sc: Schema, rs: seq<Receipt>, m: map<string, Json>)
    ensures Owned(sc, rs, m) <==> FindExact(rs, BatchId(sc, m), Sha(Material(m)), Reported(m)).Some?
  {
    var at := FindExact(rs, BatchId(sc, m), Sha(Material(m)), Reported(m));
    if at.Some? { assert rs[at.value] in rs; }
  }

  /** An invalid row is quarantined; a valid one is accepted where its UID is first seen and else a duplicate. */
  ghost predicate RowSettled(sc: Schema, rows: seq<Json>, i: nat, stored: set<string>, it: Item)
    requires i < |rows|
  {
    match sc.parse(rows[i])
    case None => it.disposition == Quarantined && it.evidence.Some? && KeepsRow(it.evidence.value, rows[i])
    case Some(uid) =>
      it.uid == Some(uid)
      && it.disposition == if uid in stored || exists j :: 0 <= j < i && sc.parse(rows[j]) == Some(uid) then Duplicate
                           else Accepted
  }

  ghost predicate RowsSettled(sc: Schema, rows: seq<Json>, stored: set<string>, items: map<int, Item>) {
    forall i :: 0 <= i < |rows| ==> i in items && RowSettled(sc, rows, i, stored, items[i])
  }

  ghost predicate UidsAdded(sc: Schema, rows: seq<Json>, before: set<string>, after: set<string>) {
    forall uid :: uid in after <==> uid in before || exists i :: 0 <= i < |rows| && sc.parse(rows[i]) == Some(uid)
  }

  /** The new receipt is appended and nothing else of the list changes. */
  ghost predicate Appends(st: Store, s: Settled) {
    s.kind == New && s.receipt == |st.receipts| && |s.store.receipts| == |st.receipts| + 1
    && s.store.receipts[..|st.receipts|] == st.receipts
  }

  lemma RowItemsSettled(sc: Schema, rows: seq<Json>, stored: set<string>, context: Json)
    ensures RowsSettled(sc, rows, stored, RowItems(sc, rows, stored, context))
  {
    forall i | 0 <= i < |rows|
      ensures RowSettled(sc, rows, i, stored, RowItem(sc, rows, i, stored, context))
    {
      assert Stripped(Protected(rows[i], context)) == Stripped(Obj(Wrapped(rows[i])));
    }
  }

  lemma ParsedAreAdded(sc: Schema, rows: seq<Json>, before: set<string>)
    ensures UidsAdded(sc, rows, before, before + ParsedUids(sc, rows))
  {
  }

  /** A sound batch with no receipt yet is settled row by row and every valid row's UID is stored. */
  lemma {:induction false} SoundBatchIsStored(sc: Schema, st: Store, step: Step)
    requires !step.OthersStore? && SoundBatch(sc, st.receipts, step.payload) && !Owned(sc, st.receipts, step.payload)
    ensures var s, rows := Settlement(sc, st, step), Get(step.payload, "events").items;
            Appends(st, s) && RowsSettled(sc, rows, st.stored, s.store.receipts[s.receipt].items)
            && UidsAdded(sc, rows, st.stored, s.store.stored)
  {
    var m := step.payload;
    var rows := EventsOf(m).items;
    SoundHasNoError(sc, st.receipts, m);
    OwnedIsFound(sc, st.receipts, m);
    RowItemsSettled(sc, rows, st.stored, Context(m));
    ParsedAreAdded(sc, rows, st.stored);
  }

  // --------------------------------------------------------- every other payload

  /** No UID is stored, and a receipt made for the payload quarantines everything. */
  ghost predicate StoresNothing(st: Store, s: Settled) {
    s.store.stored == st.stored
    && (s.kind == New ==>
          s.receipt < |s.store.receipts|
          && forall i :: i in s.store.receipts[s.receipt].items ==>
               s.store.receipts[s.receipt].items[i].disposition == Quarantined)
  }

  /** Nothing but a sound batch stores a UID or accepts a row. */
  lemma UnsoundStoresNothing(sc: Schema, st: Store, step: Step)
    requires !step.OthersStore? && !SoundBatch(sc, st.receipts, step.payload) && StoreOk(sc, st)
    ensures StoresNothing(st, Settlement(sc, st, step))
  {
    var m := step.payload;
    SoundHasNoError(sc, st.receipts, m);
    if step.Settles? && MayReplay(st.receipts, sc, m) {
      ContestedStoresNothing(sc, st, m);
    } else {
      ErrorQuarantines(sc, st, m, []);
    }
  }

  lemma {:induction false} ErrorQuarantines(sc: Schema, st: Store, m: map<string, Json>, read: seq<nat>)
    requires BatchError(st.receipts, sc, m)
    ensures StoresNothing(st, WithNew(sc, st, m, read))
    ensures forall i :: i in NewReceipt(sc, st, m).items ==>
              NewReceipt(sc, st, m).items[i].disposition == Quarantined
  {
  }

  lemma {:induction false} ContestedStoresNothing(sc: Schema, st: Store, m: map<string, Json>)
    requires StoreOk(sc, st) && MayReplay(st.receipts, sc, m)
    ensures StoresNothing(st, Settle(sc, st, m))
  {
    var rows := EventsOf(m).items;
    var got := Replayed(sc, st.receipts, BatchId(sc, m), ContentDigest(sc, rows), |rows|);
    ReplayedOk(sc, st, BatchId(sc, m), ContentDigest(sc, rows), |rows|);
    StillConflicts(st.receipts, got.receipts, BatchId(sc, m), Sha(Material(m)));
    ErrorQuarantines(sc, st.(receipts := got.receipts), m, got.read);
  }

  lemma {:induction false} StillConflicts(rs: seq<Receipt>, next: seq<Receipt>, id: string, digest: Digest)
    requires |rs| == |next| && forall k :: 0 <= k < |rs| ==> Frozen(rs[k], next[k])
    requires Conflicts(rs, id, digest)
    ensures Conflicts(next, id, digest)
  {
    var r :| r in rs && r.batch == id && r.digest != digest;
    var k :| 0 <= k < |rs| && rs[k] == r;
    assert Frozen(rs[k], next[k]);
    assert next[k] in next;
  }

  /** A payload is answered from its own receipt if and only if it has one. */
  lemma OwnReceiptAnswers(sc: Schema, st: Store, step: Step)
    requires !step.OthersStore?
    ensures Settlement(sc, st, step).kind == ExactRetry <==> Owned(sc, st.receipts, step.payload)
  {
    OwnedIsFound(sc, st.receipts, step.payload);
  }

  /** Repeating an event list leaves its receipt marked with the list's content, whichever version made it. */
  lemma {:induction false} RetryMarksContent(sc: Schema, st: Store, m: map<string, Json>)
    requires StoreOk(sc, st) && Owned(sc, st.receipts, m) && Get(m, "events").List?
    ensures var s := Settle(sc, st, m);
            s.receipt < |s.store.receipts|
            && s.store.receipts[s.receipt].content == Marked(ContentDigest(sc, Get(m, "events").items))
  {
    OwnedIsFound(sc, st.receipts, m);
    var k := FindExact(st.receipts, BatchId(sc, m), Sha(Material(m)), Reported(m)).value;
    assert ReceiptOk(sc, st.receipts[k], st.stored);
  }

  /** A payload with no event list is kept whole, as one quarantined item of an unmarked receipt. */
  lemma {:induction false} UnlistedIsKeptWhole(sc: Schema, st: Store, step: Step)
    requires !step.OthersStore? && !Get(step.payload, "events").List? && !Owned(sc, st.receipts, step.payload)
    ensures var s, m := Settlement(sc, st, step), step.payload;
            && Appends(st, s) && s.store.stored == st.stored
            && var r := s.store.receipts[s.receipt];
               && r.digest == Sha(Obj(m)) && r.content == Unset && r.count == 0 && r.quarantined == 1
               && r.items == map[-1 := Item(Quarantined, None, Sha(Obj(map["batch" := Obj(m)])),
                                            Some(Obj(map["batch" := Obj(m)])))]
  {
    OwnedIsFound(sc, st.receipts, step.payload);
  }

  // ---------------------------------------------------------------- replays

  /** Named and listed well, no digest reported, another digest under its id and no receipt of its own. */
  ghost predicate Recaptured(sc: Schema, rs: seq<Receipt>, m: map<string, Json>) {
    WellNamed(m) && ListsSome(m) && Get(m, "payload_digest") == Null && !Uncontested(rs, m) && !Owned(sc, rs, m)
  }

  /** The receipt is of the payload's id and its rows differ in well-formed capture times at most. */
  ghost predicate SameCapture(sc: Schema, r: Receipt, m: map<string, Json>)
    requires WellNamed(m) && ListsSome(m)
  {
    r.batch == Get(m, "batch_id").s && r.content == Marked(ContentDigest(sc, Get(m, "events").items))
  }

  /** The first receipt of the same rows that quarantined none, or the first of all where every one did. */
  ghost predicate Preferred(sc: Schema, rs: seq<Receipt>, m: map<string, Json>, k: nat)
    requires WellNamed(m) && ListsSome(m)
  {
    k < |rs| && SameCapture(sc, rs[k], m)
    && forall j :: 0 <= j < |rs| && j != k && SameCapture(sc, rs[j], m) ==>
         if rs[k].quarantined == 0 then rs[j].quarantined == 0 ==> k < j
         else rs[j].quarantined > 0 && k < j
  }

  lemma {:induction false} FirstIs(rs: seq<Receipt>, id: string, content: Digest, committed: bool, k: nat)
    requires k < |rs| && rs[k].batch == id && rs[k].content == Marked(content) && (committed ==> Committed(rs[k]))
    requires forall j :: 0 <= j < k && rs[j].batch == id && rs[j].content == Marked(content) ==>
               committed && !Committed(rs[j])
    ensures FirstWith(rs, id, content, committed) == Some(k)
  {
    var n := |rs| - 1;
    if k < n {
      assert rs[..n][k] == rs[k];
      FirstIs(rs[..n], id, content, committed, k);
    } else {
      NoFirst(rs[..n], id, content, committed);
    }
  }

  lemma {:induction false} NoFirst(rs: seq<Receipt>, id: string, content: Digest, committed: bool)
    requires forall j :: 0 <= j < |rs| && rs[j].batch == id && rs[j].content == Marked(content) ==>
               committed && !Committed(rs[j])
    ensures FirstWith(rs, id, content, committed).None?
  {
    if rs != [] {
      NoFirst(rs[..|rs| - 1], id, content, committed);
    }
  }

  lemma PreferredIsPrior(sc: Schema, rs: seq<Receipt>, m: map<string, Json>, k: nat)
    requires WellNamed(m) && ListsSome(m) && Preferred(sc, rs, m, k)
    ensures Prior(rs, BatchId(sc, m), ContentDigest(sc, EventsOf(m).items)) == Some(k)
  {
    var id, content := Get(m, "batch_id").s, ContentDigest(sc, EventsOf(m).items);
    assert BatchId(sc, m) == id;
    if Committed(rs[k]) {
      FirstIs(rs, id, content, true, k);
    } else {
      forall j | 0 <= j < |rs| && rs[j].batch == id && rs[j].content == Marked(content) ensures !Committed(rs[j]) {
        assert SameCapture(sc, rs[j], m);
      }
      NoFirst(rs, id, content, true);
      FirstIs(rs, id, content, false, k);
    }
  }

  /** A repeat of settled rows is answered from the preferred receipt, exactly where its stored rows still validate. */
  lemma {:induction false} RecaptureIsReplayed(sc: Schema, st: Store, m: map<string, Json>, k: nat)
    requires Recaptured(sc, st.receipts, m) && Preferred(sc, st.receipts, m, k)
    ensures var s := Settle(sc, st, m);
            if RowsRepeat(sc, st.receipts[k], Get(m, "events").items)
            then s == Settled(st, k, CaptureReplay, [])
            else Appends(st, s) && s.store.stored == st.stored
  {
    OwnedIsFound(sc, st.receipts, m);
    RecapturedMayReplay(sc, st.receipts, m);
    PreferredIsPrior(sc, st.receipts, m, k);
    assert st.(receipts := st.receipts) == st;
  }

  lemma RecapturedMayReplay(sc: Schema, rs: seq<Receipt>, m: map<string, Json>)
    requires Recaptured(sc, rs, m)
    ensures MayReplay(rs, sc, m)
  {
    var r :| r in rs && r.batch == Get(m, "batch_id").s && r.digest != Sha(Get(m, "events"));
    assert Conflicts(rs, BatchId(sc, m), Sha(Material(m)));
  }

  /** Only a recaptured batch is answered from another payload's receipt: one of its id with the same content. */
  lemma {:induction false} ReplaysOnlyRecaptures(sc: Schema, st: Store, m: map<string, Json>)
    requires StoreOk(sc, st) && Settle(sc, st, m).kind == CaptureReplay
    ensures Recaptured(sc, st.receipts, m) && |Settle(sc, st, m).read| <= 3
    ensures var s, rows := Settle(sc, st, m), Get(m, "events").items;
            s.receipt < |s.store.receipts| && s.store.stored == st.stored
            && s.store.receipts[s.receipt].content == Marked(ContentDigest(sc, rows))
            && RowsRepeat(sc, s.store.receipts[s.receipt], rows)
  {
    OwnedIsFound(sc, st.receipts, m);
    var rows := EventsOf(m).items;
    ReplayedOk(sc, st, BatchId(sc, m), ContentDigest(sc, rows), |rows|);
    ReadsAtMostThree(sc, st, m);
    assert !Uncontested(st.receipts, m);
  }

  lemma {:induction false} ReadsNoMore(sc: Schema, rs: seq<Receipt>, todo: seq<nat>, want: Digest)
    requires forall i :: 0 <= i < |todo| ==> todo[i] < |rs|
    ensures |ReadCandidates(sc, rs, todo, want).read| <= |todo|
    decreases |todo|
  {
    if todo != [] {
      ReadsNoMore(sc, ReadOne(sc, rs, todo[0]), todo[1..], want);
    }
  }

  /** No settlement decrypts more than three receipts, and only a recaptured batch makes it decrypt any. */
  lemma {:induction false} ReadsAtMostThree(sc: Schema, st: Store, m: map<string, Json>)
    ensures |Settle(sc, st, m).read| <= 3
    ensures Settle(sc, st, m).read != [] ==> Recaptured(sc, st.receipts, m)
  {
    OwnedIsFound(sc, st.receipts, m);
    if MayReplay(st.receipts, sc, m) {
      var rows := EventsOf(m).items;
      ReadsNoMore(sc, st.receipts, ToRead(st.receipts, BatchId(sc, m), |rows|), ContentDigest(sc, rows));
      assert !Uncontested(st.receipts, m);
    }
  }

  // ------------------------------------------------------ receipts without a content digest

  /** An unmarked receipt of the id that quarantined every one of n rows. */
  predicate Left(r: Receipt, id: string, n: nat) {
    r.batch == id && r.content == Unset && n > 0 && r.accepted == 0 && r.duplicates == 0 && r.quarantined == n
    && r.count == n
  }

  /** How many such receipts are newer than the k-th. */
  function NewerLeft(rs: seq<Receipt>, id: string, n: nat, k: nat): nat {
    if |rs| <= k + 1 then 0
    else NewerLeft(rs[..|rs| - 1], id, n, k) + if Left(rs[|rs| - 1], id, n) then 1 else 0
  }

  lemma {:induction false} LeftIsListed(rs: seq<Receipt>, id: string, n: nat, k: nat)
    requires k < |rs| && Left(rs[k], id, n)
    ensures NewerLeft(rs, id, n, k) < |Candidates(rs, id, n)|
    ensures Candidates(rs, id, n)[NewerLeft(rs, id, n, k)] == k
  {
    if k + 1 < |rs| {
      assert rs[..|rs| - 1][k] == rs[k];
      LeftIsListed(rs[..|rs| - 1], id, n, k);
    }
  }

  lemma {:induction false} ReadsToMatch(sc: Schema, rs: seq<Receipt>, todo: seq<nat>, want: Digest, p: nat)
    requires p < |todo| && (forall i :: 0 <= i < |todo| ==> todo[i] < |rs|)
    requires forall i, j :: 0 <= i < j < |todo| ==> todo[i] != todo[j]
    requires RebuiltContent(sc, rs[todo[p]]) == Some(want)
    requires forall q :: 0 <= q < p ==> RebuiltContent(sc, rs[todo[q]]) != Some(want)
    ensures var got := ReadCandidates(sc, rs, todo, want);
            got.found == Some(todo[p]) && got.read == todo[..p + 1] && |got.receipts| == |rs|
            && got.receipts[todo[p]].(content := Unset) == rs[todo[p]].(content := Unset)
    decreases |todo|
  {
    if p > 0 {
      var next := ReadOne(sc, rs, todo[0]);
      ReadsToMatch(sc, next, todo[1..], want, p - 1);
      assert todo[..p + 1] == [todo[0]] + todo[1..][..p];
    }
  }

  lemma {:induction false} LeftRepeats(sc: Schema, st: Store, r: Receipt, id: string, rows: seq<Json>)
    requires ReceiptOk(sc, r, st.stored) && Bounded(rows)
    requires Left(r.(content := Unset), id, |rows|)
    ensures RowsRepeat(sc, r, rows)
  {
    AllOfThem(r.items, |rows|);
  }

  /** The k-th receipt is the newest of the three newest left ones whose evidence rebuilds to this content. */
  ghost predicate NewestMatch(sc: Schema, rs: seq<Receipt>, id: string, n: nat, want: Digest, k: nat) {
    k < |rs| && Left(rs[k], id, n) && NewerLeft(rs, id, n, k) < 3 && RebuiltContent(sc, rs[k]) == Some(want)
    && forall j :: k < j < |rs| && Left(rs[j], id, n) ==> RebuiltContent(sc, rs[j]) != Some(want)
  }

  lemma {:induction false} NewestMatchIsRead(sc: Schema, rs: seq<Receipt>, id: string, n: nat, want: Digest, k: nat)
    requires NewestMatch(sc, rs, id, n, want, k)
    ensures var got := ReadCandidates(sc, rs, ToRead(rs, id, n), want);
            got.found == Some(k) && |got.receipts| == |rs|
            && got.receipts[k].(content := Unset) == rs[k].(content := Unset)
  {
    var p, todo := NewerLeft(rs, id, n, k), ToRead(rs, id, n);
    LeftIsListed(rs, id, n, k);
    assert todo[p] == k;
    forall q | 0 <= q < p ensures RebuiltContent(sc, rs[todo[q]]) != Some(want) {
      assert Candidates(rs, id, n)[q] > Candidates(rs, id, n)[p];
    }
    ReadsToMatch(sc, rs, todo, want, p);
  }

  /** Reading a left receipt finds its rows repeated: it stored none. */
  lemma {:induction false} MatchRepeats(sc: Schema, st: Store, id: string, rows: seq<Json>, want: Digest, k: nat)
    requires StoreOk(sc, st) && Bounded(rows) && NewestMatch(sc, st.receipts, id, |rows|, want, k)
    ensures var got := ReadCandidates(sc, st.receipts, ToRead(st.receipts, id, |rows|), want);
            got.found == Some(k) && |got.receipts| == |st.receipts| && RowsRepeat(sc, got.receipts[k], rows)
  {
    NewestMatchIsRead(sc, st.receipts, id, |rows|, want, k);
    ReadCandidatesOk(sc, st, ToRead(st.receipts, id, |rows|), id, |rows|, want);
    var got := ReadCandidates(sc, st.receipts, ToRead(st.receipts, id, |rows|), want);
    assert ReceiptOk(sc, st.(receipts := got.receipts).receipts[k], st.stored);
    LeftRepeats(sc, st, got.receipts[k], id, rows);
  }

  /** A repeat of rows only pre-digest receipts hold is answered from the newest of their three newest that matches. */
  lemma {:induction false} PreDigestRowsAreReplayed(sc: Schema, st: Store, m: map<string, Json>, k: nat)
    requires StoreOk(sc, st) && Recaptured(sc, st.receipts, m)
    requires forall r :: r in st.receipts ==> !SameCapture(sc, r, m)
    requires var id, rows := Get(m, "batch_id").s, Get(m, "events").items;
             NewestMatch(sc, st.receipts, id, |rows|, ContentDigest(sc, rows), k)
    ensures var s := Settle(sc, st, m);
            s.kind == CaptureReplay && s.receipt == k && s.store.stored == st.stored
            && |s.store.receipts| == |st.receipts|
  {
    var id, rows := Get(m, "batch_id").s, Get(m, "events").items;
    var want := ContentDigest(sc, rows);
    OwnedIsFound(sc, st.receipts, m);
    RecapturedMayReplay(sc, st.receipts, m);
    assert Prior(st.receipts, id, want).None? by {
      NoSameCapture(sc, st.receipts, m);
    }
    MatchRepeats(sc, st, id, rows, want, k);
  }

  lemma {:induction false} NoSameCapture(sc: Schema, rs: seq<Receipt>, m: map<string, Json>)
    requires WellNamed(m) && ListsSome(m) && forall r :: r in rs ==> !SameCapture(sc, r, m)
    ensures Prior(rs, Get(m, "batch_id").s, ContentDigest(sc, Get(m, "events").items)).None?
  {
    var id, want := Get(m, "batch_id").s, ContentDigest(sc, Get(m, "events").items);
    forall j | 0 <= j < |rs| ensures rs[j].batch != id || rs[j].content != Marked(want) {
      assert !SameCapture(sc, rs[j], m);
    }
    NoFirst(rs, id, want, true);
    NoFirst(rs, id, want, false);
  }

  // ------------------------------------------------------------------ over runs

  /** After any run, a sound batch's valid rows are stored, and stay stored and accepted or duplicate. */
  lemma SoundBatchStaysStored(sc: Schema, l: Ledger, step: Step, between: seq<Step>, i: nat)
    requires Reached(sc, l) && !step.OthersStore?
    requires SoundBatch(sc, l.store.receipts, step.payload) && !Owned(sc, l.store.receipts, step.payload)
    requires i < |Get(step.payload, "events").items| && sc.parse(Get(step.payload, "events").items[i]).Some?
    ensures var later, k := Run(sc, Apply(sc, l, step), between).store, |l.store.receipts|;
            var uid := sc.parse(Get(step.payload, "events").items[i]).value;
            uid in later.stored && k < |later.receipts| && i in later.receipts[k].items
            && later.receipts[k].items[i].uid == Some(uid) && later.receipts[k].items[i].disposition != Quarantined
  {
    var k, s := |l.store.receipts|, Settlement(sc, l.store, step);
    SoundBatchIsStored(sc, l.store, step);
    ReachedIsOk(sc, l);
    StepKeeps(sc, l, step);
    RunKeeps(sc, Apply(sc, l, step), between);
    var later := Run(sc, Apply(sc, l, step), between).store;
    assert Frozen(s.store.receipts[k], later.receipts[k]);
    assert RowSettled(sc, Get(step.payload, "events").items, i, l.store.stored, s.store.receipts[k].items[i]);
  }
}
