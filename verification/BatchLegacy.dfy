/**
 Runs that reach receipts written before content digests: they are read back from their own evidence, and a batch that
 repeats one of them up to its capture times settles to it.
 */
module BatchLegacy {
  import opened Options
  import opened BatchContent
  import opened BatchRows
  import opened BatchSettlement
  import opened BatchTheorems
  import opened BatchRuns

  function Punch(n: int, at: string): Json {
    Obj(map["n" := Num(n), CAPTURED_AT := Str(at)])
  }

  function Payload(n: int, at: string): map<string, Json> {
    map["batch_id" := Str("b"), "events" := List([Punch(n, at)])]
  }

  function DigestOf(n: int, at: string): Digest {
    Sha(List([Punch(n, at)]))
  }

  lemma PayloadIs(sc: Schema, n: int, at: string)
    ensures EventsOf(Payload(n, at)) == List([Punch(n, at)]) && HasBoundedRows(Payload(n, at))
    ensures BatchId(sc, Payload(n, at)) == "b" && ValidId(Get(Payload(n, at), "batch_id"))
    ensures Reported(Payload(n, at)) == Null && Sha(Material(Payload(n, at))) == DigestOf(n, at)
  {
  }

  lemma OtherNumberDiffers(sc: Schema, n: int, m: int, at: string)
    requires n != m
    ensures DigestOf(n, at) != DigestOf(m, at)
    ensures ContentDigest(sc, [Punch(n, at)]) != ContentDigest(sc, [Punch(m, at)])
  {
    assert Punch(n, at).fields["n"] == Num(n) && Punch(m, at).fields["n"] == Num(m);
    assert List([Punch(n, at)]).items[0] == Punch(n, at) && List([Punch(m, at)]).items[0] == Punch(m, at);
    assert [Punch(n, at)][0] == Punch(n, at) && [Punch(m, at)][0] == Punch(m, at);
    ContentDigestsAgree(sc, [Punch(n, at)], [Punch(m, at)]);
  }

  lemma OtherTimeAgrees(sc: Schema, n: int, a: string, b: string)
    requires a != b && sc.wellFormed(a) && sc.wellFormed(b)
    ensures DigestOf(n, a) != DigestOf(n, b)
    ensures ContentDigest(sc, [Punch(n, a)]) == ContentDigest(sc, [Punch(n, b)])
  {
    assert Punch(n, a).fields[CAPTURED_AT] == Str(a) && Punch(n, b).fields[CAPTURED_AT] == Str(b);
    assert List([Punch(n, a)]).items[0] == Punch(n, a) && List([Punch(n, b)]).items[0] == Punch(n, b);
    assert SameButCapture(sc, Punch(n, a), Punch(n, b));
    ContentDigestsAgree(sc, [Punch(n, a)], [Punch(n, b)]);
  }

  /** A receipt the earlier version left for one punch of batch "b". */
  predicate LeftFor(r: Receipt, n: int, at: string) {
    r.batch == "b" && r.digest == DigestOf(n, at) && r.reported == Null && r.content.Unset?
  }

  lemma NoExact(rs: seq<Receipt>, digest: Digest)
    requires forall k :: 0 <= k < |rs| ==> rs[k].digest != digest
    ensures FindExact(rs, "b", digest, Null).None?
  {
  }

  /** The earlier version answers a new digest with an unmarked receipt; under a used id every row is quarantined. */
  lemma {:induction false} LeavesReceipt(sc: Schema, st: Store, n: int, at: string)
    requires forall k :: 0 <= k < |st.receipts| ==>
               st.receipts[k].batch == "b" && st.receipts[k].digest != DigestOf(n, at)
    ensures var s := SettleUnmarked(sc, st, Payload(n, at));
            && s.read == [] && s.receipt == |st.receipts|
            && |s.store.receipts| == |st.receipts| + 1 && s.store.receipts[..|st.receipts|] == st.receipts
            && LeftFor(s.store.receipts[|st.receipts|], n, at)
            && (st.receipts != [] ==> Candidate(s.store.receipts[|st.receipts|], "b", 1))
  {
    var m := Payload(n, at);
    PayloadIs(sc, n, at);
    NoExact(st.receipts, DigestOf(n, at));
    if st.receipts != [] {
      assert st.receipts[0] in st.receipts;
      assert BatchError(st.receipts, sc, m);
      QuarantinesOne(sc, st, m);
    }
  }

  lemma {:induction false} QuarantinesOne(sc: Schema, st: Store, m: map<string, Json>)
    requires HasBoundedRows(m) && |EventsOf(m).items| == 1 && BatchError(st.receipts, sc, m)
    ensures var r := NewReceipt(sc, st, m); r.count == r.quarantined == 1 && r.accepted == r.duplicates == 0
  {
    var items := NewItems(sc, st, m);
    assert items[0].disposition == Quarantined;
    assert CountOf(items, 0, Quarantined) == 0 && CountOf(items, 0, Accepted) == 0 && CountOf(items, 0, Duplicate) == 0;
  }

  lemma {:induction false} AppendStep(sc: Schema, l: Ledger, steps: seq<Step>, step: Step)
    ensures Run(sc, l, steps + [step]) == Apply(sc, Run(sc, l, steps), step)
    decreases |steps|
  {
    if steps == [] {
      assert (steps + [step])[1..] == [];
      assert Run(sc, Apply(sc, l, step), []) == Apply(sc, l, step);
    } else {
      assert (steps + [step])[1..] == steps[1..] + [step];
      AppendStep(sc, Apply(sc, l, steps[0]), steps[1..], step);
    }
  }

  lemma ReachedNext(sc: Schema, l: Ledger, step: Step)
    requires Reached(sc, l)
    ensures Reached(sc, Apply(sc, l, step))
  {
    var stored, steps :| Run(sc, EmptyLedger(stored), steps) == l;
    AppendStep(sc, EmptyLedger(stored), steps, step);
  }

  /** The earlier version settled n different punches under one id: all but the first are quarantined conflicts. */
  ghost predicate Left(sc: Schema, st: Store, at: string, n: nat) {
    |st.receipts| == n
    && forall k :: 0 <= k < n ==>
         LeftFor(st.receipts[k], k + 1, at) && (k > 0 ==> Candidate(st.receipts[k], "b", 1))
  }

  lemma {:induction false} NextIsNew(sc: Schema, st: Store, at: string, n: nat)
    requires Left(sc, st, at, n)
    ensures forall k :: 0 <= k < n ==> st.receipts[k].batch == "b" && st.receipts[k].digest != DigestOf(n + 1, at)
  {
    forall k | 0 <= k < n ensures st.receipts[k].digest != DigestOf(n + 1, at) {
      OtherNumberDiffers(sc, k + 1, n + 1, at);
    }
  }

  lemma {:induction false} LeavesOneMore(sc: Schema, st: Store, at: string, n: nat)
    requires Left(sc, st, at, n)
    ensures Left(sc, SettleUnmarked(sc, st, Payload(n + 1, at)).store, at, n + 1)
    ensures SettleUnmarked(sc, st, Payload(n + 1, at)).read == []
  {
    NextIsNew(sc, st, at, n);
    LeavesReceipt(sc, st, n + 1, at);
    var next := SettleUnmarked(sc, st, Payload(n + 1, at)).store;
    forall k | 0 <= k < n ensures next.receipts[k] == st.receipts[k] {
      assert next.receipts[..n][k] == st.receipts[k];
    }
  }

  lemma {:induction false} LeavesMany(sc: Schema, at: string, n: nat) returns (l: Ledger)
    ensures Reached(sc, l) && l.read == [] && Left(sc, l.store, at, n)
  {
    if n == 0 {
      l := EmptyLedger({});
      assert Run(sc, l, []) == l;
    } else {
      var before := LeavesMany(sc, at, n - 1);
      LeavesOneMore(sc, before.store, at, n - 1);
      ReachedNext(sc, before, SettlesUnmarked(Payload(n, at)));
      l := Apply(sc, before, SettlesUnmarked(Payload(n, at)));
    }
  }

  /** An unmarked quarantined receipt is rebuilt to its own punch. */
  lemma RebuildsOwn(sc: Schema, st: Store, k: nat, n: int, at: string)
    requires StoreOk(sc, st) && k < |st.receipts| && LeftFor(st.receipts[k], n, at) && Candidate(st.receipts[k], "b", 1)
    ensures RebuiltContent(sc, st.receipts[k]) == Some(ContentDigest(sc, [Punch(n, at)]))
  {
    var r := st.receipts[k];
    assert ReceiptOk(sc, r, st.stored) && r.digest.content.items == [Punch(n, at)];
    RebuiltIsOriginal(sc, r, st.stored);
    assert "n" in Punch(n, at).fields && Punch(n, at).fields.Keys != {"value"};
    assert forall i :: 0 <= i < r.count ==> Rebuildable(r.digest.content.items[i]);
  }

  lemma NothingMarked(rs: seq<Receipt>, id: string, content: Digest)
    requires forall k :: 0 <= k < |rs| ==> rs[k].content.Unset?
    ensures Prior(rs, id, content).None?
  {
  }

  /** The newest two candidates are looked at first. */
  lemma {:induction false} NewestFirst(rs: seq<Receipt>)
    requires |rs| == 3 && Candidate(rs[1], "b", 1) && Candidate(rs[2], "b", 1)
    ensures var todo := ToRead(rs, "b", 1); |todo| >= 2 && todo[0] == 2 && todo[1] == 1
  {
    assert rs[..2][1] == rs[1];
    assert Candidates(rs[..2], "b", 1) == [1] + Candidates(rs[..2][..1], "b", 1);
    assert Candidates(rs, "b", 1) == [2] + Candidates(rs[..2], "b", 1);
  }

  lemma {:induction false} ReadsSecond(sc: Schema, rs: seq<Receipt>, todo: seq<nat>, want: Digest)
    requires |todo| >= 2 && forall i :: 0 <= i < |todo| ==> todo[i] < |rs|
    requires RebuiltContent(sc, rs[todo[0]]) != Some(want)
    ensures |ReadCandidates(sc, rs, todo, want).read| >= 2
  {
    var next := ReadOne(sc, rs, todo[0]);
    var rest := ReadCandidates(sc, next, todo[1..], want);
    assert rest.read != [];
  }

  /** A new digest under an id with only unmarked receipts is compared with them. */
  lemma {:induction false} ComparesWithLeft(sc: Schema, st: Store, n: int, at: string)
    requires Left(sc, st, "a", 3) && forall k :: 0 <= k < 3 ==> st.receipts[k].digest != DigestOf(n, at)
    ensures var got := ReadCandidates(sc, st.receipts, ToRead(st.receipts, "b", 1), ContentDigest(sc, [Punch(n, at)]));
            Settle(sc, st, Payload(n, at)).read == got.read
            && (got.found.Some? && got.found.value < |got.receipts|
                && RowsRepeat(sc, got.receipts[got.found.value], [Punch(n, at)]) ==>
                  Settle(sc, st, Payload(n, at)).kind == CaptureReplay
                  && Settle(sc, st, Payload(n, at)).receipt == got.found.value)
  {
    PayloadIs(sc, n, at);
    NoExact(st.receipts, DigestOf(n, at));
    assert st.receipts[0] in st.receipts;
    NothingMarked(st.receipts, "b", ContentDigest(sc, [Punch(n, at)]));
  }

  lemma {:induction false} ReadsTwo(sc: Schema, st: Store)
    requires StoreOk(sc, st) && Left(sc, st, "a", 3)
    ensures |Settle(sc, st, Payload(4, "a")).read| >= 2
  {
    NextIsNew(sc, st, "a", 3);
    OtherNumberDiffers(sc, 3, 4, "a");
    NewestFirst(st.receipts);
    RebuildsOwn(sc, st, 2, 3, "a");
    ReadsSecond(sc, st.receipts, ToRead(st.receipts, "b", 1), ContentDigest(sc, [Punch(4, "a")]));
    ComparesWithLeft(sc, st, 4, "a");
  }

  /** Some ledger of either version's runs has decrypted two receipts. */
  lemma {:induction false} SomeLedgerReadsTwo(sc: Schema)
    ensures exists l :: Reached(sc, l) && |l.read| >= 2
  {
    var l := LeavesMany(sc, "a", 3);
    ReachedIsOk(sc, l);
    ReadsTwo(sc, l.store);
    ReachedNext(sc, l, Settles(Payload(4, "a")));
    assert Apply(sc, l, Settles(Payload(4, "a"))).read == Settle(sc, l.store, Payload(4, "a")).read;
  }

  lemma SameContentOtherDigest(sc: Schema)
    requires sc.wellFormed("a") && sc.wellFormed("b")
    ensures ContentDigest(sc, [Punch(3, "a")]) == ContentDigest(sc, [Punch(3, "b")])
    ensures forall n :: DigestOf(n, "a") != DigestOf(3, "b")
  {
    OtherTimeAgrees(sc, 3, "a", "b");
    forall n ensures DigestOf(n, "a") != DigestOf(3, "b") {
      assert Punch(n, "a").fields[CAPTURED_AT] == Str("a") && Punch(3, "b").fields[CAPTURED_AT] == Str("b");
      assert List([Punch(n, "a")]).items[0] == Punch(n, "a") && List([Punch(3, "b")]).items[0] == Punch(3, "b");
    }
  }

  lemma {:induction false} QuarantinedRepeats(sc: Schema, st: Store, k: nat, rows: seq<Json>)
    requires StoreOk(sc, st) && k < |st.receipts| && Candidate(st.receipts[k], "b", 1) && |rows| == 1
    ensures RowsRepeat(sc, ReadOne(sc, st.receipts, k)[k], rows)
  {
    var r := st.receipts[k];
    assert ReceiptOk(sc, r, st.stored);
    CandidateListsRows(sc, r, st.stored, "b", 1);
    AllOfThem(r.items, 1);
  }

  /** Some reached ledger settles a batch to an unmarked receipt, by rebuilding that receipt's content. */
  lemma {:induction false} SomeLedgerReplaysUnmarked(sc: Schema)
    requires sc.wellFormed("a") && sc.wellFormed("b")
    ensures exists l, m ::
      && Reached(sc, l) && Settle(sc, l.store, m).kind == CaptureReplay
      && Settle(sc, l.store, m).receipt < |l.store.receipts|
      && l.store.receipts[Settle(sc, l.store, m).receipt].content.Unset?
  {
    var l := LeavesMany(sc, "a", 3);
    ReachedIsOk(sc, l);
    SameContentOtherDigest(sc);
    NewestFirst(l.store.receipts);
    RebuildsOwn(sc, l.store, 2, 3, "a");
    QuarantinedRepeats(sc, l.store, 2, [Punch(3, "b")]);
    ComparesWithLeft(sc, l.store, 3, "b");
    var rs := l.store.receipts;
    var got := ReadCandidates(sc, rs, ToRead(rs, "b", 1), ContentDigest(sc, [Punch(3, "b")]));
    assert got.found == Some(2) && got.receipts == ReadOne(sc, rs, 2);
    assert Settle(sc, l.store, Payload(3, "b")).kind == CaptureReplay;
  }
}
