/**
 Whole runs of settlements from an empty store, by this version and by the one before content digests in any order,
 so that any receipts the earlier version left may be there.
 */
module BatchRuns {
  import opened Options
  import opened BatchContent
  import opened BatchRows
  import opened BatchSettlement
  import opened BatchTheorems

  /** An acknowledged event list and the receipt it settled to. */
  datatype Ack = Ack(rows: seq<Json>, receipt: nat)

  /** `read` lists every decryption of a pre-digest receipt. */
  datatype Ledger = Ledger(store: Store, acked: seq<Ack>, read: seq<nat>)

  /** A payload of this connector settles, now or before content digests, or another connector's punches are stored. */
  datatype Step =
    | Settles(payload: map<string, Json>) | SettlesUnmarked(payload: map<string, Json>) | OthersStore(uids: set<string>)

  /** How the step's version settles its payload. */
  function Settlement(sc: Schema, st: Store, step: Step): Settled
    requires !step.OthersStore?
  {
    if step.Settles? then Settle(sc, st, step.payload) else SettleUnmarked(sc, st, step.payload)
  }

  function Acknowledge(l: Ledger, m: map<string, Json>, s: Settled): Ledger {
    var acked := if EventsOf(m).List? then l.acked + [Ack(EventsOf(m).items, s.receipt)] else l.acked;
    Ledger(s.store, acked, l.read + s.read)
  }

  function Apply(sc: Schema, l: Ledger, step: Step): Ledger {
    match step
    case OthersStore(uids) => l.(store := l.store.(stored := l.store.stored + uids))
    case _ => Acknowledge(l, step.payload, Settlement(sc, l.store, step))
  }

  function Run(sc: Schema, l: Ledger, steps: seq<Step>): Ledger
    decreases |steps|
  {
    if steps == [] then l else Run(sc, Apply(sc, l, steps[0]), steps[1..])
  }

  /** The receipt answers for the rows: its own, or the same up to well-formed capture times. */
  ghost predicate Answers(sc: Schema, r: Receipt, rows: seq<Json>) {
    && r.digest.content.List?
    && (r.digest.content.items == rows
        || (Bounded(rows) && ContentDigest(sc, rows) == ContentDigest(sc, r.digest.content.items)
            && RowsRepeat(sc, r, rows)))
  }

  ghost predicate LedgerOk(sc: Schema, l: Ledger) {
    && StoreOk(sc, l.store)
    && (forall i :: 0 <= i < |l.acked| ==>
          l.acked[i].receipt < |l.store.receipts| && Answers(sc, l.store.receipts[l.acked[i].receipt], l.acked[i].rows))
    && (forall i :: 0 <= i < |l.read| ==> l.read[i] < |l.store.receipts| && !l.store.receipts[l.read[i]].content.Unset?)
    && (forall i, j :: 0 <= i < j < |l.read| ==> l.read[i] != l.read[j])
  }

  lemma AnswersStay(sc: Schema, a: Receipt, b: Receipt, rows: seq<Json>)
    requires Frozen(a, b) && Answers(sc, a, rows)
    ensures Answers(sc, b, rows)
  {
    assert a.digest == b.digest && a.items == b.items;
  }

  /** What one settlement leaves behind. */
  ghost predicate SettledOk(sc: Schema, st: Store, m: map<string, Json>, s: Settled) {
    && StoreOk(sc, s.store) && Grows(st, s.store)
    && s.receipt < |s.store.receipts|
    && (EventsOf(m).List? ==> Answers(sc, s.store.receipts[s.receipt], EventsOf(m).items))
    && (forall i :: 0 <= i < |s.read| ==>
          s.read[i] < |st.receipts| && st.receipts[s.read[i]].content.Unset?
              && !s.store.receipts[s.read[i]].content.Unset?)
    && (forall i, j :: 0 <= i < j < |s.read| ==> s.read[i] != s.read[j])
  }

  lemma RetrySettles(sc: Schema, st: Store, m: map<string, Json>)
    requires StoreOk(sc, st) && FindExact(st.receipts, BatchId(sc, m), Sha(Material(m)), Reported(m)).Some?
    ensures SettledOk(sc, st, m, Settle(sc, st, m))
  {
    var k := FindExact(st.receipts, BatchId(sc, m), Sha(Material(m)), Reported(m)).value;
    var r := st.receipts[k];
    if Retried(sc, r, m) != r {
      MarkingKeeps(sc, st, k, ContentMark(sc, m));
    } else {
      assert st.receipts[k := r] == st.receipts;
    }
  }

  lemma FindsNothing(rs: seq<Receipt>, next: seq<Receipt>, id: string, digest: Digest, reported: Json)
    requires |rs| == |next| && forall k :: 0 <= k < |rs| ==> Frozen(rs[k], next[k])
    requires FindExact(rs, id, digest, reported).None?
    ensures FindExact(next, id, digest, reported).None?
  {
    var at := FindExact(next, id, digest, reported);
    if at.Some? {
      assert Frozen(rs[at.value], next[at.value]);
      assert IsExact(rs[at.value], id, digest, reported);
    }
  }

  lemma ReplaySettles(sc: Schema, st: Store, m: map<string, Json>)
    requires StoreOk(sc, st) && FindExact(st.receipts, BatchId(sc, m), Sha(Material(m)), Reported(m)).None?
    requires MayReplay(st.receipts, sc, m)
    ensures SettledOk(sc, st, m, Settle(sc, st, m))
  {
    var rows := EventsOf(m).items;
    var want := ContentDigest(sc, rows);
    var got := Replayed(sc, st.receipts, BatchId(sc, m), want, |rows|);
    var next := st.(receipts := got.receipts);
    ReplayedOk(sc, st, BatchId(sc, m), want, |rows|);
    if got.found.Some? && RowsRepeat(sc, got.receipts[got.found.value], rows) {
      assert ReceiptOk(sc, next.receipts[got.found.value], next.stored);
    } else {
      FindsNothing(st.receipts, got.receipts, BatchId(sc, m), Sha(Material(m)), Reported(m));
      NewKeeps(sc, next, m, got.read);
      GrowsThrough(st, next, WithNew(sc, next, m, got.read).store);
    }
  }

  lemma SettlementIsSound(sc: Schema, st: Store, m: map<string, Json>)
    requires StoreOk(sc, st)
    ensures SettledOk(sc, st, m, Settle(sc, st, m))
  {
    if FindExact(st.receipts, BatchId(sc, m), Sha(Material(m)), Reported(m)).Some? {
      RetrySettles(sc, st, m);
    } else if MayReplay(st.receipts, sc, m) {
      ReplaySettles(sc, st, m);
    } else {
      NewKeeps(sc, st, m, []);
    }
  }

  lemma UnmarkedIsSound(sc: Schema, st: Store, m: map<string, Json>)
    requires StoreOk(sc, st)
    ensures SettledOk(sc, st, m, SettleUnmarked(sc, st, m))
  {
    if FindExact(st.receipts, BatchId(sc, m), Sha(Material(m)), Reported(m)).None? {
      NewUnmarkedKeeps(sc, st, m);
    }
  }

  /** Acknowledging a sound settlement keeps the ledger. */
  lemma {:induction false} AcknowledgeKeeps(sc: Schema, l: Ledger, m: map<string, Json>, s: Settled)
    requires LedgerOk(sc, l) && SettledOk(sc, l.store, m, s)
    ensures LedgerOk(sc, Acknowledge(l, m, s))
  {
    forall i | 0 <= i < |l.acked|
      ensures l.acked[i].receipt < |s.store.receipts|
              && Answers(sc, s.store.receipts[l.acked[i].receipt], l.acked[i].rows)
    {
      AnswersStay(sc, l.store.receipts[l.acked[i].receipt], s.store.receipts[l.acked[i].receipt], l.acked[i].rows);
    }
    forall i | 0 <= i < |l.read|
      ensures l.read[i] < |s.store.receipts| && !s.store.receipts[l.read[i]].content.Unset?
    {
      assert Frozen(l.store.receipts[l.read[i]], s.store.receipts[l.read[i]]);
    }
  }

  lemma SettlementOfStep(sc: Schema, st: Store, step: Step)
    requires StoreOk(sc, st) && !step.OthersStore?
    ensures SettledOk(sc, st, step.payload, Settlement(sc, st, step))
  {
    if step.Settles? {
      SettlementIsSound(sc, st, step.payload);
    } else {
      UnmarkedIsSound(sc, st, step.payload);
    }
  }

  lemma StepKeeps(sc: Schema, l: Ledger, step: Step)
    requires LedgerOk(sc, l)
    ensures LedgerOk(sc, Apply(sc, l, step)) && Grows(l.store, Apply(sc, l, step).store)
  {
    if step.OthersStore? {
      OldReceiptsStay(sc, l.store, l.store.stored + step.uids);
    } else {
      SettlementOfStep(sc, l.store, step);
      AcknowledgeKeeps(sc, l, step.payload, Settlement(sc, l.store, step));
    }
  }

  lemma {:induction false} RunKeeps(sc: Schema, l: Ledger, steps: seq<Step>)
    requires LedgerOk(sc, l)
    ensures LedgerOk(sc, Run(sc, l, steps)) && Grows(l.store, Run(sc, l, steps).store)
    decreases |steps|
  {
    if steps != [] {
      var next := Apply(sc, l, steps[0]);
      StepKeeps(sc, l, steps[0]);
      RunKeeps(sc, next, steps[1..]);
      GrowsThrough(l.store, next.store, Run(sc, next, steps[1..]).store);
    }
  }

  /** A connector with no receipt yet, whatever other connectors stored. */
  function EmptyLedger(stored: set<string>): Ledger {
    Ledger(Store([], stored), [], [])
  }

  /** Some run, by either version, leads from an empty ledger to `l`. */
  ghost predicate Reached(sc: Schema, l: Ledger) {
    exists stored, steps :: Run(sc, EmptyLedger(stored), steps) == l
  }

  lemma EmptyLedgerIsOk(sc: Schema, stored: set<string>)
    ensures LedgerOk(sc, EmptyLedger(stored))
  {
  }

  lemma ReachedIsOk(sc: Schema, l: Ledger)
    requires Reached(sc, l)
    ensures LedgerOk(sc, l)
  {
    var stored, steps :| Run(sc, EmptyLedger(stored), steps) == l;
    EmptyLedgerIsOk(sc, stored);
    RunKeeps(sc, EmptyLedger(stored), steps);
  }

  // ---- The main results ----

  /** The item stores the row's event, or encrypted evidence of it up to a well-formed capture time. */
  ghost predicate Holds(sc: Schema, it: Item, row: Json, stored: set<string>) {
    if it.disposition != Quarantined then sc.parse(row).Some? && it.uid == sc.parse(row) && it.uid.value in stored
    else
      it.evidence.Some? && it.evidence.value.Obj?
      && ((exists original :: SameButCapture(sc, original, row) && KeepsRow(it.evidence.value, original))
          || HoldsBatchWith(it.evidence.value, row))
  }

  predicate HoldsBatchWith(evidence: Json, row: Json)
    requires evidence.Obj?
  {
    var batch := Get(evidence.fields, "batch");
    batch.Obj? && EventsOf(batch.fields).List? && row in EventsOf(batch.fields).items
  }

  ghost predicate Durable(sc: Schema, st: Store, row: Json) {
    exists k: nat, i: int :: k < |st.receipts| && i in st.receipts[k].items
        && Holds(sc, st.receipts[k].items[i], row, st.stored)
  }

  lemma AnsweredRowHeld(sc: Schema, r: Receipt, stored: set<string>, rows: seq<Json>, i: nat)
    requires ReceiptOk(sc, r, stored) && ListsRows(r) && Answers(sc, r, rows) && i < |rows|
    ensures i in r.items && Holds(sc, r.items[i], rows[i], stored)
  {
    var own := r.digest.content.items;
    ContentDigestsAgree(sc, rows, own);
    assert ItemOk(sc, r.items[i], own[i], stored);
    ContentRowForgetsOnlyCapture(sc, own[i], rows[i]);
    ContentRowForgetsOnlyCapture(sc, rows[i], own[i]);
  }

  lemma AnsweredWholeHeld(sc: Schema, r: Receipt, stored: set<string>, rows: seq<Json>, i: nat)
    requires ReceiptOk(sc, r, stored) && !ListsRows(r) && Answers(sc, r, rows) && i < |rows|
    ensures -1 in r.items && Holds(sc, r.items[-1], rows[i], stored)
  {
    ContentDigestsAgree(sc, rows, r.digest.content.items);
    assert r.digest.content == List(rows);
  }

  /** After any run, every row of every acknowledged event list is stored or preserved. */
  lemma NoPunchLost(sc: Schema, l: Ledger, n: nat, i: nat)
    requires Reached(sc, l) && n < |l.acked| && i < |l.acked[n].rows|
    ensures Durable(sc, l.store, l.acked[n].rows[i])
  {
    ReachedIsOk(sc, l);
    var a := l.acked[n];
    var r := l.store.receipts[a.receipt];
    assert ReceiptOk(sc, r, l.store.stored);
    if ListsRows(r) {
      AnsweredRowHeld(sc, r, l.store.stored, a.rows, i);
    } else {
      AnsweredWholeHeld(sc, r, l.store.stored, a.rows, i);
    }
  }

  /** An object row without the annotation's key is recovered from its evidence, up to a well-formed capture time. */
  lemma EvidenceRecoversRow(sc: Schema, evidence: Json, original: Json, row: Json)
    requires row.Obj? && BATCH_CONTEXT !in row.fields
    requires SameButCapture(sc, original, row) && KeepsRow(evidence, original)
    ensures Obj(Stripped(evidence)) == original && SameButCapture(sc, Obj(Stripped(evidence)), row)
  {
    assert BATCH_CONTEXT !in original.fields;
    assert Stripped(Obj(original.fields)) == original.fields;
  }

  lemma FirstDigest(rs: seq<Receipt>, first: nat, k: nat)
    requires FirstWins(rs) && first <= k < |rs| && rs[first].batch == rs[k].batch
             && rs[k].accepted + rs[k].duplicates > 0
    ensures rs[k].digest == rs[first].digest
  {
  }

  /** Receipts of one batch id that stored a row all carry the digest of the first receipt under the id. */
  lemma OneDigestPerBatch(sc: Schema, l: Ledger, first: nat, k: nat)
    requires Reached(sc, l) && first <= k < |l.store.receipts|
    requires l.store.receipts[first].batch == l.store.receipts[k].batch
    requires l.store.receipts[k].accepted + l.store.receipts[k].duplicates > 0
    ensures l.store.receipts[k].digest == l.store.receipts[first].digest
  {
    ReachedIsOk(sc, l);
    FirstDigest(l.store.receipts, first, k);
  }

  /** The answer sent back for a receipt. */
  datatype Response = Response(batch: string, digest: Digest, items: map<int, Item>, accepted: nat, duplicates: nat,
        quarantined: nat)

  function ResponseOf(r: Receipt): Response {
    Response(r.batch, r.digest, r.items, r.accepted, r.duplicates, r.quarantined)
  }

  /**
   Whatever happens in between, repeating a payload that has its own receipt, from either version, adds nothing and
   answers the same.
   */
  lemma RetryAnswersTheSame(sc: Schema, l: Ledger, step: Step, between: seq<Step>)
    requires Reached(sc, l) && !step.OthersStore? && Settlement(sc, l.store, step).kind != CaptureReplay
    ensures var first := Settlement(sc, l.store, step);
            var later := Run(sc, Apply(sc, l, step), between).store;
            var again := Settle(sc, later, step.payload);
            && again.kind == ExactRetry && again.receipt == first.receipt
            && |again.store.receipts| == |later.receipts| && again.store.stored == later.stored && again.read == []
            && (forall k :: 0 <= k < |later.receipts| ==>
                ResponseOf(again.store.receipts[k]) == ResponseOf(later.receipts[k]))
            && ResponseOf(again.store.receipts[again.receipt]) == ResponseOf(first.store.receipts[first.receipt])
  {
    ReachedIsOk(sc, l);
    var first, mid := Settlement(sc, l.store, step), Apply(sc, l, step);
    var later := Run(sc, mid, between).store;
    StepKeeps(sc, l, step);
    SettlementOfStep(sc, l.store, step);
    RunKeeps(sc, mid, between);
    OwnReceipt(sc, l.store, step);
    assert Frozen(first.store.receipts[first.receipt], later.receipts[first.receipt]);
    RetryOf(sc, later, step.payload, first.receipt, first.store.receipts[first.receipt]);
  }

  /** A payload that did not replay another's settlement settles to a receipt of its own. */
  lemma OwnReceipt(sc: Schema, st: Store, step: Step)
    requires StoreOk(sc, st) && !step.OthersStore? && Settlement(sc, st, step).kind != CaptureReplay
    ensures var s, m := Settlement(sc, st, step), step.payload;
            s.receipt < |s.store.receipts|
            && IsExact(s.store.receipts[s.receipt], BatchId(sc, m), Sha(Material(m)), Reported(m))
  {
    SettlementOfStep(sc, st, step);
  }

  lemma RetryOf(sc: Schema, later: Store, m: map<string, Json>, k: nat, r: Receipt)
    requires StoreOk(sc, later) && k < |later.receipts| && Frozen(r, later.receipts[k])
    requires IsExact(r, BatchId(sc, m), Sha(Material(m)), Reported(m))
    ensures var again := Settle(sc, later, m);
            && again.kind == ExactRetry && again.receipt == k
            && |again.store.receipts| == |later.receipts| && again.store.stored == later.stored && again.read == []
            && (forall j :: 0 <= j < |later.receipts| ==>
                ResponseOf(again.store.receipts[j]) == ResponseOf(later.receipts[j]))
            && ResponseOf(again.store.receipts[k]) == ResponseOf(r)
  {
    var found := FindExact(later.receipts, BatchId(sc, m), Sha(Material(m)), Reported(m));
    assert IsExact(later.receipts[k], BatchId(sc, m), Sha(Material(m)), Reported(m));
    assert found.Some?;
    ExactIsUnique(later.receipts, BatchId(sc, m), Sha(Material(m)), Reported(m), k, found.value);
  }

  lemma ExactIsUnique(rs: seq<Receipt>, id: string, digest: Digest, reported: Json, i: nat, j: nat)
    requires Distinct(rs) && i < |rs| && j < |rs| && IsExact(rs[i], id, digest, reported)
             && IsExact(rs[j], id, digest, reported)
    ensures i == j
  {
  }

  /** Over any run, no pre-digest receipt is decrypted twice. */
  lemma EvidenceIsReadOnce(sc: Schema, l: Ledger, i: nat, j: nat)
    requires Reached(sc, l) && i < j < |l.read|
    ensures l.read[i] != l.read[j]
  {
    ReachedIsOk(sc, l);
  }
}
