/** One connector's attendance batch receipts, and how each payload is settled against them. */
module BatchSettlement {
  import opened Options
  import opened BatchContent
  import opened BatchRows

  const LEGACY_COMPARE_LIMIT := 3

  /** A receipt's stored content digest: never computed, known impossible, or known. */
  datatype Mark = Unset | Unavailable | Marked(digest: Digest)

  datatype Receipt = Receipt(batch: string, digest: Digest, reported: Json, count: nat, items: map<int, Item>,
                             accepted: nat, duplicates: nat, quarantined: nat, content: Mark)

  /** `stored` are the event UIDs of every connector. Receipts are listed in the order of their ids. */
  datatype Store = Store(receipts: seq<Receipt>, stored: set<string>)

  datatype Kind = New | ExactRetry | CaptureReplay

  /** The receipt a payload settled to, and the receipts whose evidence was decrypted to find it. */
  datatype Settled = Settled(store: Store, receipt: nat, kind: Kind, read: seq<nat>)

  predicate Committed(r: Receipt) {
    r.quarantined == 0
  }

  // ---- Reading a payload ----

  function EventsOf(m: map<string, Json>): Json {
    Get(m, "events")
  }

  predicate HasBoundedRows(m: map<string, Json>) {
    EventsOf(m).List? && Bounded(EventsOf(m).items)
  }

  function Material(m: map<string, Json>): Json {
    if EventsOf(m).List? then EventsOf(m) else Obj(m)
  }

  predicate ValidId(id: Json) {
    id.Str? && 1 <= |id.s| <= 120 && '\0' !in id.s
  }

  function BatchId(sc: Schema, m: map<string, Json>): string {
    if ValidId(Get(m, "batch_id")) then Get(m, "batch_id").s else "invalid-" + Take32(sc.hex(Sha(Material(m))))
  }

  function Take32(s: string): string {
    if |s| <= 32 then s else s[..32]
  }

  function Reported(m: map<string, Json>): Json {
    Get(m, "payload_digest")
  }

  function Context(m: map<string, Json>): Json {
    Obj(map["batch_id" := Get(m, "batch_id"), "payload_digest" := Reported(m)])
  }

  // ---- Finding an earlier receipt ----

  predicate IsExact(r: Receipt, id: string, digest: Digest, reported: Json) {
    r.batch == id && r.digest == digest && r.reported == reported
  }

  function FindExact(rs: seq<Receipt>, id: string, digest: Digest, reported: Json): (at: Option<nat>)
    ensures at.Some? ==> at.value < |rs| && IsExact(rs[at.value], id, digest, reported)
    ensures at.None? ==> forall r :: r in rs ==> !IsExact(r, id, digest, reported)
  {
    if rs == [] then None
    else
      var n := |rs| - 1;
      if IsExact(rs[n], id, digest, reported) then Some(n) else FindExact(rs[..n], id, digest, reported)
  }

  predicate Conflicts(rs: seq<Receipt>, id: string, digest: Digest) {
    exists r :: r in rs && r.batch == id && r.digest != digest
  }

  /** The earliest receipt of the batch with this content; only committed ones if asked. */
  function FirstWith(rs: seq<Receipt>, id: string, content: Digest, committed: bool): (at: Option<nat>)
    ensures at.Some? ==> at.value < |rs| && rs[at.value].batch == id && rs[at.value].content == Marked(content)
  {
    if rs == [] then None
    else
      var n := |rs| - 1;
      var earlier := FirstWith(rs[..n], id, content, committed);
      if earlier.Some? then earlier
      else if rs[n].batch == id && rs[n].content == Marked(content) && (committed ==> Committed(rs[n])) then Some(n)
      else None
  }

  function Prior(rs: seq<Receipt>, id: string, content: Digest): (at: Option<nat>)
    ensures at.Some? ==> at.value < |rs| && rs[at.value].batch == id && rs[at.value].content == Marked(content)
  {
    var committed := FirstWith(rs, id, content, true);
    if committed.Some? then committed else FirstWith(rs, id, content, false)
  }

  predicate Candidate(r: Receipt, id: string, n: nat) {
    r.content.Unset? && r.batch == id && r.accepted == 0 && r.duplicates == 0 && r.quarantined == r.count == n > 0
  }

  /** Pre-digest batch quarantines of this id, newest first. */
  function Candidates(rs: seq<Receipt>, id: string, n: nat): (out: seq<nat>)
    ensures forall i :: 0 <= i < |out| ==> out[i] < |rs| && Candidate(rs[out[i]], id, n)
    ensures forall i, j :: 0 <= i < j < |out| ==> out[i] > out[j]
  {
    if rs == [] then []
    else
      var last := |rs| - 1;
      var rest := Candidates(rs[..last], id, n);
      if Candidate(rs[last], id, n) then [last] + rest else rest
  }

  // ---- Rebuilding a content digest from evidence ----

  predicate AllPreserved(r: Receipt) {
    (forall i :: 0 <= i < r.count ==> i in r.items) && (forall i :: i in r.items ==> 0 <= i < r.count)
    && (forall i :: i in r.items ==>
          r.items[i].disposition == Quarantined && r.items[i].evidence.Some? && r.items[i].evidence.value.Obj?)
  }

  function RebuiltRows(items: map<int, Item>, n: nat): Option<seq<Json>>
    requires forall i :: 0 <= i < n ==> i in items && items[i].evidence.Some? && items[i].evidence.value.Obj?
  {
    if n == 0 then Some([])
    else
      var rest, row := RebuiltRows(items, n - 1), RebuiltRow(items[n - 1].evidence.value, items[n - 1].digest);
      if rest.None? || row.None? then None else Some(rest.value + [row.value])
  }

  function RebuiltContent(sc: Schema, r: Receipt): Option<Digest> {
    if !AllPreserved(r) then None
    else
      var rows := RebuiltRows(r.items, r.count);
      if rows.None? then None else Some(ContentDigest(sc, rows.value))
  }

  /** `_preserved_content_digest`, row by row. */
  method RebuildContent(sc: Schema, r: Receipt) returns (digest: Option<Digest>)
    ensures digest == RebuiltContent(sc, r)
  {
    if !AllPreserved(r) { return None; }
    var events := [];
    for n := 0 to r.count
      invariant RebuiltRows(r.items, n) == Some(events)
    {
      var row := RebuiltRow(r.items[n].evidence.value, r.items[n].digest);
      if row.None? {
        RebuiltFails(r.items, n + 1, r.count);
        return None;
      }
      events := events + [row.value];
    }
    return Some(ContentDigest(sc, events));
  }

  lemma {:induction false} RebuiltFails(items: map<int, Item>, k: nat, n: nat)
    requires k <= n && forall i :: 0 <= i < n ==> i in items && items[i].evidence.Some? && items[i].evidence.value.Obj?
    requires RebuiltRows(items, k).None?
    ensures RebuiltRows(items, n).None?
    decreases n - k
  {
    if k < n {
      RebuiltFails(items, k + 1, n);
    }
  }

  datatype Reading = Reading(receipts: seq<Receipt>, found: Option<nat>, read: seq<nat>)

  function MarkOf(digest: Option<Digest>): Mark {
    if digest.None? then Unavailable else Marked(digest.value)
  }

  function ReadOne(sc: Schema, rs: seq<Receipt>, k: nat): seq<Receipt>
    requires k < |rs|
  {
    rs[k := rs[k].(content := MarkOf(RebuiltContent(sc, rs[k])))]
  }

  /** Each candidate read has its mark stored, until one matches. */
  function ReadCandidates(sc: Schema, rs: seq<Receipt>, todo: seq<nat>, want: Digest): Reading
    requires forall i :: 0 <= i < |todo| ==> todo[i] < |rs|
    decreases |todo|
  {
    if todo == [] then Reading(rs, None, [])
    else
      var k := todo[0];
      var next := ReadOne(sc, rs, k);
      if next[k].content == Marked(want) then Reading(next, Some(k), [k])
      else
        var rest := ReadCandidates(sc, next, todo[1..], want);
        rest.(read := [k] + rest.read)
  }

  function WithRead(read: seq<nat>, rest: Reading): Reading {
    rest.(read := read + rest.read)
  }

  lemma ReadsNext(sc: Schema, rs: seq<Receipt>, todo: seq<nat>, want: Digest, read: seq<nat>)
    requires todo != [] && forall i :: 0 <= i < |todo| ==> todo[i] < |rs|
    ensures var next := ReadOne(sc, rs, todo[0]);
            WithRead(read, ReadCandidates(sc, rs, todo, want)) ==
            if RebuiltContent(sc, rs[todo[0]]) == Some(want) then Reading(next, Some(todo[0]), read + [todo[0]])
            else WithRead(read + [todo[0]], ReadCandidates(sc, next, todo[1..], want))
  {
    var next := ReadOne(sc, rs, todo[0]);
    if RebuiltContent(sc, rs[todo[0]]) != Some(want) {
      var rest := ReadCandidates(sc, next, todo[1..], want);
      assert read + ([todo[0]] + rest.read) == (read + [todo[0]]) + rest.read;
    }
  }

  function ToRead(rs: seq<Receipt>, id: string, n: nat): (out: seq<nat>)
    ensures forall i :: 0 <= i < |out| ==> out[i] < |rs| && Candidate(rs[out[i]], id, n)
    ensures forall i, j :: 0 <= i < j < |out| ==> out[i] != out[j]
  {
    var all := Candidates(rs, id, n);
    if |all| <= LEGACY_COMPARE_LIMIT then all else all[..LEGACY_COMPARE_LIMIT]
  }

  /** `_replayed_receipt`. */
  function Replayed(sc: Schema, rs: seq<Receipt>, id: string, content: Digest, n: nat): Reading {
    var prior := Prior(rs, id, content);
    if prior.Some? then Reading(rs, prior, []) else ReadCandidates(sc, rs, ToRead(rs, id, n), content)
  }

  /** `_replay_rows_valid`: rows the receipt accepted are still valid and carry the same UID. */
  predicate RowsRepeat(sc: Schema, r: Receipt, rows: seq<Json>) {
    forall i :: 0 <= i < |rows| && i in r.items && r.items[i].disposition != Quarantined ==>
      sc.parse(rows[i]).Some? && sc.parse(rows[i]) == r.items[i].uid
  }

  // ---- Settling a payload ----

  predicate MayReplay(rs: seq<Receipt>, sc: Schema, m: map<string, Json>) {
    Conflicts(rs, BatchId(sc, m), Sha(Material(m))) && ValidId(Get(m, "batch_id")) && HasBoundedRows(m)
        && Reported(m) == Null
  }

  predicate BatchError(rs: seq<Receipt>, sc: Schema, m: map<string, Json>) {
    var digest := Sha(Material(m));
    !ValidId(Get(m, "batch_id")) || !HasBoundedRows(m) || Conflicts(rs, BatchId(sc, m), digest)
    || (Reported(m) != Null && Reported(m) != Str(sc.hex(digest)))
  }

  function BatchItem(m: map<string, Json>): Item {
    var raw := Obj(map["batch" := Obj(m)]);
    Item(Quarantined, None, Sha(raw), Some(raw))
  }

  function NewItems(sc: Schema, st: Store, m: map<string, Json>): map<int, Item> {
    if !BatchError(st.receipts, sc, m) then RowItems(sc, EventsOf(m).items, st.stored, Context(m))
    else if HasBoundedRows(m) then QuarantinedItems(EventsOf(m).items, Context(m))
    else map[-1 := BatchItem(m)]
  }

  function ContentMark(sc: Schema, m: map<string, Json>): Mark {
    if EventsOf(m).List? then Marked(ContentDigest(sc, EventsOf(m).items)) else Unset
  }

  function NewReceipt(sc: Schema, st: Store, m: map<string, Json>): Receipt {
    var items := NewItems(sc, st, m);
    var n := if EventsOf(m).List? then |EventsOf(m).items| else 0;
    if HasBoundedRows(m) then
      Receipt(BatchId(sc, m), Sha(Material(m)), Reported(m), n, items,
              CountOf(items, n, Accepted), CountOf(items, n, Duplicate), CountOf(items, n, Quarantined),
                  ContentMark(sc, m))
    else Receipt(BatchId(sc, m), Sha(Material(m)), Reported(m), n, items, 0, 0, 1, ContentMark(sc, m))
  }

  function WithNew(sc: Schema, st: Store, m: map<string, Json>, read: seq<nat>): Settled {
    var after := if BatchError(st.receipts, sc, m) then st.stored else st.stored + ParsedUids(sc, EventsOf(m).items);
    Settled(Store(st.receipts + [NewReceipt(sc, st, m)], after), |st.receipts|, New, read)
  }

  /** The receipt an exact retry found, with its content digest filled in when it was missing. */
  function Retried(sc: Schema, r: Receipt, m: map<string, Json>): Receipt {
    if !r.content.Marked? && EventsOf(m).List? then r.(content := ContentMark(sc, m)) else r
  }

  function Settle(sc: Schema, st: Store, m: map<string, Json>): Settled {
    var id, digest := BatchId(sc, m), Sha(Material(m));
    var exact := FindExact(st.receipts, id, digest, Reported(m));
    if exact.Some? then
      var k := exact.value;
      Settled(st.(receipts := st.receipts[k := Retried(sc, st.receipts[k], m)]), k, ExactRetry, [])
    else if MayReplay(st.receipts, sc, m) then
      var rows := EventsOf(m).items;
      var got := Replayed(sc, st.receipts, id, ContentDigest(sc, rows), |rows|);
      var next := st.(receipts := got.receipts);
      if got.found.Some? && got.found.value < |got.receipts| && RowsRepeat(sc, got.receipts[got.found.value], rows) then
        Settled(next, got.found.value, CaptureReplay, got.read)
      else WithNew(sc, next, m, got.read)
    else WithNew(sc, st, m, [])
  }

  /**
   Settling before content digests existed: an exact retry is answered from its receipt, everything else gets a
   receipt with no content mark, and nothing is compared with older receipts.
   */
  function SettleUnmarked(sc: Schema, st: Store, m: map<string, Json>): Settled {
    var exact := FindExact(st.receipts, BatchId(sc, m), Sha(Material(m)), Reported(m));
    if exact.Some? then Settled(st, exact.value, ExactRetry, [])
    else
      var s := WithNew(sc, st, m, []);
      var k := |st.receipts|;
      s.(store := s.store.(receipts := s.store.receipts[k := s.store.receipts[k].(content := Unset)]))
  }

  /** The two consistency checks made before a receipt is committed. */
  predicate TotalsAgree(r: Receipt) {
    && |r.items| == r.accepted + r.duplicates + r.quarantined
    && (1 <= r.count <= MAX_BATCH_EVENTS ==> r.accepted + r.duplicates + r.quarantined == r.count)
  }

  lemma TotalsAlwaysAgree(sc: Schema, st: Store, m: map<string, Json>)
    ensures TotalsAgree(NewReceipt(sc, st, m))
  {
    var r := NewReceipt(sc, st, m);
    if HasBoundedRows(m) {
      SizeOfRange(r.items, r.count);
      CountsCover(r.items, r.count);
    }
  }

  class BatchStore {
    var receipts: seq<Receipt>
    var stored: set<string>

    ghost function State(): Store
      reads this
    {
      Store(receipts, stored)
    }

    /** Compares a replay with pre-digest receipts through their own evidence. */
    method ReadLegacy(sc: Schema, id: string, content: Digest, n: nat) returns (found: Option<nat>, read: seq<nat>)
      modifies this`receipts
      ensures var got := ReadCandidates(sc, old(receipts), ToRead(old(receipts), id, n), content);
              receipts == got.receipts && found == got.found && read == got.read
    {
      var todo: seq<nat> := ToRead(receipts, id, n);
      read := [];
      ghost var whole := ReadCandidates(sc, receipts, todo, content);
      while todo != []
        invariant forall i :: 0 <= i < |todo| ==> todo[i] < |receipts|
        invariant WithRead(read, ReadCandidates(sc, receipts, todo, content)) == whole
        decreases |todo|
      {
        var k := todo[0];
        ReadsNext(sc, receipts, todo, content, read);
        var digest := RebuildContent(sc, receipts[k]);
        receipts := receipts[k := receipts[k].(content := MarkOf(digest))];
        read, todo := read + [k], todo[1..];
        if digest == Some(content) { return Some(k), read; }
      }
      found := None;
    }

    method ReplayedReceipt(sc: Schema, id: string, content: Digest, n: nat) returns (found: Option<nat>, read: seq<nat>)
      modifies this`receipts
      ensures var got := Replayed(sc, old(receipts), id, content, n);
              receipts == got.receipts && found == got.found && read == got.read
    {
      var prior := Prior(receipts, id, content);
      if prior.Some? { return prior, []; }
      found, read := ReadLegacy(sc, id, content, n);
    }

    method RowsStillValid(sc: Schema, r: Receipt, rows: seq<Json>) returns (valid: bool)
      ensures valid == RowsRepeat(sc, r, rows)
    {
      for i := 0 to |rows|
        invariant forall j :: 0 <= j < i && j in r.items && r.items[j].disposition != Quarantined ==>
                    sc.parse(rows[j]).Some? && sc.parse(rows[j]) == r.items[j].uid
      {
        if i in r.items && r.items[i].disposition != Quarantined {
          var parsed := sc.parse(rows[i]);
          if parsed.None? || parsed != r.items[i].uid { return false; }
        }
      }
      return true;
    }

    /** Creates the receipt of a payload nothing settled before; `failed` stands for either totals error. */
    method Create(sc: Schema, m: map<string, Json>) returns (k: nat, failed: bool)
      modifies this
      ensures !failed
      ensures State() == WithNew(sc, old(State()), m, []).store && k == old(|receipts|)
    {
      ghost var before := State();
      var error, events := BatchError(receipts, sc, m), EventsOf(m);
      var items, accepted, duplicates, quarantined := map[], 0, 0, 0;
      if !error {
        var seen;
        items, accepted, duplicates, quarantined, seen := SettleRows(sc, events.items, stored, Context(m));
        stored := seen;
      } else if HasBoundedRows(m) {
        items := QuarantineRows(events.items, Context(m));
        quarantined := |events.items|;
        AllCounted(events.items, Context(m), |events.items|);
      } else {
        items, quarantined := map[-1 := BatchItem(m)], 1;
      }
      var r := Receipt(BatchId(sc, m), Sha(Material(m)), Reported(m), if events.List? then |events.items| else 0, items,
                       accepted, duplicates, quarantined, ContentMark(sc, m));
      assert r == NewReceipt(sc, before, m);
      TotalsAlwaysAgree(sc, before, m);
      k, failed := |receipts|, !TotalsAgree(r);
      receipts := receipts + [r];
    }

    method SettleBatch(sc: Schema, m: map<string, Json>) returns (k: nat, kind: Kind, failed: bool)
      modifies this
      ensures !failed
      ensures var s := Settle(sc, old(State()), m); State() == s.store && k == s.receipt && kind == s.kind
    {
      var id, digest := BatchId(sc, m), Sha(Material(m));
      var exact := FindExact(receipts, id, digest, Reported(m));
      if exact.Some? {
        k := exact.value;
        receipts := receipts[k := Retried(sc, receipts[k], m)];
        return k, ExactRetry, false;
      }
      if MayReplay(receipts, sc, m) {
        var rows := EventsOf(m).items;
        var found, read := ReplayedReceipt(sc, id, ContentDigest(sc, rows), |rows|);
        if found.Some? && found.value < |receipts| {
          var valid := RowsStillValid(sc, receipts[found.value], rows);
          if valid { return found.value, CaptureReplay, false; }
        }
      }
      k, failed := Create(sc, m);
      kind := New;
    }
  }

  lemma {:induction false} AllCounted(rows: seq<Json>, context: Json, n: nat)
    requires n <= |rows|
    ensures var items := QuarantinedItems(rows, context);
            CountOf(items, n, Accepted) == 0 && CountOf(items, n, Duplicate) == 0 && CountOf(items, n, Quarantined) == n
  {
    if n > 0 {
      AllCounted(rows, context, n - 1);
    }
  }
}
