/** Batch payloads, their digests, and the encrypted evidence of a quarantined row. */
module BatchContent {
  import opened Options

  const MAX_BATCH_EVENTS := 100
  const CAPTURED_AT := "captured_at"
  const BATCH_CONTEXT := "__batch_context"

  datatype Json =
    | Null | Bool(b: bool) | Num(n: int) | Str(s: string) | List(items: seq<Json>) | Obj(fields: map<string, Json>)

  /** SHA-256 of canonical JSON: equal digests mean equal content. */
  datatype Digest = Sha(content: Json)

  /** What the settlement asks of code it does not own. */
  datatype Schema = Schema(parse: Json -> Option<string>, wellFormed: string -> bool, hex: Digest -> string)

  function Get(fields: map<string, Json>, key: string): Json {
    if key in fields then fields[key] else Null
  }

  predicate Bounded(rows: seq<Json>) {
    1 <= |rows| <= MAX_BATCH_EVENTS
  }

  predicate WellFormedTime(sc: Schema, value: Json) {
    value.Str? && sc.wellFormed(value.s)
  }

  /** A row as the content digest sees it: a well-formed send time is replaced by a marker. */
  function ContentRow(sc: Schema, row: Json): Json {
    if !row.Obj? then row
    else
      Obj(map k | k in row.fields ::
            if k != CAPTURED_AT then row.fields[k]
            else if WellFormedTime(sc, row.fields[k]) then List([Str("WELL_FORMED")])
            else List([Str("AS_SENT"), row.fields[k]]))
  }

  function ContentRows(sc: Schema, rows: seq<Json>): (out: seq<Json>)
    ensures |out| == |rows| && forall i :: 0 <= i < |rows| ==> out[i] == ContentRow(sc, rows[i])
  {
    if rows == [] then [] else [ContentRow(sc, rows[0])] + ContentRows(sc, rows[1..])
  }

  function ContentDigest(sc: Schema, rows: seq<Json>): Digest {
    Sha(Obj(map["schema" := Str("attendance-batch-content-2"), "events" := List(ContentRows(sc, rows))]))
  }

  /** Two rows that agree on everything but well-formed capture times. */
  ghost predicate SameButCapture(sc: Schema, a: Json, b: Json) {
    a == b
    || (a.Obj? && b.Obj? && a.fields.Keys == b.fields.Keys
        && (forall k :: k in a.fields && k != CAPTURED_AT ==> a.fields[k] == b.fields[k])
        && (CAPTURED_AT in a.fields ==>
              a.fields[CAPTURED_AT] == b.fields[CAPTURED_AT]
              || (WellFormedTime(sc, a.fields[CAPTURED_AT]) && WellFormedTime(sc, b.fields[CAPTURED_AT]))))
  }

  lemma ContentRowForgetsOnlyCapture(sc: Schema, a: Json, b: Json)
    ensures ContentRow(sc, a) == ContentRow(sc, b) <==> SameButCapture(sc, a, b)
  {
    var ca, cb := ContentRow(sc, a), ContentRow(sc, b);
    if a.Obj? && b.Obj? {
      if ca == cb {
        assert ca.fields.Keys == cb.fields.Keys;
        assert a.fields.Keys == ca.fields.Keys && b.fields.Keys == cb.fields.Keys;
        forall k | k in a.fields && k != CAPTURED_AT
          ensures a.fields[k] == b.fields[k]
        {
          assert ca.fields[k] == cb.fields[k];
        }
        if CAPTURED_AT in a.fields {
          MarkersDiffer(sc, a.fields[CAPTURED_AT], b.fields[CAPTURED_AT], ca.fields[CAPTURED_AT],
              cb.fields[CAPTURED_AT]);
        }
      }
      if SameButCapture(sc, a, b) {
        assert ca.fields == cb.fields;
      }
    }
  }

  lemma MarkersDiffer(sc: Schema, a: Json, b: Json, ca: Json, cb: Json)
    requires ca == if WellFormedTime(sc, a) then List([Str("WELL_FORMED")]) else List([Str("AS_SENT"), a])
    requires cb == if WellFormedTime(sc, b) then List([Str("WELL_FORMED")]) else List([Str("AS_SENT"), b])
    requires ca == cb
    ensures a == b || (WellFormedTime(sc, a) && WellFormedTime(sc, b))
  {
    assert |ca.items| == |cb.items|;
    if !WellFormedTime(sc, a) {
      assert ca.items[1] == a && cb.items[1] == b;
    }
  }

  /** Content digests are equal exactly when the lists agree on everything but well-formed capture times. */
  lemma ContentDigestsAgree(sc: Schema, a: seq<Json>, b: seq<Json>)
    ensures ContentDigest(sc, a) == ContentDigest(sc, b) <==>
            |a| == |b| && forall i :: 0 <= i < |a| ==> SameButCapture(sc, a[i], b[i])
  {
    var ca, cb := ContentRows(sc, a), ContentRows(sc, b);
    if ContentDigest(sc, a) == ContentDigest(sc, b) {
      assert ContentDigest(sc, a).content.fields["events"] == List(ca);
      assert ContentDigest(sc, b).content.fields["events"] == List(cb);
      forall i | 0 <= i < |a|
        ensures SameButCapture(sc, a[i], b[i])
      {
        assert ca[i] == cb[i];
        ContentRowForgetsOnlyCapture(sc, a[i], b[i]);
      }
    }
    if |a| == |b| && forall i :: 0 <= i < |a| ==> SameButCapture(sc, a[i], b[i]) {
      forall i | 0 <= i < |a|
        ensures ca[i] == cb[i]
      {
        ContentRowForgetsOnlyCapture(sc, a[i], b[i]);
      }
      assert ca == cb;
    }
  }

  // ---- Quarantine evidence ----

  function Wrapped(row: Json): map<string, Json> {
    if row.Obj? then row.fields else map["value" := row]
  }

  /** The encrypted evidence of a quarantined row. */
  function Protected(row: Json, context: Json): Json {
    Obj(Wrapped(row)[BATCH_CONTEXT := context])
  }

  /** The evidence without the settlement's own annotation. */
  function Stripped(evidence: Json): map<string, Json>
    requires evidence.Obj?
  {
    map k | k in evidence.fields && k != BATCH_CONTEXT :: evidence.fields[k]
  }

  /** The row with another value under the annotation's key. */
  function Relabelled(row: Json, v: Json): Json
    requires row.Obj?
  {
    Obj(row.fields[BATCH_CONTEXT := v])
  }

  lemma AnnotationOverwrites(row: Json, v: Json, context: Json)
    requires row.Obj? && BATCH_CONTEXT in row.fields
    ensures Protected(Relabelled(row, v), context) == Protected(row, context)
  {
    assert row.fields[BATCH_CONTEXT := v][BATCH_CONTEXT := context] == row.fields[BATCH_CONTEXT := context];
  }

  /**
   An object row is recovered from its evidence exactly when the device did not use the annotation's key; otherwise
   whatever value the device put there leaves the same evidence.
   */
  lemma EvidenceKeepsTheRow(row: Json, context: Json)
    requires row.Obj?
    ensures Obj(Stripped(Protected(row, context))) == row <==> BATCH_CONTEXT !in row.fields
    ensures BATCH_CONTEXT in row.fields ==>
              forall v :: Protected(Relabelled(row, v), context) == Protected(row, context)
  {
    var stripped := Stripped(Protected(row, context));
    if BATCH_CONTEXT in row.fields {
      assert BATCH_CONTEXT !in stripped;
      forall v ensures Protected(Relabelled(row, v), context) == Protected(row, context) {
        AnnotationOverwrites(row, v, context);
      }
    } else {
      assert stripped == row.fields;
    }
  }

  /** What a pre-digest receipt's evidence can be turned back into. */
  predicate Rebuildable(row: Json) {
    row.Obj? && BATCH_CONTEXT !in row.fields && row.fields != map[] && row.fields.Keys != {"value"}
  }

  function RebuiltRow(evidence: Json, digest: Digest): Option<Json>
    requires evidence.Obj?
  {
    var raw := Stripped(evidence);
    if raw == map[] || raw.Keys == {"value"} || Sha(Obj(raw)) != digest then None else Some(Obj(raw))
  }

  /** Rebuilding succeeds exactly on rebuildable rows, and then returns the row itself. */
  lemma RebuiltIsTheRow(row: Json, context: Json)
    ensures RebuiltRow(Protected(row, context), Sha(row)) == if Rebuildable(row) then Some(row) else None
  {
    var raw := Stripped(Protected(row, context));
    if row.Obj? {
      EvidenceKeepsTheRow(row, context);
    } else {
      assert raw.Keys == {"value"};
    }
  }
}
