/** The sealed log. */
module AuditSealed {
  /**
   * What an erasure leaves in a row, and what an export holds, for entries hashed over
   * canonical JSON: markers that name the payload they replace, files that can be checked.
   */

  import opened Common
  import opened JsonText
  import opened JsValues
  import opened CanonicalJson
  import opened AuditEntries
  import opened AuditTable
  import opened AuditChain
  import opened AuditRedaction
  import opened AuditFormat
  import S = StorageKeys

  // ------------------------------------------------------------- erased rows

  /**
   * After an erasure the data of a row in scope is the marker of the payload it held: the
   * very payload, shown later, gives that marker, and one that gives it is that payload in
   * meaning, or makes a collision with it.
   */
  lemma {:induction false} ErasedNamesPayload(
    H: Text -> Text, scope: Scope, was: Table, now: Table, i: nat, payload: Value)
    requires Erased(Sealed(H), scope, was, now) && i < |was| && IsPending(scope, was[i])
    requires Valid(was[i].content.data) && Valid(payload) && !payload.Undefined?
    ensures !was[i].content.data.Undefined?
    ensures Meaning(payload) == Meaning(was[i].content.data) ==> now[i].content.data == RedactedData(H, payload)
    ensures now[i].content.data == RedactedData(H, payload) ==>
              || Meaning(payload) == Meaning(was[i].content.data)
              || (Canonical(payload) != Canonical(was[i].content.data)
                  && H(Canonical(payload).value) == H(Canonical(was[i].content.data).value))
  {
    assert Redacted(Sealed(H), scope, was[i], now[i]) && !IsPending(scope, now[i]);
    hide RedactedData, Meaning, Canonical, Valid;
    MarkerNamesPayload(H, payload, was[i].content.data);
  }

  /** The rest of the row is as it was, its hash and its links included. */
  lemma {:induction false} ErasedKeepsRest(
    H: Text -> Text, scope: Scope, was: Table, now: Table, i: nat)
    requires Erased(Sealed(H), scope, was, now) && i < |was|
    ensures now[i].(content := was[i].content, redactedAt := was[i].redactedAt) == was[i]
    ensures now[i].content.(data := Null) == was[i].content.(data := Null)
    ensures !IsPending(scope, was[i]) ==> now[i] == was[i]
  {
    assert Redacted(Sealed(H), scope, was[i], now[i]);
  }

  /** An entry an erasure is for: of that tenant, a named model and, if any are given, a named record. */
  ghost predicate IsFor(tenantId: Text, models: seq<Text>, recordIds: Option<seq<Text>>, e: Entry) {
    && e.content.tenantId == tenantId && e.content.model in models
    && (recordIds.None? || exists id :: e.content.recordId == Some(id) && id in recordIds.value)
  }

  /** Exactly the entries it is for end up redacted, and those redacted before; no other is touched. */
  lemma {:induction false} ErasedExactly(
    H: Text -> Text, tenantId: Text, models: seq<Text>, recordIds: Option<seq<Text>>, was: Table, now: Table, i: nat)
    requires Erased(Sealed(H), Scope(tenantId, models, recordIds), was, now) && i < |was|
    ensures i < |now|
    ensures now[i].redactedAt.Some? <==> was[i].redactedAt.Some? || IsFor(tenantId, models, recordIds, was[i])
    ensures now[i] != was[i] ==> IsFor(tenantId, models, recordIds, was[i]) && was[i].redactedAt.None?
  {
    var scope := Scope(tenantId, models, recordIds);
    assert Redacted(Sealed(H), scope, was[i], now[i]) && !IsPending(scope, now[i]);
    if recordIds.Some? && was[i].content.recordId.Some? {
      var id := was[i].content.recordId.value;
      assert IsFor(tenantId, models, recordIds, was[i]) <==>
        was[i].content.tenantId == tenantId && was[i].content.model in models && id in recordIds.value;
    }
  }

  // -------------------------------------------------------- exported records

  const SEQUENCE: Text := Ascii("sequence")
  const CREATED_AT: Text := Ascii("createdAt")
  const PREVIOUS_HASH: Text := Ascii("previousHash")
  const HASH: Text := Ascii("hash")

  /** Every field the hash covers is in the record under its name, and the rest of the entry. */
  lemma {:induction false} RecordHoldsEntry(iso: int -> Text, e: Entry)
    ensures forall k | 0 <= k < 7 :: Payload(e.content).fields[k] in Record(iso, e)
    ensures Field(SEQUENCE, Finite(S.Decimal(e.sequence))) in Record(iso, e)
    ensures Field(CREATED_AT, Str(iso(e.createdAt))) in Record(iso, e)
    ensures Field(PREVIOUS_HASH, Str(e.previousHash)) in Record(iso, e)
    ensures Field(HASH, Str(e.hash)) in Record(iso, e)
  {
    PayloadInRecord(iso, e);
    RestInRecord(iso, e);
    hide *;
  }

  lemma {:induction false} PayloadInRecord(iso: int -> Text, e: Entry)
    ensures |Payload(e.content).fields| == 7
    ensures forall k | 0 <= k < 7 :: Payload(e.content).fields[k] in Record(iso, e)
  {
    hide Ascii, OrNull, S.Decimal;
    var fields, r := Payload(e.content).fields, Record(iso, e);
    var at := [2, 3, 4, 5, 8, 6, 7];
    forall k | 0 <= k < 7 ensures fields[k] in r {
      assert r[at[k]] == fields[k];
    }
  }

  lemma {:induction false} RestInRecord(iso: int -> Text, e: Entry)
    ensures Field(SEQUENCE, Finite(S.Decimal(e.sequence))) in Record(iso, e)
    ensures Field(CREATED_AT, Str(iso(e.createdAt))) in Record(iso, e)
    ensures Field(PREVIOUS_HASH, Str(e.previousHash)) in Record(iso, e)
    ensures Field(HASH, Str(e.hash)) in Record(iso, e)
  {
    hide Ascii, OrNull, S.Decimal;
    var r := Record(iso, e);
    assert r[0] in r && r[1] in r && r[9] in r && r[10] in r;
  }

  /** The columns are the record's keys, in order, and no two are the same. */
  lemma {:induction false} ColumnsAreKeys(iso: int -> Text, e: Entry)
    ensures |COLUMNS| == 11 && forall k | 0 <= k < 11 :: Record(iso, e)[k].key == COLUMNS[k]
    ensures DistinctKeys(Record(iso, e)) && forall k | 0 <= k < 11 :: COLUMNS[k] != PROTO
  {
    hide OrNull;
    ColumnsDiffer();
  }

  lemma {:induction false} ColumnsDiffer()
    ensures Distinct(COLUMNS) && forall k | 0 <= k < 11 :: COLUMNS[k] != PROTO
  {
    var sizes := [8, 9, 8, 5, 9, 8, 6, 14, 4, 12, 4];
    assert forall k | 0 <= k < 11 :: |COLUMNS[k]| == sizes[k];
    assert COLUMNS[0][0] != COLUMNS[2][0] && COLUMNS[0][0] != COLUMNS[5][0] && COLUMNS[2][0] != COLUMNS[5][0];
    assert COLUMNS[1][0] != COLUMNS[4][0] && COLUMNS[8][0] != COLUMNS[10][0];
    assert PROTO[0] != COLUMNS[1][0] && PROTO[0] != COLUMNS[4][0];
  }

  /** In a CSV export the cell under a column is that field's, of the entry its row is for. */
  lemma {:induction false} CellUnderColumn(iso: int -> Text, entries: Table, i: nat, k: nat, f: Field)
    requires i < |entries| && k < 11 && f in Record(iso, entries[i]) && f.key == COLUMNS[k]
    ensures |Rows(iso, entries)[i]| == 11 && Rows(iso, entries)[i][k] == SafeText(f.value)
  {
    ColumnsAreKeys(iso, entries[i]);
    hide Record, SafeText;
    var r := Record(iso, entries[i]);
    var j :| 0 <= j < |r| && r[j] == f;
    assert j == k;
  }

  /** In a JSON lines export the entry's line is an object with that member. */
  lemma {:induction false} MemberOfLine(iso: int -> Text, e: Entry, tree: Json, f: Field)
    requires Valid(e.content.data) && WellFormed(tree) && Print(tree) == JsonLine(iso, e)
    requires f in Record(iso, e) && !f.value.Undefined?
    ensures tree.JObject? && Member(f.key, ToJson(f.value).value) in tree.members
  {
    RecordValid(iso, e);
    hide Record, Print;
    ToJsonWellFormed(Obj(Record(iso, e)));
    PrintInjective(tree, ToJson(Obj(Record(iso, e))).value);
    MembersMirror(Record(iso, e));
  }

  lemma {:induction false} RecordValid(iso: int -> Text, e: Entry)
    requires Valid(e.content.data)
    ensures Valid(Obj(Record(iso, e)))
  {
    ColumnsAreKeys(iso, e);
    DecimalIsNumber(e.sequence);
    hide Ascii, DistinctKeys;
    var r := Record(iso, e);
    forall k | 0 <= k < 11 ensures Valid(r[k].value) {
      assert k == 8 ==> r[k].value == e.content.data;
      assert k == 0 ==> r[k].value == Finite(S.Decimal(e.sequence));
    }
  }

  // --------------------------------------------------------- checked offline

  /** The value an object has under a key. */
  ghost function Under(fields: seq<Field>, key: Text): Value {
    if key in KeySet(fields) then fields[IndexOf(fields, key)].value else Undefined
  }

  ghost function TextOf(v: Value): Text {
    match v
    case Str(s) => s
    case Date(iso) => iso
    case _ => []
  }

  const PAYLOAD_KEYS: seq<Text> := [
    Ascii("tenantId"), Ascii("model"), Ascii("operation"), Ascii("recordId"), Ascii("data"), Ascii("userId"),
    Ascii("impersonatedBy")]

  /** The payload, taken from a record read back from a file. */
  ghost function PayloadOf(fields: seq<Field>): Value {
    Obj(seq(|PAYLOAD_KEYS|, k requires 0 <= k < |PAYLOAD_KEYS| => Field(PAYLOAD_KEYS[k], Under(fields, PAYLOAD_KEYS[k]))))
  }

  /** What anyone can recompute of a record, with no access to the log. */
  ghost function Rehash(H: Text -> Text, fields: seq<Field>): Text {
    H(TextOf(Under(fields, PREVIOUS_HASH)) + Canonical(PayloadOf(fields)).value)
  }

  /** Fields read back hold under each key the same data. */
  lemma {:induction false} UnderAlike(a: seq<Field>, b: seq<Field>, key: Text)
    requires Denote(Obj(a)) == Denote(Obj(b))
    ensures Denote(Under(a, key)) == Denote(Under(b, key))
  {
    var ma, mb := Denote(Obj(a)).value.members, Denote(Obj(b)).value.members;
    assert ma == mb;
    assert key in ma <==> key in mb;
    UnderIs(a, key);
    UnderIs(b, key);
  }

  lemma {:induction false} UnderIs(a: seq<Field>, key: Text)
    ensures var members := Denote(Obj(a)).value.members;
            Denote(Under(a, key)) == if key in members then Some(members[key]) else None
  {
    if key in KeySet(a) && !a[IndexOf(a, key)].value.Undefined? {
      assert key in Denote(Obj(a)).value.members;
    }
  }

  lemma {:induction false} UnderField(fields: seq<Field>, f: Field)
    requires DistinctKeys(fields) && f in fields
    ensures Under(fields, f.key) == f.value
  {
    var k :| 0 <= k < |fields| && fields[k] == f;
    LookUp(fields, k);
  }

  lemma {:induction false} UnderValid(fields: seq<Field>, key: Text)
    requires Valid(Obj(fields))
    ensures Valid(Under(fields, key))
  {
  }

  lemma {:induction false} PayloadKeysAre(e: Input)
    ensures |Payload(e).fields| == |PAYLOAD_KEYS| == 7
    ensures forall k | 0 <= k < 7 :: Payload(e).fields[k].key == PAYLOAD_KEYS[k]
    ensures DistinctKeys(Payload(e).fields)
  {
    PayloadKeysDistinct(e);
    hide OrNull;
  }

  /** The payload taken from the file is in meaning the payload that was hashed. */
  lemma {:induction false} PayloadReadsBack(iso: int -> Text, e: Entry, read: seq<Field>)
    requires Valid(e.content.data) && Valid(Obj(read)) && Denote(Obj(read)) == Denote(Obj(Record(iso, e)))
    ensures Valid(PayloadOf(read)) && Denote(PayloadOf(read)) == Denote(Payload(e.content))
  {
    var r, fields, picked := Record(iso, e), Payload(e.content).fields, PayloadOf(read).fields;
    PayloadKeysAre(e.content);
    ColumnsAreKeys(iso, e);
    RecordHoldsEntry(iso, e);
    hide Record, Payload, Denote, Ascii, PAYLOAD_KEYS;
    forall k | 0 <= k < 7
      ensures picked[k].key == fields[k].key && Denote(picked[k].value) == Denote(fields[k].value) && Valid(picked[k].value)
    {
      UnderAlike(read, r, fields[k].key);
      UnderField(r, fields[k]);
      UnderValid(read, fields[k].key);
    }
    ObjectCongruence(picked, fields);
  }

  /**
   * An export can be checked offline. Whoever parses an entry's line, in whatever key order,
   * and hashes what the record says was hashed, gets the hash the verifier computes; for an
   * entry that is not redacted and that the verifier accepts, the one in the record.
   */
  lemma {:induction false} ExportRehashes(H: Text -> Text, iso: int -> Text, e: Entry, read: seq<Field>)
    requires Valid(e.content.data) && Valid(Obj(read)) && Denote(Obj(read)) == Denote(Obj(Record(iso, e)))
    ensures Rehash(H, read) == ComputeHash(H, e.previousHash, e.content)
    ensures e.redactedAt.None? && Accepts(Sealed(H), e.previousHash, e) ==>
              Rehash(H, read) == TextOf(Under(read, HASH))
  {
    hide *;
    PayloadReadsBack(iso, e, read);
    PayloadValid(e.content);
    SameDenoteSameText(PayloadOf(read), Payload(e.content));
    TextReadsBack(iso, e, read, PREVIOUS_HASH, e.previousHash);
    TextReadsBack(iso, e, read, HASH, e.hash);
    RehashIs(H, read, e);
    if e.redactedAt.None? && Accepts(Sealed(H), e.previousHash, e) {
      AcceptedHash(H, e);
    }
  }

  lemma {:induction false} SameDenoteSameText(a: Value, b: Value)
    requires Valid(a) && Valid(b) && Denote(a) == Denote(b)
    ensures Canonical(a) == Canonical(b)
  {
    hide Canonical, Denote, Valid;
    CanonicalIffSameMeaning(a, b);
  }

  lemma {:induction false} RehashIs(H: Text -> Text, read: seq<Field>, e: Entry)
    requires TextOf(Under(read, PREVIOUS_HASH)) == e.previousHash
    requires Canonical(PayloadOf(read)) == Canonical(Payload(e.content))
    ensures Rehash(H, read) == ComputeHash(H, e.previousHash, e.content)
  {
    hide Canonical, PayloadOf, Payload, Under, TextOf;
  }

  lemma {:induction false} AcceptedHash(H: Text -> Text, e: Entry)
    requires e.redactedAt.None? && Accepts(Sealed(H), e.previousHash, e)
    ensures e.hash == ComputeHash(H, e.previousHash, e.content)
  {
    hide ComputeHash;
  }

  lemma {:induction false} TextReadsBack(iso: int -> Text, e: Entry, read: seq<Field>, key: Text, text: Text)
    requires Denote(Obj(read)) == Denote(Obj(Record(iso, e)))
    requires (key == PREVIOUS_HASH && text == e.previousHash) || (key == HASH && text == e.hash)
    ensures TextOf(Under(read, key)) == text
  {
    var r := Record(iso, e);
    ColumnsAreKeys(iso, e);
    RecordHoldsEntry(iso, e);
    hide Record, Ascii;
    UnderAlike(read, r, key);
    UnderField(r, Field(key, Str(text)));
    TextDenotes(Under(read, key), text);
  }

  lemma {:induction false} TextDenotes(v: Value, text: Text)
    requires Denote(v) == Denote(Str(text))
    ensures TextOf(v) == text
  {
  }
}
