/** What an entry's hash covers. */
module AuditChain {
  /** The text hashed, the redaction of data, and what two chains with one head hash share. */

  import opened Common
  import opened JsonText
  import opened JsValues
  import opened CanonicalJson
  import opened AuditEntries
  import opened TamperEvidence

  /** SHA-256 is a parameter throughout: any function to 64 hex digits, collisions allowed. */
  ghost predicate IsHash(H: Text -> Text) {
    forall t :: IsDigest(H(t))
  }

  /** auditEntryPayload: the one shape hashed into the chain. */
  function Payload(e: Input): Value {
    Obj([
      Field(Ascii("tenantId"), Str(e.tenantId)),
      Field(Ascii("model"), Str(e.model)),
      Field(Ascii("operation"), Str(e.operation)),
      Field(Ascii("recordId"), OrNull(e.recordId)),
      Field(Ascii("data"), e.data),
      Field(Ascii("userId"), OrNull(e.userId)),
      Field(Ascii("impersonatedBy"), OrNull(e.impersonatedBy))
    ])
  }

  /** What computeHash feeds the digest: the predecessor's hash, then the canonical payload. */
  function HashInput(previousHash: Text, e: Input): Text {
    previousHash + Canonical(Payload(e)).value
  }

  function ComputeHash(H: Text -> Text, previousHash: Text, e: Input): Text {
    H(HashInput(previousHash, e))
  }

  // ------------------------------------------------------------- redaction

  const REDACTED: Text := Ascii("redacted")
  const DIGEST: Text := Ascii("digest")

  function RedactedData(H: Text -> Text, original: Value): Value
    requires !original.Undefined?
  {
    Obj([Field(REDACTED, Bool(true)), Field(DIGEST, Str(H(Canonical(original).value)))])
  }

  predicate IsRedactedData(v: Value) {
    && v.Obj?
    && |v.fields| == 2
    && (exists i | 0 <= i < 2 :: v.fields[i] == Field(REDACTED, Bool(true)))
    && (exists i | 0 <= i < 2 ::
          v.fields[i].key == DIGEST && v.fields[i].value.Str? && IsDigest(v.fields[i].value.s))
  }

  lemma {:induction false} RedactedDataIsRecognised(H: Text -> Text, original: Value)
    requires IsHash(H) && !original.Undefined?
    ensures IsRedactedData(RedactedData(H, original))
  {
    var v := RedactedData(H, original);
    assert v.fields[0] == Field(REDACTED, Bool(true));
    assert v.fields[1].key == DIGEST && IsDigest(v.fields[1].value.s);
  }

  /**
   * A marker names the payload it replaces: data of one meaning have one marker, and data
   * that share a marker have one meaning, or else their canonical texts are a collision.
   */
  lemma {:induction false} MarkerNamesPayload(H: Text -> Text, a: Value, b: Value)
    requires Valid(a) && Valid(b) && !a.Undefined? && !b.Undefined?
    ensures Meaning(a) == Meaning(b) ==> RedactedData(H, a) == RedactedData(H, b)
    ensures RedactedData(H, a) == RedactedData(H, b) ==>
              || Meaning(a) == Meaning(b)
              || (Canonical(a) != Canonical(b) && H(Canonical(a).value) == H(Canonical(b).value))
  {
    CanonicalIffSameMeaning(a, b);
    hide Canonical, Meaning;
    assert RedactedData(H, a).fields[1].value == Str(H(Canonical(a).value));
    assert RedactedData(H, b).fields[1].value == Str(H(Canonical(b).value));
  }

  /** The JSON data {"redacted": true, "digest": ...}, with 64 hex digits and no more. */
  ghost predicate IsMarker(d: Option<Data>) {
    exists digest :: IsDigest(digest) && d == Some(MarkerOf(digest))
  }

  ghost function MarkerOf(digest: Text): Data {
    DObject(map[REDACTED := DBool(true), DIGEST := DString(digest)])
  }

  lemma {:induction false} TwoKeys()
    ensures REDACTED != DIGEST
  {
    assert REDACTED[0] != DIGEST[0];
  }

  lemma {:induction false} TwoFieldsDenote(fields: seq<Field>, r: nat, g: nat, digest: Text)
    requires DistinctKeys(fields) && |fields| == 2 && r < 2 && g < 2
    requires fields[r] == Field(REDACTED, Bool(true)) && fields[g] == Field(DIGEST, Str(digest))
    ensures Denote(Obj(fields)) == Some(MarkerOf(digest))
  {
    hide Ascii;
    TwoKeys();
    LookUp(fields, r);
    LookUp(fields, g);
    var members := Denote(Obj(fields)).value.members;
    forall key ensures key in members <==> key == REDACTED || key == DIGEST {
      if key in members {
        assert IndexOf(fields, key) == r || IndexOf(fields, key) == g;
      }
    }
    assert Denote(Bool(true)) == Some(DBool(true)) && Denote(Str(digest)) == Some(DString(digest));
    assert members[REDACTED] == DBool(true) && members[DIGEST] == DString(digest);
    assert members == MarkerOf(digest).members;
  }

  /** Whatever passes the shape test is a marker. */
  lemma {:induction false} RecognisedIsMarker(v: Value)
    requires Valid(v) && IsRedactedData(v)
    ensures IsMarker(Denote(v))
  {
    hide Ascii, IsDigest, Denote;
    var fields := v.fields;
    var r :| 0 <= r < 2 && fields[r] == Field(REDACTED, Bool(true));
    var g :| 0 <= g < 2 && fields[g].key == DIGEST && fields[g].value.Str? && IsDigest(fields[g].value.s);
    TwoFieldsDenote(fields, r, g, fields[g].value.s);
  }

  /** And data read from JSON that is a marker passes it. */
  lemma {:induction false} MarkerIsRecognised(j: Json)
    requires Valid(FromJson(j)) && IsMarker(Denote(FromJson(j)))
    ensures IsRedactedData(FromJson(j))
  {
    TwoKeys();
    var v := FromJson(j);
    var digest :| IsDigest(digest) && Denote(v) == Some(MarkerOf(digest));
    hide Ascii, IsDigest;
    var members := Denote(v).value.members;
    assert v.Obj?;
    TwoFields(v.fields, members);
    var r, g := IndexOf(v.fields, REDACTED), IndexOf(v.fields, DIGEST);
    assert members[REDACTED] == DBool(true) && members[DIGEST] == DString(digest);
    assert v.fields[r].value == FromJson(j.members[r].value) && v.fields[g].value == FromJson(j.members[g].value);
    assert v.fields[r] == Field(REDACTED, Bool(true));
    assert v.fields[g].value == Str(digest);
  }

  /** An object with no undefined member has a field for each key of its data. */
  lemma {:induction false} TwoFields(fields: seq<Field>, members: map<Text, Data>)
    requires DistinctKeys(fields) && forall i | 0 <= i < |fields| :: !fields[i].value.Undefined?
    requires Denote(Obj(fields)) == Some(DObject(members)) && members.Keys == {REDACTED, DIGEST}
    ensures |fields| == 2 && REDACTED in KeySet(fields) && DIGEST in KeySet(fields)
    ensures forall key | key in KeySet(fields) :: Denote(fields[IndexOf(fields, key)].value) == Some(members[key])
  {
    TwoKeys();
    hide Ascii;
    assert KeySet(fields) == {REDACTED, DIGEST} by {
      forall key ensures key in KeySet(fields) <==> key in members {
        if key in KeySet(fields) {
          assert !fields[IndexOf(fields, key)].value.Undefined?;
        }
      }
    }
    KeysCounted(fields);
    assert |{REDACTED, DIGEST}| == 2;
  }

  lemma {:induction false} KeysCounted(fields: seq<Field>)
    requires DistinctKeys(fields)
    ensures |KeySet(fields)| == |fields|
  {
    if fields != [] {
      var front, last := fields[..|fields| - 1], fields[|fields| - 1];
      KeysCounted(front);
      assert KeySet(fields) == KeySet(front) + {last.key} by {
        forall key ensures key in KeySet(fields) <==> key in KeySet(front) || key == last.key {
          if i :| 0 <= i < |fields| && fields[i].key == key {
            assert i < |front| ==> front[i].key == key;
          }
          if i :| 0 <= i < |front| && front[i].key == key {
            assert fields[i].key == key;
          }
          assert fields[|front|].key == last.key;
        }
      }
    }
  }

  // ---------------------------------------------------- hashing, as it is done

  /** What is stored is the JSON round trip of what was hashed, in any key order. */
  ghost predicate StoredAs(data: Value, stored: Value) {
    !data.Undefined? && Valid(data) && Valid(stored) && Denote(stored) == Denote(Stored(data))
  }

  /** The audit log's hashing, for one digest function. */
  ghost function Sealed(H: Text -> Text): Hashing {
    Hashing(
      (previousHash: Text, e: Input) => ComputeHash(H, previousHash, e),
      (data: Value) => if data.Undefined? then data else RedactedData(H, data),
      (data: Value) => IsRedactedData(data),
      (data: Value, stored: Value) => StoredAs(data, stored))
  }

  lemma {:induction false} SamePayloadMeaning(a: Input, b: Input)
    requires a.(data := Null) == b.(data := Null) && Denote(a.data) == Denote(b.data)
    ensures Denote(Payload(a)) == Denote(Payload(b))
  {
    PayloadKeysDistinct(a);
    PayloadKeysDistinct(b);
    hide Denote, Ascii;
    ObjectCongruence(Payload(a).fields, Payload(b).fields);
  }

  lemma {:induction false} StoringKeepsHash(H: Text -> Text, previousHash: Text, e: Input, stored: Value)
    requires StoredAs(e.data, stored)
    ensures ComputeHash(H, previousHash, e.(data := stored)) == ComputeHash(H, previousHash, e)
    ensures !stored.Undefined?
  {
    var kept := e.(data := stored);
    StoredSurvives(e.data);
    PayloadValid(e);
    PayloadValid(kept);
    SamePayloadMeaning(e, kept);
    CanonicalIffSameMeaning(Payload(e), Payload(kept));
  }

  /**
   * Canonical JSON meets what the chain relies on: data read back from its JSON column, in
   * whatever key order, hashes as it did when written, and redactions are recognised.
   */
  lemma {:induction false} SealedIsOk(H: Text -> Text)
    requires IsHash(H)
    ensures HashingOk(Sealed(H))
  {
    var S := Sealed(H);
    forall previousHash: Text, e: Input, stored: Value | S.keeps(e.data, stored)
      ensures S.hash(previousHash, e.(data := stored)) == S.hash(previousHash, e)
    {
      StoringKeepsHash(H, previousHash, e, stored);
    }
    forall data: Value, stored: Value | S.keeps(data, stored) ensures !data.Undefined? && !stored.Undefined? {
      StoredSurvives(data);
    }
    forall data: Value | !data.Undefined? ensures S.isRedacted(S.redact(data)) && !S.redact(data).Undefined? {
      RedactedDataIsRecognised(H, data);
    }
  }

  // --------------------------------------------------- what the text decodes to

  lemma {:induction false} PayloadKeysDistinct(e: Input)
    ensures DistinctKeys(Payload(e).fields)
    ensures forall i | 0 <= i < 7 :: Payload(e).fields[i].key != PROTO
  {
    var fields := Payload(e).fields;
    assert fields[0].key[0] != fields[3].key[0];
    assert PROTO[0] != fields[2].key[0];
  }

  lemma {:induction false} PayloadValid(e: Input)
    requires Valid(e.data)
    ensures Valid(Payload(e))
  {
    PayloadKeysDistinct(e);
  }

  /** Field k of an object, read off the object's meaning. */
  lemma {:induction false} MeaningOfField(fields: seq<Field>, k: nat)
    requires DistinctKeys(fields) && k < |fields| && fields[k].key != PROTO
    ensures var members := Meaning(Obj(fields)).value.members;
            && (fields[k].key in members <==> !fields[k].value.Undefined?)
            && (fields[k].key in members ==> Meaning(fields[k].value) == Some(members[fields[k].key]))
  {
    LookUp(fields, k);
  }

  lemma {:induction false} PayloadShape(a: Input, b: Input)
    ensures Payload(a).Obj? && |Payload(a).fields| == 7 && Payload(b).Obj? && |Payload(b).fields| == 7
    ensures forall k | 0 <= k < 7 :: Payload(a).fields[k].key == Payload(b).fields[k].key
  {
  }

  /** Two objects of one meaning agree on a key they share. */
  lemma {:induction false} SameMeaningField(a: seq<Field>, b: seq<Field>, k: nat)
    requires DistinctKeys(a) && DistinctKeys(b) && k < |a| && k < |b| && a[k].key == b[k].key && a[k].key != PROTO
    requires Meaning(Obj(a)) == Meaning(Obj(b))
    ensures Meaning(a[k].value) == Meaning(b[k].value)
  {
    MeaningOfField(a, k);
    MeaningOfField(b, k);
    UndefinedMeansNothing(a[k].value);
    UndefinedMeansNothing(b[k].value);
    hide Meaning, DistinctKeys;
  }

  lemma {:induction false} UndefinedMeansNothing(v: Value)
    ensures v.Undefined? ==> Meaning(v) == None
  {
  }

  lemma {:induction false} SameField(a: Input, b: Input, k: nat)
    requires Meaning(Payload(a)) == Meaning(Payload(b)) && k < 7
    ensures |Payload(a).fields| == 7 && |Payload(b).fields| == 7
    ensures Meaning(Payload(a).fields[k].value) == Meaning(Payload(b).fields[k].value)
  {
    hide *;
    PayloadShape(a, b);
    PayloadKeysDistinct(a);
    PayloadKeysDistinct(b);
    SameMeaningField(Payload(a).fields, Payload(b).fields, k);
  }

  lemma {:induction false} StrDecides(x: Text, y: Text)
    requires Meaning(Str(x)) == Meaning(Str(y))
    ensures x == y
  {
  }

  lemma {:induction false} OrNullDecides(x: Option<Text>, y: Option<Text>)
    requires Meaning(OrNull(x)) == Meaning(OrNull(y))
    ensures x == y
  {
  }

  /** The hashed text gives back every field of the entry. */
  lemma {:induction false} CanonicalPayloadDecides(a: Input, b: Input)
    requires Valid(a.data) && Valid(b.data)
    requires Canonical(Payload(a)) == Canonical(Payload(b))
    ensures Meaning(a.data) == Meaning(b.data)
    ensures a.(data := Null) == b.(data := Null)
  {
    hide Meaning, Denote, Canonical;
    PayloadValid(a);
    PayloadValid(b);
    CanonicalIffSameMeaning(Payload(a), Payload(b));
    SameField(a, b, 0);
    StrDecides(a.tenantId, b.tenantId);
    SameField(a, b, 1);
    StrDecides(a.model, b.model);
    SameField(a, b, 2);
    StrDecides(a.operation, b.operation);
    SameField(a, b, 3);
    OrNullDecides(a.recordId, b.recordId);
    SameField(a, b, 4);
    SameField(a, b, 5);
    OrNullDecides(a.userId, b.userId);
    SameField(a, b, 6);
    OrNullDecides(a.impersonatedBy, b.impersonatedBy);
  }

  /** Nothing or 64 hex digits, then an opening brace: the input decodes one way. */
  lemma {:induction false} HashInputDecodes(pa: Text, a: Input, pb: Text, b: Input)
    requires pa == GENESIS || IsDigest(pa)
    requires pb == GENESIS || IsDigest(pb)
    requires HashInput(pa, a) == HashInput(pb, b)
    ensures pa == pb && Canonical(Payload(a)) == Canonical(Payload(b))
  {
    var ca, cb := Canonical(Payload(a)), Canonical(Payload(b));
    CanonicalObjectStarts(Payload(a).fields);
    CanonicalObjectStarts(Payload(b).fields);
    assert (pa + ca.value)[0] == (pb + cb.value)[0];
    assert |pa| == |pb|;
    assert pa == (pa + ca.value)[..|pa|] == (pb + cb.value)[..|pb|] == pb;
    assert ca.value == (pa + ca.value)[|pa|..] == (pb + cb.value)[|pb|..] == cb.value;
  }

  /** What the audit log's hashes are taken of, for one digest function. */
  ghost function Covered(H: Text -> Text): Evidence {
    Evidence(
      (previousHash: Text, e: Input) => HashInput(previousHash, e),
      H,
      (data: Value) => Valid(data),
      (x: Value, y: Value) => Meaning(x) == Meaning(y))
  }

  /** An empty or 64-digit hash and then canonical JSON decode one way, into one payload. */
  lemma {:induction false} CoveredIsOk(H: Text -> Text)
    requires IsHash(H)
    ensures EvidenceOk(Sealed(H), Covered(H))
  {
    hide Canonical, Meaning, Valid, Payload, StoredAs;
    var E := Covered(H);
    forall p: Text, a: Input, q: Text, b: Input |
      IsLink(p) && IsLink(q) && E.genuine(a.data) && E.genuine(b.data) && E.covers(p, a) == E.covers(q, b)
      ensures p == q && SameContent(E, a, b)
    {
      HashInputDecodes(p, a, q, b);
      CanonicalPayloadDecides(a, b);
    }
  }

  /**
   * Two unredacted chains the verifier accepts with one head hash hold the same payloads in
   * the same order -- or `at` names two entries that make up a collision of the digest.
   */
  lemma {:induction false} HeadHashDecidesPayloads(
    H: Text -> Text, a: seq<Entry>, va: Verification, b: seq<Entry>, vb: Verification)
    returns (at: Option<(nat, nat)>)
    requires IsHash(H) && LastWhole(Covered(H), a, |a|) && LastWhole(Covered(H), b, |b|)
    requires IsVerdict(Sealed(H), a, va) && va.valid && IsVerdict(Sealed(H), b, vb) && vb.valid
    requires va.headHash == vb.headHash
    ensures at.Some? ==> NamesCollision(Covered(H), a, b, at.value)
    ensures at.None? ==> SameEntries(Covered(H), a, b)
  {
    hide IsVerdict, LastWhole, Covered, Sealed, EvidenceOk;
    CoveredIsOk(H);
    at := HeadHashDecidesChain(Sealed(H), Covered(H), a, va, b, vb);
  }

  /** One entry, in the source's own terms: its link, and the marker or its own hash. */
  ghost predicate EntryHolds(H: Text -> Text, previousHash: Text, e: Entry) {
    && e.previousHash == previousHash
    && (if e.redactedAt.Some? then IsMarker(Denote(e.content.data))
        else e.hash == H(previousHash + Canonical(Payload(e.content)).value))
  }

  /** Entries as they come from the table, their data parsed from its JSON column. */
  ghost predicate Readable(e: Entry) {
    Valid(e.content.data) && exists j :: e.content.data == FromJson(j)
  }

  lemma {:induction false} AcceptsExactly(H: Text -> Text, previousHash: Text, e: Entry)
    requires Readable(e)
    ensures Accepts(Sealed(H), previousHash, e) <==> EntryHolds(H, previousHash, e)
  {
    if e.redactedAt.Some? {
      var j :| e.content.data == FromJson(j);
      if IsRedactedData(e.content.data) {
        RecognisedIsMarker(e.content.data);
      }
      if IsMarker(Denote(e.content.data)) {
        MarkerIsRecognised(j);
      }
    }
    hide IsMarker, IsRedactedData, Denote, Canonical, Payload;
  }

  /**
   * The verifier answers valid exactly when every entry names its predecessor's hash and is
   * a marker, if redacted, or hashes to its own hash; so one marked redacted that still holds
   * a payload, or one altered, makes it answer broken, no later than there.
   */
  lemma {:induction false} ValidExactly(H: Text -> Text, entries: seq<Entry>, v: Verification)
    requires IsVerdict(Sealed(H), entries, v) && forall i | 0 <= i < |entries| :: Readable(entries[i])
    ensures v.valid <==> forall i | 0 <= i < |entries| :: EntryHolds(H, Tail(entries[..i]), entries[i])
    ensures forall i | 0 <= i < |entries| && !EntryHolds(H, Tail(entries[..i]), entries[i]) ::
              !v.valid && v.checked <= i
  {
    hide Accepts, EntryHolds, Sealed, Readable;
    forall i | 0 <= i < |entries|
      ensures Accepts(Sealed(H), Tail(entries[..i]), entries[i]) <==> EntryHolds(H, Tail(entries[..i]), entries[i])
    {
      AcceptsExactly(H, Tail(entries[..i]), entries[i]);
    }
    if !v.valid {
      var c := v.checked;
      assert !Accepts(Sealed(H), Tail(entries[..c]), entries[c]);
      forall i | 0 <= i < c ensures Accepts(Sealed(H), Tail(entries[..i]), entries[i]) {
        assert entries[..c][..i] == entries[..i] && entries[..c][i] == entries[i];
      }
    }
  }
}
