/** An audit entry, and what a chain of them is. */
module AuditEntries {
  import opened Common
  import opened JsValues

  datatype Input = Input(
    tenantId: Text,
    model: Text,
    operation: Text,
    recordId: Option<Text>,
    data: Value,
    userId: Option<Text>,
    impersonatedBy: Option<Text>)

  datatype Entry = Entry(
    sequence: nat,
    content: Input,
    hash: Text,
    previousHash: Text,
    createdAt: int,
    redactedAt: Option<int>)

  const GENESIS: Text := []

  /**
   * How entries are hashed and redacted: the hash of a predecessor's hash and an entry, what
   * a redaction makes of some data, how the verifier recognises that, and which values the
   * JSON column may give back for one it was given.
   */
  datatype Hashing = Hashing(
    hash: (Text, Input) -> Text,
    redact: Value -> Value,
    isRedacted: Value -> bool,
    keeps: (Value, Value) -> bool)

  /** All the chain relies on: storing data never changes a hash, redacting is recognised. */
  ghost predicate HashingOk(H: Hashing) {
    && (forall previousHash: Text, e: Input, stored: Value | H.keeps(e.data, stored) ::
          H.hash(previousHash, e.(data := stored)) == H.hash(previousHash, e))
    && (forall data: Value, stored: Value | H.keeps(data, stored) :: !data.Undefined? && !stored.Undefined?)
    && (forall data: Value | !data.Undefined? :: H.isRedacted(H.redact(data)) && !H.redact(data).Undefined?)
  }

  // ---------------------------------------------------------- verification

  datatype Verification = Verification(
    valid: bool,
    checked: nat,
    brokenAtSequence: Option<nat>,
    headHash: Option<Text>)

  /** The three tests of one entry: its link, and its redacted shape or its own hash. */
  predicate Accepts(H: Hashing, previousHash: Text, e: Entry) {
    && e.previousHash == previousHash
    && (if e.redactedAt.Some? then H.isRedacted(e.content.data)
        else e.hash == H.hash(previousHash, e.content))
  }

  /** The hash the entry after entries[..i] has to name. */
  function Tail(entries: seq<Entry>): Text {
    if entries == [] then GENESIS else entries[|entries| - 1].hash
  }

  ghost predicate IsChain(H: Hashing, entries: seq<Entry>) {
    forall i | 0 <= i < |entries| :: Accepts(H, Tail(entries[..i]), entries[i])
  }

  /** The verdict on a whole chain, said without a loop. */
  ghost predicate IsVerdict(H: Hashing, entries: seq<Entry>, v: Verification) {
    if IsChain(H, entries) then
      v == Verification(true, |entries|, None, if entries == [] then None else Some(Tail(entries)))
    else
      && v.checked < |entries|
      && IsChain(H, entries[..v.checked])
      && !Accepts(H, Tail(entries[..v.checked]), entries[v.checked])
      && v == Verification(false, v.checked, Some(entries[v.checked].sequence), None)
  }

  lemma {:induction false} ChainExtends(H: Hashing, entries: seq<Entry>, e: Entry)
    requires IsChain(H, entries)
    ensures IsChain(H, entries + [e]) <==> Accepts(H, Tail(entries), e)
  {
    var more := entries + [e];
    assert forall i | 0 <= i < |entries| :: more[..i] == entries[..i] && more[i] == entries[i];
    assert more[..|entries|] == entries && more[|entries|] == e;
  }

  lemma {:induction false} ChainPrefix(H: Hashing, entries: seq<Entry>, n: nat)
    requires n <= |entries| && IsChain(H, entries)
    ensures IsChain(H, entries[..n])
  {
    assert forall i | 0 <= i < n :: entries[..n][..i] == entries[..i];
  }
}
