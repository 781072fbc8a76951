/** Tamper evidence of a head hash. */
module TamperEvidence {
  /** Two chains the verifier accepts with one head hash: what they must have in common. */

  import opened Common
  import opened JsValues
  import opened AuditEntries

  /**
   * What hashes are taken of, and how: the text that covers an entry and its predecessor's
   * hash, the digest of a text, which data is as it was hashed, and when two data are one.
   */
  datatype Evidence = Evidence(
    covers: (Text, Input) -> Text,
    digest: Text -> Text,
    genuine: Value -> bool,
    same: (Value, Value) -> bool)

  ghost predicate SameContent(E: Evidence, a: Input, b: Input) {
    && a.tenantId == b.tenantId && a.model == b.model && a.operation == b.operation
    && a.recordId == b.recordId && a.userId == b.userId && a.impersonatedBy == b.impersonatedBy
    && E.same(a.data, b.data)
  }

  predicate IsLink(t: Text) {
    t == GENESIS || IsDigest(t)
  }

  /** Covering texts decode one way, and digests look like digests. */
  ghost predicate EvidenceOk(H: Hashing, E: Evidence) {
    && (forall previousHash: Text, e: Input :: H.hash(previousHash, e) == E.digest(E.covers(previousHash, e)))
    && (forall t: Text :: IsDigest(E.digest(t)))
    && (forall p: Text, a: Input, q: Text, b: Input |
          IsLink(p) && IsLink(q) && E.genuine(a.data) && E.genuine(b.data) && E.covers(p, a) == E.covers(q, b) ::
          p == q && SameContent(E, a, b))
  }

  /** Two entries whose hashed texts differ and whose hashes do not. */
  ghost predicate Collide(E: Evidence, a: Entry, b: Entry) {
    && E.covers(a.previousHash, a.content) != E.covers(b.previousHash, b.content)
    && E.digest(E.covers(a.previousHash, a.content)) == E.digest(E.covers(b.previousHash, b.content))
  }

  ghost predicate NamesCollision(E: Evidence, a: seq<Entry>, b: seq<Entry>, at: (nat, nat)) {
    at.0 < |a| && at.1 < |b| && Collide(E, a[at.0], b[at.1])
  }

  /** Hashes are 64 hex digits: computed so, and left alone by a redaction. */
  ghost predicate HashesAreDigests(entries: seq<Entry>) {
    forall i | 0 <= i < |entries| :: IsDigest(entries[i].hash)
  }

  ghost predicate SameEntry(E: Evidence, a: Entry, b: Entry) {
    a.hash == b.hash && SameContent(E, a.content, b.content)
  }

  ghost predicate SameEntries(E: Evidence, a: seq<Entry>, b: seq<Entry>) {
    |a| == |b| && forall i | 0 <= i < |a| :: SameEntry(E, a[i], b[i])
  }

  function FromEnd(entries: seq<Entry>, i: nat): Entry
    requires 1 <= i <= |entries|
  {
    entries[|entries| - i]
  }

  /** The last k entries, pairwise from the end. */
  ghost predicate LastSame(E: Evidence, a: seq<Entry>, b: seq<Entry>, k: nat)
    requires k <= |a| && k <= |b|
  {
    forall i | 1 <= i <= k :: SameEntry(E, FromEnd(a, i), FromEnd(b, i))
  }

  /** The last k entries still hold what their hashes were computed over. */
  ghost predicate LastWhole(E: Evidence, entries: seq<Entry>, k: nat)
    requires k <= |entries|
  {
    forall i | 1 <= i <= k :: IsWhole(E, FromEnd(entries, i))
  }

  ghost predicate IsWhole(E: Evidence, e: Entry) {
    e.redactedAt.None? && E.genuine(e.content.data)
  }

  function Front(entries: seq<Entry>): seq<Entry>
    requires entries != []
  {
    entries[..|entries| - 1]
  }

  function Last(entries: seq<Entry>): Entry
    requires entries != []
  {
    entries[|entries| - 1]
  }

  lemma {:induction false} FrontOfChain(H: Hashing, E: Evidence, entries: seq<Entry>)
    requires EvidenceOk(H, E) && entries != [] && IsChain(H, entries) && HashesAreDigests(entries)
    ensures IsChain(H, Front(entries)) && HashesAreDigests(Front(entries))
    ensures Last(entries).previousHash == Tail(Front(entries))
    ensures Tail(Front(entries)) == GENESIS || IsDigest(Tail(Front(entries)))
    ensures Last(entries).redactedAt.None? ==>
              Last(entries).hash == E.digest(E.covers(Tail(Front(entries)), Last(entries).content))
  {
    ChainPrefix(H, entries, |entries| - 1);
    assert Accepts(H, Tail(entries[..|entries| - 1]), entries[|entries| - 1]);
    assert H.hash(Tail(Front(entries)), Last(entries).content) == E.digest(E.covers(Tail(Front(entries)), Last(entries).content));
  }

  lemma {:induction false} LastAgrees(H: Hashing, E: Evidence, a: seq<Entry>, b: seq<Entry>)
    requires EvidenceOk(H, E) && a != [] && b != [] && Tail(a) == Tail(b)
    requires IsChain(H, a) && IsChain(H, b) && HashesAreDigests(a) && HashesAreDigests(b)
    requires IsWhole(E, Last(a)) && IsWhole(E, Last(b))
    requires !Collide(E, Last(a), Last(b))
    ensures SameEntry(E, Last(a), Last(b)) && Tail(Front(a)) == Tail(Front(b))
  {
    hide EvidenceOk, IsChain, HashesAreDigests, Front, Last;
    FrontOfChain(H, E, a);
    FrontOfChain(H, E, b);
    LastIsTail(a);
    LastIsTail(b);
    EntriesAgree(H, E, Last(a), Last(b));
  }

  lemma {:induction false} LastIsTail(entries: seq<Entry>)
    requires entries != []
    ensures Last(entries).hash == Tail(entries)
  {
  }

  /** One hash, no collision: one predecessor and one content. */
  lemma {:induction false} EntriesAgree(H: Hashing, E: Evidence, a: Entry, b: Entry)
    requires EvidenceOk(H, E) && IsWhole(E, a) && IsWhole(E, b) && !Collide(E, a, b) && a.hash == b.hash
    requires IsLink(a.previousHash) && a.hash == E.digest(E.covers(a.previousHash, a.content))
    requires IsLink(b.previousHash) && b.hash == E.digest(E.covers(b.previousHash, b.content))
    ensures a.previousHash == b.previousHash && SameEntry(E, a, b)
  {
    assert E.covers(a.previousHash, a.content) == E.covers(b.previousHash, b.content);
  }

  lemma {:induction false} OneMoreSame(E: Evidence, a: seq<Entry>, b: seq<Entry>, k: nat)
    requires 0 < k <= |a| && k <= |b|
    requires SameEntry(E, Last(a), Last(b)) && LastSame(E, Front(a), Front(b), k - 1)
    ensures LastSame(E, a, b, k)
  {
    forall i | 1 <= i <= k ensures SameEntry(E, FromEnd(a, i), FromEnd(b, i)) {
      if i > 1 {
        assert FromEnd(a, i) == FromEnd(Front(a), i - 1) && FromEnd(b, i) == FromEnd(Front(b), i - 1);
      }
    }
  }

  lemma {:induction false} OneFewerWhole(E: Evidence, entries: seq<Entry>, k: nat)
    requires 0 < k <= |entries| && LastWhole(E, entries, k)
    ensures IsWhole(E, Last(entries)) && LastWhole(E, Front(entries), k - 1)
    ensures entries[..|entries| - k] == Front(entries)[..|Front(entries)| - (k - 1)]
  {
    assert Last(entries) == FromEnd(entries, 1);
    assert forall i | 1 <= i <= k - 1 :: FromEnd(Front(entries), i) == FromEnd(entries, i + 1);
  }

  lemma {:induction false} StepBack(H: Hashing, E: Evidence, a: seq<Entry>, b: seq<Entry>, k: nat)
    requires EvidenceOk(H, E) && IsChain(H, a) && IsChain(H, b) && HashesAreDigests(a) && HashesAreDigests(b)
    requires 0 < k <= |a| && k <= |b| && Tail(a) == Tail(b)
    requires LastWhole(E, a, k) && LastWhole(E, b, k) && !Collide(E, Last(a), Last(b))
    ensures SameEntry(E, Last(a), Last(b)) && Tail(Front(a)) == Tail(Front(b))
    ensures IsChain(H, Front(a)) && IsChain(H, Front(b))
    ensures HashesAreDigests(Front(a)) && HashesAreDigests(Front(b))
    ensures LastWhole(E, Front(a), k - 1) && LastWhole(E, Front(b), k - 1)
  {
    OneFewerWhole(E, a, k);
    OneFewerWhole(E, b, k);
    LastAgrees(H, E, a, b);
    FrontOfChain(H, E, a);
    FrontOfChain(H, E, b);
  }

  /**
   * Two accepted chains with one head hash agree, from the end, on every entry after
   * their last redacted one -- or `at` names a SHA-256 collision between two entries.
   */
  lemma {:induction false} SuffixAgrees(H: Hashing, E: Evidence, a: seq<Entry>, b: seq<Entry>, k: nat)
    returns (at: Option<(nat, nat)>)
    requires EvidenceOk(H, E) && IsChain(H, a) && IsChain(H, b) && HashesAreDigests(a) && HashesAreDigests(b)
    requires k <= |a| && k <= |b| && Tail(a) == Tail(b)
    requires LastWhole(E, a, k) && LastWhole(E, b, k)
    ensures at.Some? ==> NamesCollision(E, a, b, at.value)
    ensures at.None? ==> LastSame(E, a, b, k)
    ensures at.None? ==> Tail(a[..|a| - k]) == Tail(b[..|b| - k])
    decreases k
  {
    hide IsChain, HashesAreDigests, EvidenceOk;
    if k == 0 {
      at := None;
      assert a[..|a|] == a && b[..|b|] == b;
    } else if Collide(E, Last(a), Last(b)) {
      at := Some((|a| - 1, |b| - 1));
    } else {
      StepBack(H, E, a, b, k);
      at := SuffixAgrees(H, E, Front(a), Front(b), k - 1);
      if at.None? {
        OneMoreSame(E, a, b, k);
        OneFewerWhole(E, a, k);
        OneFewerWhole(E, b, k);
      } else {
        FrontsCollide(E, a, b, at.value);
      }
    }
  }

  lemma {:induction false} FrontsCollide(E: Evidence, a: seq<Entry>, b: seq<Entry>, at: (nat, nat))
    requires a != [] && b != [] && NamesCollision(E, Front(a), Front(b), at)
    ensures NamesCollision(E, a, b, at)
  {
  }

  lemma {:induction false} ComputedHashesAreDigests(H: Hashing, E: Evidence, entries: seq<Entry>)
    requires EvidenceOk(H, E) && IsChain(H, entries) && LastWhole(E, entries, |entries|)
    ensures HashesAreDigests(entries)
  {
    forall i | 0 <= i < |entries| ensures IsDigest(entries[i].hash) {
      assert Accepts(H, Tail(entries[..i]), entries[i]);
      assert entries[i] == FromEnd(entries, |entries| - i);
    }
  }

  lemma {:induction false} AllSame(E: Evidence, a: seq<Entry>, b: seq<Entry>)
    requires |a| == |b| && LastSame(E, a, b, |a|)
    ensures SameEntries(E, a, b)
  {
    forall i | 0 <= i < |a| ensures SameEntry(E, a[i], b[i]) {
      assert a[i] == FromEnd(a, |a| - i) && b[i] == FromEnd(b, |b| - i);
    }
  }

  /** A chain whose first entry names nothing has nothing before it. */
  lemma {:induction false} NothingBefore(a: seq<Entry>, b: seq<Entry>)
    requires HashesAreDigests(a) && HashesAreDigests(b) && Tail(a) == Tail(b)
    ensures a == [] <==> b == []
  {
  }

  lemma {:induction false} PrefixDigests(entries: seq<Entry>, n: nat)
    requires n <= |entries| && HashesAreDigests(entries)
    ensures HashesAreDigests(entries[..n])
  {
  }

  /**
   * Tamper evidence. Two unredacted chains the verifier accepts with one head hash
   * hold the same payloads in the same order, or exhibit a SHA-256 collision.
   */
  lemma {:induction false} HeadHashDecidesChain(
    H: Hashing, E: Evidence, a: seq<Entry>, va: Verification, b: seq<Entry>, vb: Verification)
    returns (at: Option<(nat, nat)>)
    requires EvidenceOk(H, E) && LastWhole(E, a, |a|) && LastWhole(E, b, |b|)
    requires IsVerdict(H, a, va) && va.valid && IsVerdict(H, b, vb) && vb.valid
    requires va.headHash == vb.headHash
    ensures at.Some? ==> NamesCollision(E, a, b, at.value)
    ensures at.None? ==> SameEntries(E, a, b)
  {
    var k := if |a| < |b| then |a| else |b|;
    ComputedHashesAreDigests(H, E, a);
    ComputedHashesAreDigests(H, E, b);
    at := SuffixAgrees(H, E, a, b, k);
    if at.None? {
      PrefixDigests(a, |a| - k);
      PrefixDigests(b, |b| - k);
      NothingBefore(a[..|a| - k], b[..|b| - k]);
      AllSame(E, a, b);
    }
  }
}
