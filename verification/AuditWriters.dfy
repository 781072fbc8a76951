/** Concurrent writers of the log. */
module AuditWriters {
  /**
   * Transactions lock a tenant, read the chain's tail and append, any number of times, then
   * commit or roll back; redactions update one row at a time.
   */

  import opened Common
  import opened JsValues
  import opened AuditEntries
  import opened AuditTable

  /** Where a transaction is inside writeAuditLogInTransaction. */
  datatype Phase =
    | Between
    | Locked(entry: Input)
    | GotTail(entry: Input, previousHash: Text)

  datatype Writer = Writer(phase: Phase, held: set<int>, pending: Table)

  datatype Db = Db(rows: Table, nextSequence: nat, writers: map<nat, Writer>)

  datatype Event =
    | Begin(w: nat)
    | Lock(w: nat, entry: Input)
    | ReadTail(w: nat)
    | Append(w: nat, createdAt: int, stored: Value)
    | Commit(w: nat)
    | Abort(w: nat)
    | Burn
    | Redact(row: nat, at: int)

  /** `sequence` is a 32-bit integer column; past its maximum an insert fails. */
  const MAX_SEQUENCE: nat := 2147483647

  const EMPTY: Db := Db([], 1, map[])

  function AfterLock(d: Db, w: nat, entry: Input, key: int): Db
    requires w in d.writers
  {
    var t := d.writers[w];
    d.(writers := d.writers[w := t.(phase := Locked(entry), held := t.held + {key})])
  }

  /** The tail a transaction sees: committed rows, and its own. */
  function VisibleTail(d: Db, w: nat, tenantId: Text): Text
    requires w in d.writers
  {
    Tail(BySequence(OfTenant(d.rows + d.writers[w].pending, tenantId)))
  }

  function AfterReadTail(d: Db, w: nat): Db
    requires w in d.writers && d.writers[w].phase.Locked?
  {
    var t := d.writers[w];
    var entry := t.phase.entry;
    d.(writers := d.writers[w := t.(phase := GotTail(entry, VisibleTail(d, w, entry.tenantId)))])
  }

  /** The inserted row: hashed over what the caller passed, holding what the column stored. */
  function NewRow(H: Hashing, d: Db, phase: Phase, createdAt: int, stored: Value): Entry
    requires phase.GotTail?
  {
    Entry(d.nextSequence, phase.entry.(data := stored), H.hash(phase.previousHash, phase.entry),
          phase.previousHash, createdAt, None)
  }

  function WithRow(t: Writer, row: Entry): Writer {
    t.(phase := Between, pending := t.pending + [row])
  }

  function AfterAppend(H: Hashing, d: Db, w: nat, createdAt: int, stored: Value): Db
    requires w in d.writers && d.writers[w].phase.GotTail?
  {
    var t := d.writers[w];
    d.(nextSequence := d.nextSequence + 1,
       writers := d.writers[w := WithRow(t, NewRow(H, d, t.phase, createdAt, stored))])
  }

  function AfterCommit(d: Db, w: nat): Db
    requires w in d.writers
  {
    d.(rows := d.rows + d.writers[w].pending, writers := d.writers - {w})
  }

  /** One entry update. A second redactor holds the data it read unredacted: same digest. */
  function RedactedRow(H: Hashing, e: Entry, at: int): Entry
    requires !e.content.data.Undefined?
  {
    e.(content := e.content.(data :=
         if e.redactedAt.None? then H.redact(e.content.data) else e.content.data),
       redactedAt := Some(at))
  }

  /** One step: pg_advisory_xact_lock waits for every other holder of the tenant's key. */
  ghost predicate Step(H: Hashing, LockKey: Text -> int, d: Db, ev: Event, d': Db) {
    match ev
    case Begin(w) => w !in d.writers && d' == d.(writers := d.writers[w := Writer(Between, {}, [])])
    case Lock(w, entry) =>
      && w in d.writers && d.writers[w].phase.Between?
      && (forall v | v in d.writers && v != w :: LockKey(entry.tenantId) !in d.writers[v].held)
      && d' == AfterLock(d, w, entry, LockKey(entry.tenantId))
    case ReadTail(w) => w in d.writers && d.writers[w].phase.Locked? && d' == AfterReadTail(d, w)
    case Append(w, createdAt, stored) =>
      && w in d.writers && d.writers[w].phase.GotTail?
      && d.nextSequence <= MAX_SEQUENCE
      && H.keeps(d.writers[w].phase.entry.data, stored)
      && d' == AfterAppend(H, d, w, createdAt, stored)
    case Commit(w) => w in d.writers && d.writers[w].phase.Between? && d' == AfterCommit(d, w)
    case Abort(w) => w in d.writers && d' == d.(writers := d.writers - {w})
    case Burn => d.nextSequence <= MAX_SEQUENCE && d' == d.(nextSequence := d.nextSequence + 1)
    case Redact(i, at) =>
      && i < |d.rows| && !d.rows[i].content.data.Undefined?
      && d' == d.(rows := d.rows[i := RedactedRow(H, d.rows[i], at)])
  }

  // -------------------------------------------------------------- invariant

  ghost predicate Chained(H: Hashing, rows: Table) {
    forall tenantId :: IsChain(H, OfTenant(rows, tenantId))
  }

  ghost predicate Below(rows: Table, n: nat) {
    forall i | 0 <= i < |rows| :: 1 <= rows[i].sequence < n
  }

  ghost predicate Apart(a: Writer, b: Writer) {
    && a.held !! b.held
    && forall i, j | 0 <= i < |a.pending| && 0 <= j < |b.pending| :: a.pending[i].sequence != b.pending[j].sequence
  }

  ghost predicate Exclusive(d: Db) {
    forall v, w | v in d.writers && w in d.writers && v != w :: Apart(d.writers[v], d.writers[w])
  }

  /** What one transaction may rely on until it ends. */
  ghost predicate WriterOk(H: Hashing, LockKey: Text -> int, d: Db, t: Writer) {
    && (forall i | 0 <= i < |t.pending| :: LockKey(t.pending[i].content.tenantId) in t.held)
    && (!t.phase.Between? ==> LockKey(t.phase.entry.tenantId) in t.held)
    && Below(t.pending, d.nextSequence)
    && DistinctSequences(d.rows + t.pending)
    && VisibleInOrder(d.rows + t.pending)
    && Chained(H, d.rows + t.pending)
    && (t.phase.GotTail? ==> t.phase.previousHash == Tail(OfTenant(d.rows + t.pending, t.phase.entry.tenantId)))
  }

  ghost predicate Inv(H: Hashing, LockKey: Text -> int, d: Db) {
    && 1 <= d.nextSequence <= MAX_SEQUENCE + 1
    && DistinctSequences(d.rows)
    && VisibleInOrder(d.rows)
    && Below(d.rows, d.nextSequence)
    && Chained(H, d.rows)
    && Exclusive(d)
    && forall w | w in d.writers :: WriterOk(H, LockKey, d, d.writers[w])
  }

  lemma {:induction false} InitKeepsInv(H: Hashing, LockKey: Text -> int)
    ensures Inv(H, LockKey, EMPTY)
  {
  }

  lemma {:induction false} AppendKeepsOrder(rows: Table, e: Entry)
    requires VisibleInOrder(rows) && DistinctSequences(rows)
    requires forall i | 0 <= i < |rows| :: rows[i].sequence < e.sequence
    ensures VisibleInOrder(rows + [e]) && DistinctSequences(rows + [e])
  {
  }

  lemma {:induction false} AppendKeepsChains(H: Hashing, rows: Table, e: Entry)
    requires Chained(H, rows) && Accepts(H, Tail(OfTenant(rows, e.content.tenantId)), e)
    ensures Chained(H, rows + [e])
  {
    hide Accepts;
    assert (rows + [e])[..|rows|] == rows;
    forall tenantId ensures IsChain(H, OfTenant(rows + [e], tenantId)) {
      assert IsChain(H, OfTenant(rows, tenantId));
      if tenantId == e.content.tenantId {
        ChainExtends(H, OfTenant(rows, tenantId), e);
      }
    }
  }

  lemma {:induction false} NewRowAccepted(H: Hashing, d: Db, phase: Phase, createdAt: int, stored: Value)
    requires HashingOk(H) && phase.GotTail? && H.keeps(phase.entry.data, stored)
    ensures Accepts(H, phase.previousHash, NewRow(H, d, phase, createdAt, stored))
  {
  }

  // ------------------------------------------------------------- each step

  /** A transaction is not disturbed while the committed rows stay as they are. */
  lemma {:induction false} UndisturbedWriter(H: Hashing, LockKey: Text -> int, d: Db, d': Db, t: Writer)
    requires WriterOk(H, LockKey, d, t) && d'.rows == d.rows && d'.nextSequence >= d.nextSequence
    ensures WriterOk(H, LockKey, d', t)
  {
    hide IsChain, VisibleInOrder;
  }

  /** One transaction moves and the committed rows do not: only its own clause is to show. */
  lemma {:induction false} WriterMoves(H: Hashing, LockKey: Text -> int, d: Db, w: nat, t: Writer, d': Db)
    requires Inv(H, LockKey, d)
    requires d'.rows == d.rows && d.nextSequence <= d'.nextSequence <= MAX_SEQUENCE + 1
    requires d'.writers == d.writers[w := t]
    requires forall v | v in d.writers && v != w :: Apart(d.writers[v], t) && Apart(t, d.writers[v])
    requires WriterOk(H, LockKey, d', t)
    ensures Inv(H, LockKey, d')
  {
    hide Chained, VisibleInOrder, WriterOk;
    forall v | v in d'.writers ensures WriterOk(H, LockKey, d', d'.writers[v]) {
      if v != w {
        UndisturbedWriter(H, LockKey, d, d', d.writers[v]);
      }
    }
  }

  lemma {:induction false} BeginKeepsInv(H: Hashing, LockKey: Text -> int, d: Db, w: nat, d': Db)
    requires Inv(H, LockKey, d) && Step(H, LockKey, d, Begin(w), d')
    ensures Inv(H, LockKey, d')
  {
    hide IsChain, VisibleInOrder;
    assert d.rows + [] == d.rows;
    WriterMoves(H, LockKey, d, w, Writer(Between, {}, []), d');
  }

  lemma {:induction false} LockKeepsInv(H: Hashing, LockKey: Text -> int, d: Db, w: nat, entry: Input, d': Db)
    requires Inv(H, LockKey, d) && Step(H, LockKey, d, Lock(w, entry), d')
    ensures Inv(H, LockKey, d')
  {
    hide Chained, VisibleInOrder;
    assert WriterOk(H, LockKey, d, d.writers[w]);
    WriterMoves(H, LockKey, d, w, d'.writers[w], d');
  }

  lemma {:induction false} VisibleTailIsLast(H: Hashing, LockKey: Text -> int, d: Db, w: nat, tenantId: Text)
    requires Inv(H, LockKey, d) && w in d.writers
    ensures VisibleTail(d, w, tenantId) == Tail(OfTenant(d.rows + d.writers[w].pending, tenantId))
  {
    var rows := d.rows + d.writers[w].pending;
    assert WriterOk(H, LockKey, d, d.writers[w]);
    OfTenantAscending(rows, tenantId);
    BySequenceOfAscending(OfTenant(rows, tenantId));
  }

  lemma {:induction false} ReadTailKeepsInv(H: Hashing, LockKey: Text -> int, d: Db, w: nat, d': Db)
    requires Inv(H, LockKey, d) && Step(H, LockKey, d, ReadTail(w), d')
    ensures Inv(H, LockKey, d')
  {
    VisibleTailIsLast(H, LockKey, d, w, d.writers[w].phase.entry.tenantId);
    hide Chained, VisibleInOrder, VisibleTail;
    assert WriterOk(H, LockKey, d, d.writers[w]);
    WriterMoves(H, LockKey, d, w, d'.writers[w], d');
  }

  lemma {:induction false} GrownRows(H: Hashing, rows: Table, pending: Table, row: Entry)
    requires VisibleInOrder(rows + pending) && DistinctSequences(rows + pending) && Chained(H, rows + pending)
    requires forall i | 0 <= i < |rows + pending| :: (rows + pending)[i].sequence < row.sequence
    requires Accepts(H, Tail(OfTenant(rows + pending, row.content.tenantId)), row)
    ensures VisibleInOrder(rows + (pending + [row])) && Chained(H, rows + (pending + [row]))
    ensures DistinctSequences(rows + (pending + [row]))
  {
    AppendKeepsOrder(rows + pending, row);
    AppendKeepsChains(H, rows + pending, row);
    assert rows + (pending + [row]) == rows + pending + [row];
  }

  lemma {:induction false} GrownWriter(H: Hashing, LockKey: Text -> int, d: Db, d': Db, t: Writer, row: Entry)
    requires WriterOk(H, LockKey, d, t) && 1 <= d.nextSequence && Below(d.rows, d.nextSequence)
    requires row.sequence == d.nextSequence && LockKey(row.content.tenantId) in t.held
    requires Accepts(H, Tail(OfTenant(d.rows + t.pending, row.content.tenantId)), row)
    requires d'.rows == d.rows && d'.nextSequence == d.nextSequence + 1
    ensures WriterOk(H, LockKey, d', WithRow(t, row))
  {
    hide Chained, VisibleInOrder, Accepts, Tail, OfTenant;
    GrownRows(H, d.rows, t.pending, row);
  }

  lemma {:induction false} AppendKeepsOwn(
    H: Hashing, LockKey: Text -> int, d: Db, w: nat, createdAt: int, stored: Value, d': Db)
    requires HashingOk(H) && Inv(H, LockKey, d) && Step(H, LockKey, d, Append(w, createdAt, stored), d')
    ensures WriterOk(H, LockKey, d', d'.writers[w])
  {
    var t := d.writers[w];
    var row := NewRow(H, d, t.phase, createdAt, stored);
    NewRowAccepted(H, d, t.phase, createdAt, stored);
    assert WriterOk(H, LockKey, d, t);
    assert row.content.tenantId == t.phase.entry.tenantId && row.sequence == d.nextSequence;
    hide Chained, VisibleInOrder, Accepts, NewRow, Below;
    GrownWriter(H, LockKey, d, d', t, row);
  }

  lemma {:induction false} AppendKeepsInv(
    H: Hashing, LockKey: Text -> int, d: Db, w: nat, createdAt: int, stored: Value, d': Db)
    requires HashingOk(H) && Inv(H, LockKey, d) && Step(H, LockKey, d, Append(w, createdAt, stored), d')
    ensures Inv(H, LockKey, d')
  {
    AppendKeepsOwn(H, LockKey, d, w, createdAt, stored, d');
    var t := d.writers[w];
    var row := NewRow(H, d, t.phase, createdAt, stored);
    assert row.sequence == d.nextSequence;
    hide Chained, VisibleInOrder, NewRow, IsChain, DistinctSequences;
    forall v | v in d.writers && v != w
      ensures Apart(d.writers[v], WithRow(t, row)) && Apart(WithRow(t, row), d.writers[v])
    {
      assert Apart(d.writers[v], t) && WriterOk(H, LockKey, d, d.writers[v]);
      GrownApart(d.writers[v], t, row);
    }
    hide WriterOk, Apart, Exclusive;
    WriterMoves(H, LockKey, d, w, WithRow(t, row), d');
  }

  /** A sequence just drawn is no other transaction's. */
  lemma {:induction false} GrownApart(v: Writer, t: Writer, row: Entry)
    requires Apart(v, t) && Below(v.pending, row.sequence)
    ensures Apart(v, WithRow(t, row)) && Apart(WithRow(t, row), v)
  {
  }

  lemma {:induction false} OfTenantNone(LockKey: Text -> int, t: Writer, tenantId: Text)
    requires forall i | 0 <= i < |t.pending| :: LockKey(t.pending[i].content.tenantId) in t.held
    requires LockKey(tenantId) !in t.held
    ensures OfTenant(t.pending, tenantId) == []
  {
    if OfTenant(t.pending, tenantId) != [] {
      OfTenantHolds(t.pending, tenantId, OfTenant(t.pending, tenantId)[0]);
    }
  }

  /** Two transactions never hold rows of one tenant. */
  lemma {:induction false} PendingApart(H: Hashing, LockKey: Text -> int, d: Db, v: nat, w: nat, tenantId: Text)
    requires Inv(H, LockKey, d) && v in d.writers && w in d.writers && v != w
    requires LockKey(tenantId) in d.writers[v].held
    ensures OfTenant(d.writers[w].pending, tenantId) == []
  {
    assert WriterOk(H, LockKey, d, d.writers[w]);
    OfTenantNone(LockKey, d.writers[w], tenantId);
  }

  /** Three runs of rows that agree two by two agree together. */
  lemma {:induction false} JoinOrdered(rows: Table, pw: Table, pv: Table)
    requires VisibleInOrder(rows + pw) && VisibleInOrder(rows + pv)
    requires forall i, j | 0 <= i < |pw| && 0 <= j < |pv| :: pw[i].content.tenantId != pv[j].content.tenantId
    ensures VisibleInOrder(rows + pw + pv)
  {
    var all := rows + pw + pv;
    forall i, j | 0 <= i < j < |all| && all[i].content.tenantId == all[j].content.tenantId
      ensures all[i].sequence < all[j].sequence
    {
      if j < |rows| + |pw| {
        assert all[i] == (rows + pw)[i] && all[j] == (rows + pw)[j];
      } else {
        assert all[j] == (rows + pv)[j - |pw|] == pv[j - |rows| - |pw|];
        if i < |rows| {
          assert all[i] == (rows + pv)[i];
        } else if i >= |rows| + |pw| {
          assert all[i] == (rows + pv)[i - |pw|];
        }
      }
    }
  }

  lemma {:induction false} JoinDistinct(rows: Table, pw: Table, pv: Table)
    requires DistinctSequences(rows + pw) && DistinctSequences(rows + pv)
    requires forall i, j | 0 <= i < |pw| && 0 <= j < |pv| :: pw[i].sequence != pv[j].sequence
    ensures DistinctSequences(rows + pw + pv)
  {
    var all := rows + pw + pv;
    forall i, j | 0 <= i < j < |all| ensures all[i].sequence != all[j].sequence {
      if j < |rows| + |pw| {
        assert all[i] == (rows + pw)[i] && all[j] == (rows + pw)[j];
      } else {
        assert all[j] == (rows + pv)[j - |pw|] == pv[j - |rows| - |pw|];
        if i < |rows| {
          assert all[i] == (rows + pv)[i];
        } else if i < |rows| + |pw| {
          assert all[i] == pw[i - |rows|];
        } else {
          assert all[i] == (rows + pv)[i - |pw|];
        }
      }
    }
  }

  lemma {:induction false} CommitKeepsOrder(H: Hashing, LockKey: Text -> int, d: Db, w: nat, v: nat)
    requires Inv(H, LockKey, d) && v in d.writers && w in d.writers && v != w
    ensures VisibleInOrder(d.rows + d.writers[w].pending + d.writers[v].pending)
    ensures DistinctSequences(d.rows + d.writers[w].pending + d.writers[v].pending)
  {
    hide VisibleInOrder, DistinctSequences, Chained;
    assert WriterOk(H, LockKey, d, d.writers[w]) && WriterOk(H, LockKey, d, d.writers[v]);
    assert Apart(d.writers[w], d.writers[v]);
    JoinOrdered(d.rows, d.writers[w].pending, d.writers[v].pending);
    JoinDistinct(d.rows, d.writers[w].pending, d.writers[v].pending);
  }

  lemma {:induction false} CommitKeepsTenant(
    H: Hashing, LockKey: Text -> int, d: Db, w: nat, v: nat, tenantId: Text)
    requires Inv(H, LockKey, d) && v in d.writers && w in d.writers && v != w
    ensures IsChain(H, OfTenant(d.rows + d.writers[w].pending + d.writers[v].pending, tenantId))
    ensures LockKey(tenantId) in d.writers[v].held ==>
              OfTenant(d.rows + d.writers[w].pending + d.writers[v].pending, tenantId)
              == OfTenant(d.rows + d.writers[v].pending, tenantId)
  {
    hide IsChain, VisibleInOrder, Below;
    var (rows, pw, pv) := (d.rows, d.writers[w].pending, d.writers[v].pending);
    assert WriterOk(H, LockKey, d, d.writers[w]) && WriterOk(H, LockKey, d, d.writers[v]);
    assert IsChain(H, OfTenant(rows + pw, tenantId)) && IsChain(H, OfTenant(rows + pv, tenantId));
    OfTenantAppend(rows + pw, pv, tenantId);
    OfTenantAppend(rows, pw, tenantId);
    OfTenantAppend(rows, pv, tenantId);
    var (r, p, q) := (OfTenant(rows, tenantId), OfTenant(pw, tenantId), OfTenant(pv, tenantId));
    if LockKey(tenantId) in d.writers[v].held {
      PendingApart(H, LockKey, d, v, w, tenantId);
      assert r + p + q == r + q;
    } else {
      OfTenantNone(LockKey, d.writers[v], tenantId);
      assert r + p + q == r + p;
    }
  }

  lemma {:induction false} CommitKeepsWriter(H: Hashing, LockKey: Text -> int, d: Db, w: nat, v: nat, d': Db)
    requires Inv(H, LockKey, d) && Step(H, LockKey, d, Commit(w), d') && v in d.writers && v != w
    ensures WriterOk(H, LockKey, d', d'.writers[v])
  {
    hide VisibleInOrder, DistinctSequences, IsChain, OfTenant, Tail, Below;
    var t := d.writers[v];
    assert WriterOk(H, LockKey, d, t);
    CommitKeepsOrder(H, LockKey, d, w, v);
    forall tenantId ensures IsChain(H, OfTenant(d'.rows + t.pending, tenantId)) {
      CommitKeepsTenant(H, LockKey, d, w, v, tenantId);
    }
    if t.phase.GotTail? {
      CommitKeepsTenant(H, LockKey, d, w, v, t.phase.entry.tenantId);
    }
  }

  lemma {:induction false} CommitKeepsInv(H: Hashing, LockKey: Text -> int, d: Db, w: nat, d': Db)
    requires Inv(H, LockKey, d) && Step(H, LockKey, d, Commit(w), d')
    ensures Inv(H, LockKey, d')
  {
    assert WriterOk(H, LockKey, d, d.writers[w]);
    hide IsChain, VisibleInOrder;
    forall v | v in d'.writers ensures WriterOk(H, LockKey, d', d'.writers[v]) {
      CommitKeepsWriter(H, LockKey, d, w, v, d');
    }
  }

  lemma {:induction false} AbortKeepsInv(H: Hashing, LockKey: Text -> int, d: Db, w: nat, d': Db)
    requires Inv(H, LockKey, d) && Step(H, LockKey, d, Abort(w), d')
    ensures Inv(H, LockKey, d')
  {
    hide WriterOk, Chained, VisibleInOrder;
    forall v | v in d'.writers ensures WriterOk(H, LockKey, d', d'.writers[v]) {
      UndisturbedWriter(H, LockKey, d, d', d.writers[v]);
    }
  }

  lemma {:induction false} BurnKeepsInv(H: Hashing, LockKey: Text -> int, d: Db, d': Db)
    requires Inv(H, LockKey, d) && Step(H, LockKey, d, Burn, d')
    ensures Inv(H, LockKey, d')
  {
    hide WriterOk, Chained, VisibleInOrder;
    forall v | v in d'.writers ensures WriterOk(H, LockKey, d', d'.writers[v]) {
      UndisturbedWriter(H, LockKey, d, d', d.writers[v]);
    }
  }

  // -------------------------------------------------------------- redaction

  /** An entry the verifier accepted stays accepted once redacted, at any later time. */
  lemma {:induction false} RedactedStillAccepted(H: Hashing, e: Entry, at: int)
    requires HashingOk(H) && !e.content.data.Undefined?
    ensures StillAccepted(H, e, RedactedRow(H, e, at))
  {
    if e.redactedAt.None? {
    }
  }

  lemma {:induction false} OrderStays(H: Hashing, a: Table, b: Table)
    requires RowsStay(H, a, b) && |a| == |b|
    ensures VisibleInOrder(a) ==> VisibleInOrder(b)
    ensures DistinctSequences(a) ==> DistinctSequences(b)
  {
    forall i | 0 <= i < |a| ensures a[i].sequence == b[i].sequence && a[i].content.tenantId == b[i].content.tenantId {
      assert StillAccepted(H, a[i], b[i]);
      assert a[i].content.(data := Null).tenantId == b[i].content.(data := Null).tenantId;
    }
  }

  lemma {:induction false} TailStays(H: Hashing, a: Table, b: Table, tenantId: Text)
    requires RowsStay(H, a, b) && |a| == |b|
    ensures Tail(OfTenant(b, tenantId)) == Tail(OfTenant(a, tenantId))
    ensures IsChain(H, OfTenant(a, tenantId)) ==> IsChain(H, OfTenant(b, tenantId))
  {
    hide OfTenant, IsChain, Accepts;
    var ta, tb := OfTenant(a, tenantId), OfTenant(b, tenantId);
    OfTenantStays(H, a, b, tenantId);
    OfTenantSameSize(H, a, b, tenantId);
    if ta != [] {
      assert StillAccepted(H, ta[|ta| - 1], tb[|tb| - 1]);
    }
    if IsChain(H, ta) {
      ChainStays(H, ta, tb);
    }
  }

  lemma {:induction false} ChainsStay(H: Hashing, a: Table, b: Table)
    requires RowsStay(H, a, b) && |a| == |b| && Chained(H, a)
    ensures Chained(H, b)
  {
    forall tenantId ensures IsChain(H, OfTenant(b, tenantId)) {
      assert IsChain(H, OfTenant(a, tenantId));
      TailStays(H, a, b, tenantId);
    }
  }

  lemma {:induction false} RedactKeepsWriter(H: Hashing, LockKey: Text -> int, d: Db, rows: Table, t: Writer)
    requires WriterOk(H, LockKey, d, t) && RowsStay(H, d.rows, rows) && |rows| == |d.rows|
    ensures WriterOk(H, LockKey, d.(rows := rows), t)
  {
    var a, b := d.rows + t.pending, rows + t.pending;
    forall i | 0 <= i < |a| ensures StillAccepted(H, a[i], b[i]) {
      if i < |rows| {
        assert StillAccepted(H, d.rows[i], rows[i]);
      }
    }
    OrderStays(H, a, b);
    ChainsStay(H, a, b);
    if t.phase.GotTail? {
      TailStays(H, a, b, t.phase.entry.tenantId);
    }
  }

  lemma {:induction false} RedactKeepsInv(H: Hashing, LockKey: Text -> int, d: Db, i: nat, at: int, d': Db)
    requires HashingOk(H) && Inv(H, LockKey, d) && Step(H, LockKey, d, Redact(i, at), d')
    ensures Inv(H, LockKey, d') && RowsStay(H, d.rows, d'.rows)
  {
    RedactedStillAccepted(H, d.rows[i], at);
    assert RowsStay(H, d.rows, d'.rows);
    OrderStays(H, d.rows, d'.rows);
    ChainsStay(H, d.rows, d'.rows);
    hide IsChain, VisibleInOrder;
    forall v | v in d'.writers ensures WriterOk(H, LockKey, d', d'.writers[v]) {
      assert WriterOk(H, LockKey, d, d.writers[v]);
      RedactKeepsWriter(H, LockKey, d, d'.rows, d.writers[v]);
    }
  }

  // ------------------------------------------------------------- the results

  lemma {:induction false} StepKeepsInv(H: Hashing, LockKey: Text -> int, d: Db, ev: Event, d': Db)
    requires HashingOk(H) && Inv(H, LockKey, d) && Step(H, LockKey, d, ev, d')
    ensures Inv(H, LockKey, d')
  {
    match ev
    case Begin(w) => BeginKeepsInv(H, LockKey, d, w, d');
    case Lock(w, entry) => LockKeepsInv(H, LockKey, d, w, entry, d');
    case ReadTail(w) => ReadTailKeepsInv(H, LockKey, d, w, d');
    case Append(w, createdAt, stored) => AppendKeepsInv(H, LockKey, d, w, createdAt, stored, d');
    case Commit(w) => CommitKeepsInv(H, LockKey, d, w, d');
    case Abort(w) => AbortKeepsInv(H, LockKey, d, w, d');
    case Burn => BurnKeepsInv(H, LockKey, d, d');
    case Redact(i, at) => RedactKeepsInv(H, LockKey, d, i, at, d');
  }

  /** The guarantee readers build on: what is visible stays, and grows upwards per tenant. */
  lemma {:induction false} StepEvolves(H: Hashing, LockKey: Text -> int, d: Db, ev: Event, d': Db)
    requires HashingOk(H) && Inv(H, LockKey, d) && Step(H, LockKey, d, ev, d')
    ensures Evolves(H, d.rows, d'.rows)
  {
    StepKeepsInv(H, LockKey, d, ev, d');
    if ev.Redact? {
      RedactKeepsInv(H, LockKey, d, ev.row, ev.at, d');
    }
  }
}
