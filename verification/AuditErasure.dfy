/** Concurrent erasures. */
module AuditErasure {
  /**
   * Any number of redactors work batch by batch while transactions append and other
   * redactors redact the same rows. A redactor may stop after any statement.
   */

  import opened Common
  import opened JsValues
  import opened AuditEntries
  import opened AuditTable
  import opened AuditRedaction
  import W = AuditWriters

  /** A row to update, and the data it held when its batch was read. */
  datatype Target = Target(row: nat, data: Value)

  datatype Stage =
    | Reading
    | Updating(batch: seq<Target>, next: nat, at: int)
    | Finished

  /**
   * A redactor goes over its scope part by part. `read` holds every row its batches held,
   * `seen` how many rows there were when it began; the program keeps neither.
   */
  datatype Redactor = Redactor(
    scope: Scope, parts: seq<Scope>, part: nat, stage: Stage, redacted: nat, seen: nat, read: set<nat>)

  /** `first` says which redactor was the first to redact a row. */
  datatype Erasures = Erasures(redactors: map<nat, Redactor>, started: set<nat>, first: map<nat, nat>)

  const NO_ERASURES: Erasures := Erasures(map[], {}, map[])

  datatype ErasureEvent =
    | StartErasure(r: nat, scope: Scope, chunks: seq<seq<Text>>)
    | ReadBatch(r: nat, at: int)
    | UpdateNext(r: nat)
    | StopErasure(r: nat)

  /** One part for a whole tenant's models, one per chunk of record ids, none without models. */
  function PartsOf(scope: Scope, chunks: seq<seq<Text>>): seq<Scope> {
    if scope.models == [] then []
    else if scope.recordIds.None? then [scope]
    else seq(|chunks|, i requires 0 <= i < |chunks| => Part(scope, chunks[i]))
  }

  /** The first rows in scope that are not yet redacted, in sequence order. */
  function BatchOf(rows: Table, scope: Scope): (batch: seq<Target>)
    ensures |batch| <= |Pending(rows, scope)|
    ensures batch == [] <==> Pending(rows, scope) == []
    ensures forall k | 0 <= k < |batch| ::
              batch[k].row == Pending(rows, scope)[k] && batch[k].data == rows[batch[k].row].content.data
  {
    var page := Pending(rows, scope);
    var n := if |page| < REDACTION_BATCH_SIZE then |page| else REDACTION_BATCH_SIZE;
    seq(n, k requires 0 <= k < n => Target(page[k], rows[page[k]].content.data))
  }

  function RowsOf(batch: seq<Target>): set<nat> {
    set k | 0 <= k < |batch| :: batch[k].row
  }

  /** An empty batch ends a part, and the last part's the redactor. */
  function AfterRead(rows: Table, t: Redactor, at: int): Redactor
    requires t.stage.Reading? && t.part < |t.parts|
  {
    var batch := BatchOf(rows, t.parts[t.part]);
    if batch == [] then
      t.(part := t.part + 1, stage := if t.part + 1 == |t.parts| then Finished else Reading)
    else t.(stage := Updating(batch, 0, at), read := t.read + RowsOf(batch))
  }

  function AfterUpdate(t: Redactor): Redactor
    requires t.stage.Updating?
  {
    var next := t.stage.next + 1;
    if next >= |t.stage.batch| then t.(stage := Reading, redacted := t.redacted + |t.stage.batch|)
    else t.(stage := Updating(t.stage.batch, next, t.stage.at))
  }

  /** The update as written: over whatever the row holds by now, from the data that was read. */
  function Rewritten(H: Hashing, e: Entry, data: Value, at: int): Entry {
    e.(content := e.content.(data := H.redact(data)), redactedAt := Some(at))
  }

  ghost predicate ErasureStep(H: Hashing, d: W.Db, x: Erasures, ev: ErasureEvent, d': W.Db, x': Erasures) {
    match ev
    case StartErasure(r, scope, chunks) =>
      && r !in x.started && d' == d
      && (scope.recordIds.Some? ==> AreChunks(scope.recordIds.value, RECORD_ID_CHUNK_SIZE, chunks))
      && var parts := PartsOf(scope, chunks);
         var t := Redactor(scope, parts, 0, if parts == [] then Finished else Reading, 0, |d.rows|, {});
         x' == x.(redactors := x.redactors[r := t], started := x.started + {r})
    case ReadBatch(r, at) =>
      && r in x.redactors && d' == d
      && x.redactors[r].stage.Reading? && x.redactors[r].part < |x.redactors[r].parts|
      && x' == x.(redactors := x.redactors[r := AfterRead(d.rows, x.redactors[r], at)])
    case UpdateNext(r) =>
      && r in x.redactors && x.redactors[r].stage.Updating?
      && x.redactors[r].stage.next < |x.redactors[r].stage.batch|
      && var t := x.redactors[r];
         var target := t.stage.batch[t.stage.next];
         && target.row < |d.rows|
         && d' == d.(rows := d.rows[target.row := Rewritten(H, d.rows[target.row], target.data, t.stage.at)])
         && x' == x.(redactors := x.redactors[r := AfterUpdate(t)],
                     first := if d.rows[target.row].redactedAt.None? then x.first[target.row := r] else x.first)
    case StopErasure(r) => r in x.redactors && d' == d && x' == x.(redactors := x.redactors - {r})
  }

  // ------------------------------------------------------------- invariant

  /** Rows not yet committed were never redacted, and every row has data. */
  ghost predicate FreshRows(d: W.Db) {
    && (forall i | 0 <= i < |d.rows| :: !d.rows[i].content.data.Undefined?)
    && forall w | w in d.writers :: AllFresh(d.writers[w].pending)
  }

  ghost predicate AllFresh(rows: Table) {
    forall i | 0 <= i < |rows| :: !rows[i].content.data.Undefined? && rows[i].redactedAt.None?
  }

  ghost predicate Tracked(rows: Table, first: map<nat, nat>) {
    forall i: nat :: i in first <==> i < |rows| && rows[i].redactedAt.Some?
  }

  /** A target's row holds what was read, or what became of just that. */
  ghost predicate TargetOk(H: Hashing, rows: Table, target: Target) {
    && target.row < |rows| && !target.data.Undefined?
    && rows[target.row].content.data
       == (if rows[target.row].redactedAt.Some? then H.redact(target.data) else target.data)
  }

  /** What a redactor has read and not yet updated. */
  ghost predicate Remains(t: Redactor, i: nat) {
    t.stage.Updating? && exists k :: t.stage.next <= k < |t.stage.batch| && t.stage.batch[k].row == i
  }

  ghost predicate BatchOk(H: Hashing, rows: Table, t: Redactor) {
    t.stage.Updating? ==>
      var batch := t.stage.batch;
      && t.stage.next < |batch|
      && (forall j, k | 0 <= j < k < |batch| :: batch[j].row != batch[k].row)
      && (forall k | 0 <= k < |batch| :: batch[k].row in t.read)
      && forall k | t.stage.next <= k < |batch| :: TargetOk(H, rows, batch[k])
  }

  ghost predicate ReadOk(rows: Table, t: Redactor) {
    && (forall i | i in t.read :: i < |rows| && InScope(t.scope, rows[i]))
    && (forall i | i in t.read && !Remains(t, i) :: rows[i].redactedAt.Some?)
    && |t.read| == t.redacted + (if t.stage.Updating? then |t.stage.batch| else 0)
  }

  /** The parts are the scope: they hold together what it holds. */
  ghost predicate Covering(scope: Scope, parts: seq<Scope>) {
    forall e :: InScope(scope, e) <==> exists p :: 0 <= p < |parts| && InScope(parts[p], e)
  }

  ghost predicate PartsOk(rows: Table, t: Redactor) {
    && t.part <= |t.parts| && (t.part == |t.parts| <==> t.stage.Finished?)
    && Covering(t.scope, t.parts)
    && t.seen <= |rows|
    && forall p, i | 0 <= p < t.part && 0 <= i < t.seen :: !IsPending(t.parts[p], rows[i])
  }

  ghost predicate RedactorOk(H: Hashing, rows: Table, x: Erasures, r: nat)
    requires r in x.redactors
  {
    var t := x.redactors[r];
    && r in x.started
    && PartsOk(rows, t) && BatchOk(H, rows, t) && ReadOk(rows, t)
    && forall i | i in x.first && x.first[i] == r :: i in t.read
  }

  ghost predicate ErasuresOk(H: Hashing, d: W.Db, x: Erasures) {
    && FreshRows(d)
    && Tracked(d.rows, x.first)
    && (forall i | i in x.first :: x.first[i] in x.started)
    && forall r | r in x.redactors :: RedactorOk(H, d.rows, x, r)
  }

  lemma {:induction false} NoErasuresOk(H: Hashing)
    ensures ErasuresOk(H, W.EMPTY, NO_ERASURES)
  {
  }

  // ------------------------------------------------------- rows that are kept

  /** To redactors a row stays: its scope never changes, nor does it once redacted. */
  ghost predicate SameScope(was: Entry, now: Entry) {
    && now.content.(data := Null) == was.content.(data := Null)
    && (was.redactedAt.Some? ==> now.redactedAt.Some?)
  }

  ghost predicate ScopesStay(a: Table, b: Table) {
    |a| <= |b| && forall i | 0 <= i < |a| :: SameScope(a[i], b[i])
  }

  lemma {:induction false} SameScopeIn(scope: Scope, was: Entry, now: Entry)
    requires SameScope(was, now)
    ensures InScope(scope, was) <==> InScope(scope, now)
    ensures IsPending(scope, now) ==> IsPending(scope, was)
  {
    assert was.content.(data := Null).tenantId == now.content.(data := Null).tenantId;
    assert was.content.(data := Null).model == now.content.(data := Null).model;
    assert was.content.(data := Null).recordId == now.content.(data := Null).recordId;
  }

  lemma {:induction false} PartsStay(a: Table, b: Table, t: Redactor)
    requires ScopesStay(a, b) && PartsOk(a, t)
    ensures PartsOk(b, t)
  {
    hide Covering, IsPending, SameScope;
    forall p, i | 0 <= p < t.part && 0 <= i < t.seen ensures !IsPending(t.parts[p], b[i]) {
      SameScopeIn(t.parts[p], a[i], b[i]);
    }
  }

  lemma {:induction false} ReadStays(a: Table, b: Table, t: Redactor)
    requires ScopesStay(a, b) && ReadOk(a, t)
    ensures ReadOk(b, t)
  {
    hide InScope, Remains;
    forall i | i in t.read ensures InScope(t.scope, b[i]) {
      SameScopeIn(t.scope, a[i], b[i]);
    }
    forall i | i in t.read && !Remains(t, i) ensures b[i].redactedAt.Some? {
      assert SameScope(a[i], b[i]);
    }
  }

  // ------------------------------------------------------ what writers do

  /** Writers only append rows that are not redacted. */
  lemma {:induction false} WritersOnlyAppend(
    H: Hashing, LockKey: Text -> int, d: W.Db, ev: W.Event, d': W.Db)
    requires HashingOk(H) && FreshRows(d) && W.Step(H, LockKey, d, ev, d') && !ev.Redact?
    ensures d.rows <= d'.rows && AllFresh(d'.rows[|d.rows|..]) && FreshRows(d')
  {
    if ev.Append? {
      var row := W.NewRow(H, d, d.writers[ev.w].phase, ev.createdAt, ev.stored);
      assert AllFresh(W.WithRow(d.writers[ev.w], row).pending);
    } else if ev.Commit? {
      assert d'.rows[|d.rows|..] == d.writers[ev.w].pending;
    } else {
      assert d'.rows[|d.rows|..] == [];
    }
  }

  lemma {:induction false} WritingKeepsErasures(
    H: Hashing, LockKey: Text -> int, d: W.Db, ev: W.Event, d': W.Db, x: Erasures)
    requires HashingOk(H) && ErasuresOk(H, d, x) && W.Step(H, LockKey, d, ev, d') && !ev.Redact?
    ensures ErasuresOk(H, d', x)
  {
    hide W.Step, HashingOk, FreshRows, PartsOk, ReadOk;
    WritersOnlyAppend(H, LockKey, d, ev, d');
    var more := d'.rows[|d.rows|..];
    forall i: nat | |d.rows| <= i < |d'.rows| ensures d'.rows[i].redactedAt.None? {
      assert d'.rows[i] == more[i - |d.rows|];
    }
    assert ScopesStay(d.rows, d'.rows);
    forall r | r in x.redactors ensures RedactorOk(H, d'.rows, x, r) {
      assert RedactorOk(H, d.rows, x, r);
      PartsStay(d.rows, d'.rows, x.redactors[r]);
      ReadStays(d.rows, d'.rows, x.redactors[r]);
    }
  }

  // --------------------------------------------------------- own steps

  lemma {:induction false} PartsCover(scope: Scope, chunks: seq<seq<Text>>)
    requires scope.recordIds.Some? ==> AreChunks(scope.recordIds.value, RECORD_ID_CHUNK_SIZE, chunks)
    ensures Covering(scope, PartsOf(scope, chunks))
  {
    var parts := PartsOf(scope, chunks);
    forall e ensures InScope(scope, e) <==> exists p :: 0 <= p < |parts| && InScope(parts[p], e) {
      if scope.models != [] && scope.recordIds.None? {
        assert parts[0] == scope;
      } else if scope.models != [] && e.content.recordId.Some? {
        var id := e.content.recordId.value;
        FlattenHolds(chunks, id);
        if p :| 0 <= p < |chunks| && id in chunks[p] {
          assert InScope(scope, e) <==> InScope(parts[p], e);
        }
      }
    }
  }

  lemma {:induction false} FlattenHolds<T>(parts: seq<seq<T>>, item: T)
    ensures item in Flatten(parts) <==> exists p :: 0 <= p < |parts| && item in parts[p]
  {
    if parts != [] {
      var front, last := parts[..|parts| - 1], |parts| - 1;
      FlattenHolds(front, item);
      if p :| 0 <= p < |front| && item in front[p] {
        assert item in parts[p];
      }
      if p :| 0 <= p < |parts| && item in parts[p] {
        assert p < last ==> item in front[p];
      }
    }
  }

  lemma {:induction false} StartKeepsOk(H: Hashing, d: W.Db, x: Erasures, ev: ErasureEvent, d': W.Db, x': Erasures)
    requires ErasuresOk(H, d, x) && ErasureStep(H, d, x, ev, d', x') && ev.StartErasure?
    ensures ErasuresOk(H, d', x')
  {
    hide FreshRows, Tracked, BatchOk, Covering, AreChunks;
    PartsCover(ev.scope, ev.chunks);
    forall r | r in x'.redactors ensures RedactorOk(H, d'.rows, x', r) {
      if r == ev.r {
        assert BatchOk(H, d'.rows, x'.redactors[r]) by { NoBatchOk(H, d'.rows, x'.redactors[r]); }
      } else {
        assert RedactorOk(H, d.rows, x, r);
      }
    }
  }

  lemma {:induction false} NoBatchOk(H: Hashing, rows: Table, t: Redactor)
    requires !t.stage.Updating?
    ensures BatchOk(H, rows, t)
  {
  }

  lemma {:induction false} RowsRise(rows: Table, scope: Scope)
    ensures var batch := BatchOf(rows, scope);
            forall j, k | 0 <= j < k < |batch| :: batch[j].row < batch[k].row
  {
    var batch := BatchOf(rows, scope);
    PendingRises(rows, scope);
    forall j, k | 0 <= j < k < |batch| ensures batch[j].row < batch[k].row {
      assert Pending(rows, scope)[j] < Pending(rows, scope)[k];
    }
  }

  /** A batch's rows are in scope, not redacted, and each there once. */
  lemma {:induction false} BatchIsPending(H: Hashing, rows: Table, scope: Scope)
    requires forall i | 0 <= i < |rows| :: !rows[i].content.data.Undefined?
    ensures var batch := BatchOf(rows, scope);
            && (forall k | 0 <= k < |batch| :: IsPending(scope, rows[batch[k].row]) && TargetOk(H, rows, batch[k]))
            && (forall j, k | 0 <= j < k < |batch| :: batch[j].row != batch[k].row)
            && |RowsOf(batch)| == |batch|
  {
    hide IsPending;
    PendingRises(rows, scope);
    var batch := BatchOf(rows, scope);
    forall k | 0 <= k < |batch| ensures IsPending(scope, rows[batch[k].row]) {
      PendingHolds(rows, scope, batch[k].row);
    }
    assert forall k | 0 <= k < |batch| :: rows[batch[k].row].redactedAt.None? by { RevealPending(rows, scope, batch); }
    RowsRise(rows, scope);
    RowsOfDistinct(batch);
  }

  lemma {:induction false} RevealPending(rows: Table, scope: Scope, batch: seq<Target>)
    requires forall k | 0 <= k < |batch| :: batch[k].row < |rows| && IsPending(scope, rows[batch[k].row])
    ensures forall k | 0 <= k < |batch| :: rows[batch[k].row].redactedAt.None? && InScope(scope, rows[batch[k].row])
  {
  }

  lemma {:induction false} RowsOfSnoc(front: seq<Target>, last: Target)
    ensures RowsOf(front + [last]) == RowsOf(front) + {last.row}
  {
    var batch := front + [last];
    forall i ensures i in RowsOf(batch) <==> i in RowsOf(front) || i == last.row {
      if i in RowsOf(batch) {
        var k :| 0 <= k < |batch| && batch[k].row == i;
        assert k < |front| ==> front[k].row == i;
      }
      if i in RowsOf(front) {
        var k :| 0 <= k < |front| && front[k].row == i;
        assert batch[k].row == i;
      }
      assert batch[|front|].row == last.row;
    }
  }

  lemma {:induction false} RowsOfDistinct(batch: seq<Target>)
    requires forall j, k | 0 <= j < k < |batch| :: batch[j].row != batch[k].row
    ensures |RowsOf(batch)| == |batch|
  {
    if batch != [] {
      var front, last := batch[..|batch| - 1], batch[|batch| - 1];
      RowsOfDistinct(front);
      RowsOfSnoc(front, last);
      assert batch == front + [last];
      assert last.row !in RowsOf(front);
      hide RowsOf;
    }
  }


  lemma {:induction false} EmptyReadKeeps(H: Hashing, rows: Table, t: Redactor, at: int)
    requires t.stage.Reading? && t.part < |t.parts| && PartsOk(rows, t) && ReadOk(rows, t)
    requires BatchOf(rows, t.parts[t.part]) == []
    ensures var now := AfterRead(rows, t, at);
            PartsOk(rows, now) && ReadOk(rows, now) && BatchOk(H, rows, now) && t.read <= now.read
  {
    hide Covering, IsPending, InScope;
    var now := AfterRead(rows, t, at);
    NothingPending(rows, t.parts[t.part]);
    assert forall i :: Remains(now, i) <==> Remains(t, i);
  }

  /** A row read was never read before: what was read before is redacted. */
  lemma {:induction false} MoreIsRead(rows: Table, t: Redactor, batch: seq<Target>, at: int)
    requires t.stage.Reading? && ReadOk(rows, t) && batch != [] && |RowsOf(batch)| == |batch|
    requires forall k | 0 <= k < |batch| ::
               batch[k].row < |rows| && rows[batch[k].row].redactedAt.None? && InScope(t.scope, rows[batch[k].row])
    ensures ReadOk(rows, t.(stage := Updating(batch, 0, at), read := t.read + RowsOf(batch)))
  {
    hide InScope;
    var now := t.(stage := Updating(batch, 0, at), read := t.read + RowsOf(batch));
    assert RowsOf(batch) !! t.read by {
      forall i | i in RowsOf(batch) ensures i !in t.read {
        assert !Remains(t, i);
      }
    }
    forall i | i in RowsOf(batch) ensures Remains(now, i) {
      var k :| 0 <= k < |batch| && batch[k].row == i;
    }
    forall i | i in t.read ensures rows[i].redactedAt.Some? {
      assert !Remains(t, i);
    }
  }

  lemma {:induction false} BatchIsOk(H: Hashing, rows: Table, t: Redactor, batch: seq<Target>, at: int)
    requires batch != []
    requires forall k | 0 <= k < |batch| :: TargetOk(H, rows, batch[k])
    requires forall j, k | 0 <= j < k < |batch| :: batch[j].row != batch[k].row
    ensures BatchOk(H, rows, t.(stage := Updating(batch, 0, at), read := t.read + RowsOf(batch)))
  {
    hide TargetOk;
  }

  lemma {:induction false} ReadKeepsRedactor(H: Hashing, rows: Table, t: Redactor, at: int)
    requires forall i | 0 <= i < |rows| :: !rows[i].content.data.Undefined?
    requires t.stage.Reading? && t.part < |t.parts| && PartsOk(rows, t) && ReadOk(rows, t)
    ensures var now := AfterRead(rows, t, at);
            PartsOk(rows, now) && ReadOk(rows, now) && BatchOk(H, rows, now) && t.read <= now.read
  {
    hide IsPending, InScope, TargetOk, Covering, ReadOk, BatchOk, RowsOf;
    var scope := t.parts[t.part];
    var batch := BatchOf(rows, scope);
    BatchIsPending(H, rows, scope);
    if batch == [] {
      EmptyReadKeeps(H, rows, t, at);
    } else {
      RevealPending(rows, scope, batch);
      forall k | 0 <= k < |batch| ensures InScope(t.scope, rows[batch[k].row]) {
        CoveredBy(t.scope, t.parts, t.part, rows[batch[k].row]);
      }
      MoreIsRead(rows, t, batch, at);
      BatchIsOk(H, rows, t, batch, at);
    }
  }

  lemma {:induction false} CoveredBy(scope: Scope, parts: seq<Scope>, p: nat, e: Entry)
    requires Covering(scope, parts) && p < |parts| && InScope(parts[p], e)
    ensures InScope(scope, e)
  {
    hide InScope;
  }

  lemma {:induction false} ReadKeepsOk(H: Hashing, d: W.Db, x: Erasures, ev: ErasureEvent, d': W.Db, x': Erasures)
    requires ErasuresOk(H, d, x) && ErasureStep(H, d, x, ev, d', x') && ev.ReadBatch?
    ensures ErasuresOk(H, d', x')
  {
    hide Tracked, BatchOk, PartsOk, ReadOk, AfterRead;
    assert RedactorOk(H, d.rows, x, ev.r);
    ReadKeepsRedactor(H, d.rows, x.redactors[ev.r], ev.at);
    forall r | r in x'.redactors ensures RedactorOk(H, d'.rows, x', r) {
      assert RedactorOk(H, d.rows, x, r);
    }
  }

  /**
   * The update writes what it read, redacted. If another redactor got there first it writes
   * the same data again: in either case it is one redaction of the row as it is.
   */
  lemma {:induction false} UpdateIsRedaction(H: Hashing, rows: Table, target: Target, at: int)
    requires TargetOk(H, rows, target) && !rows[target.row].content.data.Undefined?
    ensures Rewritten(H, rows[target.row], target.data, at) == W.RedactedRow(H, rows[target.row], at)
  {
  }

  lemma {:induction false} StepIsRedaction(
    H: Hashing, LockKey: Text -> int, d: W.Db, x: Erasures, ev: ErasureEvent, d': W.Db, x': Erasures)
    requires ErasuresOk(H, d, x) && ErasureStep(H, d, x, ev, d', x')
    ensures if ev.UpdateNext? then
              var t := x.redactors[ev.r];
              W.Step(H, LockKey, d, W.Redact(t.stage.batch[t.stage.next].row, t.stage.at), d')
            else d' == d
  {
    if ev.UpdateNext? {
      hide PartsOk, ReadOk, BatchOk, Tracked, AfterUpdate, TargetOk, Rewritten, W.RedactedRow;
      var t := x.redactors[ev.r];
      assert RedactorOk(H, d.rows, x, ev.r);
      NextInBatch(H, d.rows, t);
      UpdateIsRedaction(H, d.rows, t.stage.batch[t.stage.next], t.stage.at);
    }
  }

  /** Another redactor's update of a target leaves it what became of the data read. */
  lemma {:induction false} TargetStays(H: Hashing, rows: Table, done: Target, at: int, target: Target)
    requires TargetOk(H, rows, done) && TargetOk(H, rows, target)
    ensures TargetOk(H, rows[done.row := Rewritten(H, rows[done.row], done.data, at)], target)
  {
  }

  lemma {:induction false} BatchStays(H: Hashing, rows: Table, done: Target, at: int, t: Redactor)
    requires TargetOk(H, rows, done) && BatchOk(H, rows, t)
    ensures BatchOk(H, rows[done.row := Rewritten(H, rows[done.row], done.data, at)], t)
  {
    assert done.row < |rows|;
    hide TargetOk, Rewritten;
    if t.stage.Updating? {
      forall k | t.stage.next <= k < |t.stage.batch|
        ensures TargetOk(H, rows[done.row := Rewritten(H, rows[done.row], done.data, at)], t.stage.batch[k])
      {
        TargetStays(H, rows, done, at, t.stage.batch[k]);
      }
    }
  }

  /** The updating redactor itself: one row fewer remains, and that one is redacted. */
  lemma {:induction false} UpdatedRedactor(H: Hashing, rows: Table, t: Redactor)
    requires t.stage.Updating? && PartsOk(rows, t) && BatchOk(H, rows, t) && t.stage.next < |t.stage.batch|
    requires t.stage.batch[t.stage.next].row < |rows| && rows[t.stage.batch[t.stage.next].row].redactedAt.Some?
    requires ReadOk(rows, t)
    ensures PartsOk(rows, AfterUpdate(t)) && BatchOk(H, rows, AfterUpdate(t)) && ReadOk(rows, AfterUpdate(t))
    ensures AfterUpdate(t).read == t.read
  {
    hide Covering, IsPending, InScope, TargetOk;
    var now := AfterUpdate(t);
    forall i | i in t.read && !Remains(now, i) ensures rows[i].redactedAt.Some? {
      if Remains(t, i) {
        var k :| t.stage.next <= k < |t.stage.batch| && t.stage.batch[k].row == i;
        assert k == t.stage.next;
      }
    }
  }

  /** One update, as any redactor finds it. */
  lemma {:induction false} UpdateKeepsRedactor(
    H: Hashing, rows: Table, now: Table, done: Target, at: int, t: Redactor)
    requires TargetOk(H, rows, done) && now == rows[done.row := Rewritten(H, rows[done.row], done.data, at)]
    requires PartsOk(rows, t) && BatchOk(H, rows, t) && ReadOk(rows, t)
    ensures PartsOk(now, t) && BatchOk(H, now, t) && ReadOk(now, t)
  {
    BatchStays(H, rows, done, at, t);
    assert ScopesStay(rows, now);
    hide PartsOk, BatchOk, ReadOk, TargetOk, Rewritten, ScopesStay;
    PartsStay(rows, now, t);
    ReadStays(rows, now, t);
  }

  lemma {:induction false} UpdateKeepsRows(H: Hashing, d: W.Db, done: Target, at: int, d': W.Db, x: Erasures, r: nat)
    requires HashingOk(H) && FreshRows(d) && Tracked(d.rows, x.first) && TargetOk(H, d.rows, done)
    requires d' == d.(rows := d.rows[done.row := Rewritten(H, d.rows[done.row], done.data, at)])
    ensures FreshRows(d') && d'.rows[done.row].redactedAt.Some?
    ensures Tracked(d'.rows, if d.rows[done.row].redactedAt.None? then x.first[done.row := r] else x.first)
  {
  }

  lemma {:induction false} RedactorGives(H: Hashing, rows: Table, x: Erasures, r: nat)
    requires r in x.redactors && RedactorOk(H, rows, x, r)
    ensures PartsOk(rows, x.redactors[r]) && BatchOk(H, rows, x.redactors[r]) && ReadOk(rows, x.redactors[r])
    ensures r in x.started
  {
  }

  lemma {:induction false} FirstIsRead(
    H: Hashing, rows: Table, now: Table, x: Erasures, x': Erasures, k: nat, i: nat, r: nat)
    requires k in x.redactors && k in x'.redactors && RedactorOk(H, rows, x, k)
    requires x'.first == x.first || x'.first == x.first[i := r]
    requires x'.started == x.started && x'.redactors[k].read == x.redactors[k].read
    requires k == r ==> i in x.redactors[k].read
    requires PartsOk(now, x'.redactors[k]) && BatchOk(H, now, x'.redactors[k]) && ReadOk(now, x'.redactors[k])
    ensures RedactorOk(H, now, x', k)
  {
    hide PartsOk, BatchOk, ReadOk;
  }

  /** Each redactor as the update leaves it. */
  lemma {:induction false} UpdateKeepsEach(H: Hashing, d: W.Db, x: Erasures, r: nat, d': W.Db, x': Erasures, k: nat)
    requires ErasuresOk(H, d, x) && ErasureStep(H, d, x, UpdateNext(r), d', x') && k in x'.redactors
    ensures RedactorOk(H, d'.rows, x', k)
  {
    var t := x.redactors[r];
    var target := t.stage.batch[t.stage.next];
    hide PartsOk, BatchOk, ReadOk, TargetOk, Rewritten, FreshRows, Tracked, AfterUpdate, RedactorOk;
    RedactorGives(H, d.rows, x, r);
    RedactorGives(H, d.rows, x, k);
    NextInBatch(H, d.rows, t);
    UpdateKeepsRedactor(H, d.rows, d'.rows, target, t.stage.at, x.redactors[k]);
    if k == r {
      assert d'.rows[target.row].redactedAt.Some? by { RewrittenIsRedacted(H, d.rows[target.row], target.data, t.stage.at); }
      UpdatedRedactor(H, d'.rows, t);
    }
    FirstIsRead(H, d.rows, d'.rows, x, x', k, target.row, r);
  }

  lemma {:induction false} RewrittenIsRedacted(H: Hashing, e: Entry, data: Value, at: int)
    ensures Rewritten(H, e, data, at).redactedAt == Some(at)
  {
  }

  lemma {:induction false} UpdateKeepsOk(H: Hashing, d: W.Db, x: Erasures, r: nat, d': W.Db, x': Erasures)
    requires HashingOk(H) && ErasuresOk(H, d, x) && ErasureStep(H, d, x, UpdateNext(r), d', x')
    ensures ErasuresOk(H, d', x')
  {
    var t := x.redactors[r];
    var target := t.stage.batch[t.stage.next];
    hide PartsOk, BatchOk, ReadOk, TargetOk, HashingOk, Rewritten, FreshRows, Tracked, AfterUpdate, RedactorOk;
    RedactorGives(H, d.rows, x, r);
    NextInBatch(H, d.rows, t);
    UpdateKeepsRows(H, d, target, t.stage.at, d', x, r);
    forall k | k in x'.redactors ensures RedactorOk(H, d'.rows, x', k) {
      UpdateKeepsEach(H, d, x, r, d', x', k);
    }
  }

  lemma {:induction false} NextInBatch(H: Hashing, rows: Table, t: Redactor)
    requires t.stage.Updating? && BatchOk(H, rows, t)
    ensures t.stage.next < |t.stage.batch| && t.stage.batch[t.stage.next].row in t.read
    ensures TargetOk(H, rows, t.stage.batch[t.stage.next])
  {
  }

  lemma {:induction false} ErasureStepKeepsOk(
    H: Hashing, d: W.Db, x: Erasures, ev: ErasureEvent, d': W.Db, x': Erasures)
    requires HashingOk(H) && ErasuresOk(H, d, x) && ErasureStep(H, d, x, ev, d', x')
    ensures ErasuresOk(H, d', x')
  {
    match ev
    case StartErasure(r, scope, chunks) => StartKeepsOk(H, d, x, ev, d', x');
    case ReadBatch(r, at) => ReadKeepsOk(H, d, x, ev, d', x');
    case UpdateNext(r) => UpdateKeepsOk(H, d, x, r, d', x');
    case StopErasure(r) =>
      hide FreshRows, Tracked, PartsOk, BatchOk, ReadOk;
      forall k | k in x'.redactors ensures RedactorOk(H, d'.rows, x', k) {
        assert RedactorOk(H, d.rows, x, k);
      }
  }

  // -------------------------------------------------------------- results

  /** The rows a redactor was the first to redact. */
  function NewlyRedacted(x: Erasures, r: nat): set<nat> {
    set i | i in x.first && x.first[i] == r
  }

  /**
   * What a finished redactor did, whoever else was at work. No row in scope that was there
   * when it began is left unredacted, and what it newly redacted is in scope. It counts the
   * rows it read, each once: the rows newly redacted exactly when no other redactor took one
   * of them in between.
   */
  ghost predicate ErasedExactly(rows: Table, x: Erasures, r: nat)
    requires r in x.redactors
  {
    var t := x.redactors[r];
    && (forall i | 0 <= i < t.seen && i < |rows| :: !IsPending(t.scope, rows[i]))
    && NewlyRedacted(x, r) <= t.read && |t.read| == t.redacted
    && (forall i | i in t.read :: i < |rows| && InScope(t.scope, rows[i]) && i in x.first)
    && (t.redacted == |NewlyRedacted(x, r)| <==> forall i | i in t.read :: i in x.first && x.first[i] == r)
  }

  lemma {:induction false} FinishedErasedExactly(H: Hashing, d: W.Db, x: Erasures, r: nat)
    requires ErasuresOk(H, d, x) && r in x.redactors && x.redactors[r].stage.Finished?
    ensures ErasedExactly(d.rows, x, r)
  {
    var t := x.redactors[r];
    assert RedactorOk(H, d.rows, x, r);
    forall i | 0 <= i < t.seen && i < |d.rows| ensures !IsPending(t.scope, d.rows[i]) {
      if InScope(t.scope, d.rows[i]) {
        var p :| 0 <= p < |t.parts| && InScope(t.parts[p], d.rows[i]);
        assert !IsPending(t.parts[p], d.rows[i]);
      }
    }
    hide IsPending, InScope, FreshRows, BatchOk;
    forall i | i in t.read ensures i in x.first {
      assert !Remains(t, i);
    }
    hide PartsOk, ReadOk, Tracked;
    OwnExactly(x, r, t.read);
  }

  lemma {:induction false} OwnExactly(x: Erasures, r: nat, read: set<nat>)
    requires (forall i | i in read :: i in x.first) && NewlyRedacted(x, r) <= read
    ensures |read| == |NewlyRedacted(x, r)| <==> forall i | i in read :: x.first[i] == r
  {
    var own := NewlyRedacted(x, r);
    if forall i | i in read :: x.first[i] == r {
      assert own == read;
    }
    if |own| == |read| {
      SameSize(own, read);
      assert forall i | i in read :: i in own;
    }
  }

  lemma {:induction false} SameSize(a: set<nat>, b: set<nat>)
    requires a <= b && |a| == |b|
    ensures a == b
  {
    assert b == a + (b - a);
  }

  /**
   * By example: two redactors read one row before either updates it. Both count it, though
   * only the first to update it newly redacts it.
   */
  lemma {:induction false} BothCount(H: Hashing, d: W.Db, scope: Scope) returns (last: W.Db, x: seq<Erasures>)
    requires |d.rows| == 1 && IsPending(scope, d.rows[0]) && scope.recordIds.None?
    ensures |x| == 7 && x[0] == NO_ERASURES
    ensures ErasureStep(H, d, x[0], StartErasure(0, scope, []), d, x[1])
    ensures ErasureStep(H, d, x[1], StartErasure(1, scope, []), d, x[2])
    ensures ErasureStep(H, d, x[2], ReadBatch(0, 0), d, x[3]) && ErasureStep(H, d, x[3], ReadBatch(1, 0), d, x[4])
    ensures exists mid :: ErasureStep(H, d, x[4], UpdateNext(0), mid, x[5]) && ErasureStep(H, mid, x[5], UpdateNext(1), last, x[6])
    ensures x[6].redactors.Keys == {0, 1} && x[6].redactors[0].redacted == 1 && x[6].redactors[1].redacted == 1
    ensures NewlyRedacted(x[6], 0) == {0} && NewlyRedacted(x[6], 1) == {}
  {
    var begun := Redactor(scope, [scope], 0, Reading, 0, 1, {});
    var data, e := d.rows[0].content.data, d.rows[0];
    var batch := [Target(0, data)];
    OnlyRow(d.rows, scope);
    var read := begun.(stage := Updating(batch, 0, 0), read := {0});
    var done := read.(stage := Reading, redacted := 1);
    var mid := d.(rows := [Rewritten(H, e, data, 0)]);
    last := d.(rows := [Rewritten(H, mid.rows[0], data, 0)]);
    hide IsPending, InScope, Pending;
    assert RowsOf(batch) == {0} by { assert batch[0].row == 0; }
    assert AfterRead(d.rows, begun, 0) == read;
    assert AfterUpdate(read) == done;
    x := [
      NO_ERASURES,
      Erasures(map[0 := begun], {0}, map[]),
      Erasures(map[0 := begun, 1 := begun], {0, 1}, map[]),
      Erasures(map[0 := read, 1 := begun], {0, 1}, map[]),
      Erasures(map[0 := read, 1 := read], {0, 1}, map[]),
      Erasures(map[0 := done, 1 := read], {0, 1}, map[0 := 0]),
      Erasures(map[0 := done, 1 := done], {0, 1}, map[0 := 0])];
    assert d.rows[0 := Rewritten(H, e, data, 0)] == mid.rows && mid.rows[0 := last.rows[0]] == last.rows;
    assert ErasureStep(H, d, x[4], UpdateNext(0), mid, x[5]);
    assert ErasureStep(H, mid, x[5], UpdateNext(1), last, x[6]);
  }

  lemma {:induction false} OnlyRow(rows: Table, scope: Scope)
    requires |rows| == 1 && IsPending(scope, rows[0])
    ensures BatchOf(rows, scope) == [Target(0, rows[0].content.data)]
    ensures scope.recordIds.None? ==> PartsOf(scope, []) == [scope]
  {
    assert rows[..0] == [];
    assert Pending(rows, scope) == [0];
  }

  /** A part ends on a log with no row of it left to redact, rows appended meanwhile included. */
  lemma {:induction false} PartEndsClean(H: Hashing, d: W.Db, x: Erasures, r: nat, at: int, x': Erasures)
    requires ErasureStep(H, d, x, ReadBatch(r, at), d, x')
    ensures var t, now := x.redactors[r], x'.redactors[r];
            now.part == t.part + 1
            <==> forall i | 0 <= i < |d.rows| :: !IsPending(t.parts[t.part], d.rows[i])
  {
    hide IsPending;
    var t := x.redactors[r];
    NothingPending(d.rows, t.parts[t.part]);
  }

  /** Every batch reads rows it never read, so a redactor reads at most once per row. */
  lemma {:induction false} ReadMakesProgress(H: Hashing, d: W.Db, x: Erasures, r: nat, at: int, x': Erasures)
    requires ErasuresOk(H, d, x) && ErasureStep(H, d, x, ReadBatch(r, at), d, x')
    ensures var t, now := x.redactors[r], x'.redactors[r];
            now.part == t.part + 1 || (|now.read| > |t.read| && |now.read| <= |d.rows|)
  {
    ReadKeepsOk(H, d, x, ReadBatch(r, at), d, x');
    assert RedactorOk(H, d.rows, x, r) && RedactorOk(H, d.rows, x', r);
    var now := x'.redactors[r];
    hide Covering, IsPending, InScope, TargetOk;
    BelowIsFew(now.read, |d.rows|);
  }

  lemma {:induction false} BelowIsFew(s: set<nat>, n: nat)
    requires forall i | i in s :: i < n
    ensures |s| <= n
  {
    if n == 0 {
      assert s == {};
    } else {
      BelowIsFew(s - {n - 1}, n - 1);
      assert |s| <= |s - {n - 1}| + 1 by {
        if n - 1 in s {
          assert s == s - {n - 1} + {n - 1};
        } else {
          assert s == s - {n - 1};
        }
      }
    }
  }
}
