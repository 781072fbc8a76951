/** What an erasure redacts. */
module AuditRedaction {
  import opened Common
  import opened AuditEntries
  import opened AuditTable
  import W = AuditWriters

  const REDACTION_BATCH_SIZE: nat := 500
  const RECORD_ID_CHUNK_SIZE: nat := 1000

  /** Absent record ids mean every entry of the models in the tenant. */
  datatype Scope = Scope(tenantId: Text, models: seq<Text>, recordIds: Option<seq<Text>>)

  predicate InScope(scope: Scope, e: Entry) {
    && e.content.tenantId == scope.tenantId
    && e.content.model in scope.models
    && (scope.recordIds.Some? ==> e.content.recordId.Some? && e.content.recordId.value in scope.recordIds.value)
  }

  predicate IsPending(scope: Scope, e: Entry) {
    InScope(scope, e) && e.redactedAt.None?
  }

  /** The rows still to redact, by position. */
  function Pending(rows: Table, scope: Scope): (positions: seq<nat>)
    ensures forall k | 0 <= k < |positions| :: positions[k] < |rows|
  {
    if rows == [] then []
    else
      var front := Pending(rows[..|rows| - 1], scope);
      if IsPending(scope, rows[|rows| - 1]) then front + [|rows| - 1] else front
  }

  lemma {:induction false} PendingHolds(rows: Table, scope: Scope, i: nat)
    requires i < |rows|
    ensures i in Pending(rows, scope) <==> IsPending(scope, rows[i])
  {
    var front := rows[..|rows| - 1];
    if i < |front| {
      PendingHolds(front, scope, i);
    } else {
      assert i !in Pending(front, scope);
    }
  }

  lemma {:induction false} PendingRises(rows: Table, scope: Scope)
    ensures var p := Pending(rows, scope); forall j, k | 0 <= j < k < |p| :: p[j] < p[k]
  {
    if rows != [] {
      var front := rows[..|rows| - 1];
      PendingRises(front, scope);
      assert forall k | 0 <= k < |Pending(front, scope)| :: Pending(front, scope)[k] < |front|;
    }
  }

  /** By position is by sequence: the rows are one tenant's, visible in order. */
  lemma {:induction false} PendingBySequence(rows: Table, scope: Scope, j: nat, k: nat)
    requires VisibleInOrder(rows) && j < k < |Pending(rows, scope)|
    ensures rows[Pending(rows, scope)[j]].sequence < rows[Pending(rows, scope)[k]].sequence
  {
    var p := Pending(rows, scope);
    PendingRises(rows, scope);
    PendingHolds(rows, scope, p[j]);
    PendingHolds(rows, scope, p[k]);
  }

  /** One row redacted is one row fewer to redact, whichever it is. */
  lemma {:induction false} OneFewerPending(rows: Table, scope: Scope, i: nat, e: Entry)
    requires i < |rows| && IsPending(scope, rows[i]) && !IsPending(scope, e)
    ensures |Pending(rows[i := e], scope)| + 1 == |Pending(rows, scope)|
  {
    hide IsPending;
    var front := rows[..|rows| - 1];
    if i < |front| {
      OneFewerPending(front, scope, i, e);
      assert rows[i := e][..|rows| - 1] == front[i := e];
    } else {
      assert rows[i := e][..|rows| - 1] == front;
    }
  }

  /** A row as it was, or redacted because the scope holds it. */
  ghost predicate Redacted(H: Hashing, scope: Scope, was: Entry, now: Entry) {
    || now == was
    || (&& IsPending(scope, was) && !was.content.data.Undefined? && now.redactedAt.Some?
        && now == W.RedactedRow(H, was, now.redactedAt.value))
  }

  ghost predicate OnlyRedacted(H: Hashing, scope: Scope, was: Table, now: Table) {
    |was| == |now| && forall i | 0 <= i < |was| :: Redacted(H, scope, was[i], now[i])
  }

  /** The whole effect of an erasure: every row it covers is redacted, no other is touched. */
  ghost predicate Erased(H: Hashing, scope: Scope, was: Table, now: Table) {
    && OnlyRedacted(H, scope, was, now)
    && forall i | 0 <= i < |now| :: !IsPending(scope, now[i])
  }

  lemma {:induction false} NothingPending(rows: Table, scope: Scope)
    ensures Pending(rows, scope) == [] <==> forall i | 0 <= i < |rows| :: !IsPending(scope, rows[i])
  {
    forall i | 0 <= i < |rows| ensures i in Pending(rows, scope) <==> IsPending(scope, rows[i]) {
      PendingHolds(rows, scope, i);
    }
    if Pending(rows, scope) != [] {
      assert Pending(rows, scope)[0] in Pending(rows, scope);
    }
  }

  /** The same scope over some of its record ids. */
  function Part(scope: Scope, ids: seq<Text>): Scope {
    scope.(recordIds := Some(ids))
  }

  /** Redacting over part of the ids and then over more is redacting over all of them. */
  lemma {:induction false} PartsJoin(
    H: Hashing, scope: Scope, done: seq<Text>, more: seq<Text>, a: Table, b: Table, c: Table)
    requires Erased(H, Part(scope, done), a, b) && Erased(H, Part(scope, more), b, c)
    ensures Erased(H, Part(scope, done + more), a, c)
  {
    hide W.RedactedRow;
    forall i | 0 <= i < |a| ensures Redacted(H, Part(scope, done + more), a[i], c[i]) {
      assert Redacted(H, Part(scope, done), a[i], b[i]) && Redacted(H, Part(scope, more), b[i], c[i]);
    }
    forall i | 0 <= i < |c| ensures !IsPending(Part(scope, done + more), c[i]) {
      assert Redacted(H, Part(scope, more), b[i], c[i]);
      assert !IsPending(Part(scope, done), b[i]) && !IsPending(Part(scope, more), c[i]);
      RedactedKeepsScope(H, Part(scope, more), b[i], c[i]);
    }
  }

  lemma {:induction false} RedactedKeepsScope(H: Hashing, scope: Scope, was: Entry, now: Entry)
    requires Redacted(H, scope, was, now)
    ensures now.content.tenantId == was.content.tenantId && now.content.model == was.content.model
    ensures now.content.recordId == was.content.recordId
    ensures was.redactedAt.Some? ==> now == was
  {
  }

  /** What was newly redacted adds up, duplicates or not. */
  lemma {:induction false} CountsJoin(
    H: Hashing, scope: Scope, done: seq<Text>, more: seq<Text>, a: Table, b: Table)
    requires Erased(H, Part(scope, done), a, b)
    ensures |Pending(a, Part(scope, done + more))| == |Pending(a, Part(scope, done))| + |Pending(b, Part(scope, more))|
  {
    if a != [] {
      var n := |a| - 1;
      assert Redacted(H, Part(scope, done), a[n], b[n]) && !IsPending(Part(scope, done), b[n]);
      RedactedKeepsScope(H, Part(scope, done), a[n], b[n]);
      ErasedFront(H, Part(scope, done), a, b);
      CountsJoin(H, scope, done, more, a[..n], b[..n]);
      hide Erased, Redacted;
      assert IsPending(Part(scope, done + more), a[n])
        <==> IsPending(Part(scope, done), a[n]) || IsPending(Part(scope, more), b[n]);
      assert !(IsPending(Part(scope, done), a[n]) && IsPending(Part(scope, more), b[n]));
    }
  }

  lemma {:induction false} ErasedFront(H: Hashing, scope: Scope, a: Table, b: Table)
    requires Erased(H, scope, a, b) && a != []
    ensures Erased(H, scope, a[..|a| - 1], b[..|b| - 1])
  {
    hide Redacted;
  }

  /** The items in order, none lost or repeated, every chunk but the last full. */
  ghost predicate AreChunks<T>(items: seq<T>, size: nat, chunks: seq<seq<T>>) {
    && Flatten(chunks) == items
    && (forall i | 0 <= i < |chunks| :: 0 < |chunks[i]| <= size)
    && (forall i | 0 <= i < |chunks| - 1 :: |chunks[i]| == size)
  }

  /** No ids: nothing is in scope. */
  lemma {:induction false} NoIdsNothingPending(rows: Table, scope: Scope)
    ensures Pending(rows, Part(scope, [])) == []
    ensures scope.models == [] ==> Pending(rows, scope) == []
  {
    NothingPending(rows, Part(scope, []));
    NothingPending(rows, scope);
  }
}
