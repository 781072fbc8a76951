/** The audit log's table, as its readers see it. */
module AuditTable {
  /** Committed rows, in the order they became visible; what an update may do to one. */

  import opened Common
  import opened JsValues
  import opened AuditEntries

  type Table = seq<Entry>

  /** The rows of one tenant, in the order they became visible. */
  function OfTenant(rows: Table, tenantId: Text): Table {
    if rows == [] then []
    else
      var e := rows[|rows| - 1];
      var front := OfTenant(rows[..|rows| - 1], tenantId);
      if e.content.tenantId == tenantId then front + [e] else front
  }

  /** ORDER BY sequence, over rows already filtered. */
  function BySequence(rows: Table): Table {
    if rows == [] then [] else Insert(BySequence(rows[..|rows| - 1]), rows[|rows| - 1])
  }

  function Insert(sorted: Table, e: Entry): Table {
    if sorted == [] || sorted[|sorted| - 1].sequence <= e.sequence then sorted + [e]
    else Insert(sorted[..|sorted| - 1], e) + [sorted[|sorted| - 1]]
  }

  function Above(rows: Table, after: nat): Table {
    if rows == [] then []
    else
      var e := rows[|rows| - 1];
      var front := Above(rows[..|rows| - 1], after);
      if e.sequence > after then front + [e] else front
  }

  function Take(rows: Table, n: nat): Table {
    if |rows| <= n then rows else rows[..n]
  }

  /** One keyset page: sequence > after, ORDER BY sequence, LIMIT take. */
  function PageOf(rows: Table, after: nat, take: nat): Table {
    Take(BySequence(Above(rows, after)), take)
  }

  function Page(rows: Table, tenantId: Text, after: nat, take: nat): Table {
    PageOf(OfTenant(rows, tenantId), after, take)
  }

  ghost predicate Ascending(rows: Table) {
    forall i, j | 0 <= i < j < |rows| :: rows[i].sequence < rows[j].sequence
  }

  /** Within a tenant, no row became visible after one of a higher sequence. */
  ghost predicate VisibleInOrder(rows: Table) {
    forall i, j | 0 <= i < j < |rows| && rows[i].content.tenantId == rows[j].content.tenantId ::
      rows[i].sequence < rows[j].sequence
  }

  lemma {:induction false} OfTenantAppend(rows: Table, more: Table, tenantId: Text)
    ensures OfTenant(rows + more, tenantId) == OfTenant(rows, tenantId) + OfTenant(more, tenantId)
  {
    if more == [] {
      assert rows + more == rows;
    } else {
      var front, e := more[..|more| - 1], more[|more| - 1];
      assert (rows + more)[..|rows + more| - 1] == rows + front;
      OfTenantAppend(rows, front, tenantId);
    }
  }

  lemma {:induction false} OfTenantHolds(rows: Table, tenantId: Text, e: Entry)
    ensures e in OfTenant(rows, tenantId) <==> e in rows && e.content.tenantId == tenantId
  {
    if rows != [] {
      assert rows == rows[..|rows| - 1] + [rows[|rows| - 1]];
      OfTenantHolds(rows[..|rows| - 1], tenantId, e);
    }
  }

  lemma {:induction false} OfTenantAscending(rows: Table, tenantId: Text)
    requires VisibleInOrder(rows)
    ensures Ascending(OfTenant(rows, tenantId))
  {
    if rows != [] {
      var front, e := rows[..|rows| - 1], rows[|rows| - 1];
      OfTenantAscending(front, tenantId);
      var mine := OfTenant(front, tenantId);
      forall i | 0 <= i < |mine| && e.content.tenantId == tenantId ensures mine[i].sequence < e.sequence {
        OfTenantHolds(front, tenantId, mine[i]);
        var k :| 0 <= k < |front| && front[k] == mine[i];
        assert rows[k] == mine[i];
      }
    }
  }

  lemma {:induction false} BySequenceOfAscending(rows: Table)
    requires Ascending(rows)
    ensures BySequence(rows) == rows
  {
    if rows != [] {
      var front, last := rows[..|rows| - 1], rows[|rows| - 1];
      AscendingFront(rows);
      hide Ascending, BySequence, Insert;
      BySequenceOfAscending(front);
      BySequenceStep(rows);
      InsertLast(front, last);
      assert rows == front + [last];
    }
  }

  lemma {:induction false} AscendingFront(rows: Table)
    requires Ascending(rows) && rows != []
    ensures var front := rows[..|rows| - 1];
            Ascending(front) && (front == [] || front[|front| - 1].sequence <= rows[|rows| - 1].sequence)
  {
  }

  lemma {:induction false} BySequenceStep(rows: Table)
    requires rows != []
    ensures BySequence(rows) == Insert(BySequence(rows[..|rows| - 1]), rows[|rows| - 1])
  {
  }

  lemma {:induction false} InsertLast(sorted: Table, e: Entry)
    requires sorted == [] || sorted[|sorted| - 1].sequence <= e.sequence
    ensures Insert(sorted, e) == sorted + [e]
  {
  }

  /** The unique constraint on the sequence column. */
  ghost predicate DistinctSequences(rows: Table) {
    forall i, j | 0 <= i < j < |rows| :: rows[i].sequence != rows[j].sequence
  }

  lemma {:induction false} InsertSorts(sorted: Table, e: Entry)
    requires Ascending(sorted) && forall i | 0 <= i < |sorted| :: sorted[i].sequence != e.sequence
    ensures Ascending(Insert(sorted, e))
  {
    if sorted != [] && sorted[|sorted| - 1].sequence > e.sequence {
      var front, last := sorted[..|sorted| - 1], sorted[|sorted| - 1];
      InsertSorts(front, e);
      var r := Insert(front, e);
      assert Insert(sorted, e) == r + [last];
      forall i | 0 <= i < |r| ensures r[i].sequence < last.sequence {
        InsertHolds(front, e, r[i]);
      }
      hide Insert;
    }
  }

  lemma {:induction false} InsertHolds(sorted: Table, e: Entry, x: Entry)
    ensures x in Insert(sorted, e) <==> x == e || x in sorted
  {
    if sorted != [] && sorted[|sorted| - 1].sequence > e.sequence {
      InsertHolds(sorted[..|sorted| - 1], e, x);
      assert sorted == sorted[..|sorted| - 1] + [sorted[|sorted| - 1]];
    }
  }

  /** Ordering loses no row and makes none up, however often a row occurs. */
  lemma {:induction false} InsertKeeps(sorted: Table, e: Entry)
    ensures multiset(Insert(sorted, e)) == multiset(sorted) + multiset{e}
  {
    if sorted != [] && sorted[|sorted| - 1].sequence > e.sequence {
      InsertKeeps(sorted[..|sorted| - 1], e);
      assert sorted == sorted[..|sorted| - 1] + [sorted[|sorted| - 1]];
    }
  }

  lemma {:induction false} BySequenceKeeps(rows: Table)
    ensures multiset(BySequence(rows)) == multiset(rows)
  {
    if rows != [] {
      BySequenceKeeps(rows[..|rows| - 1]);
      InsertKeeps(BySequence(rows[..|rows| - 1]), rows[|rows| - 1]);
      assert rows == rows[..|rows| - 1] + [rows[|rows| - 1]];
    }
  }

  lemma {:induction false} BySequenceHolds(rows: Table, e: Entry)
    ensures e in BySequence(rows) <==> e in rows
  {
    if rows != [] {
      BySequenceHolds(rows[..|rows| - 1], e);
      InsertHolds(BySequence(rows[..|rows| - 1]), rows[|rows| - 1], e);
      assert rows == rows[..|rows| - 1] + [rows[|rows| - 1]];
    }
  }

  lemma {:induction false} BySequenceSorts(rows: Table)
    requires DistinctSequences(rows)
    ensures Ascending(BySequence(rows))
  {
    if rows != [] {
      var front, e := rows[..|rows| - 1], rows[|rows| - 1];
      BySequenceSorts(front);
      var r := BySequence(front);
      forall i | 0 <= i < |r| ensures r[i].sequence != e.sequence {
        BySequenceHolds(front, r[i]);
        assert r[i] in front;
      }
      InsertSorts(r, e);
    }
  }

  lemma {:induction false} AboveSnoc(rows: Table, e: Entry, after: nat)
    ensures Above(rows + [e], after) == (if e.sequence > after then Above(rows, after) + [e] else Above(rows, after))
  {
    assert (rows + [e])[..|rows|] == rows;
  }

  lemma {:induction false} InsertSnoc(sorted: Table, last: Entry, e: Entry)
    ensures Insert(sorted + [last], e)
         == (if last.sequence <= e.sequence then sorted + [last] + [e] else Insert(sorted, e) + [last])
  {
    assert (sorted + [last])[..|sorted|] == sorted;
  }

  /** Below the cursor an ascending list contributes nothing, above it everything. */
  lemma {:induction false} AboveEmpty(rows: Table, after: nat)
    requires forall i | 0 <= i < |rows| :: rows[i].sequence <= after
    ensures Above(rows, after) == []
  {
    if rows != [] {
      AboveEmpty(rows[..|rows| - 1], after);
    }
  }

  lemma {:induction false} AboveInsert(sorted: Table, e: Entry, after: nat)
    requires Ascending(sorted)
    ensures Above(Insert(sorted, e), after)
         == (if e.sequence > after then Insert(Above(sorted, after), e) else Above(sorted, after))
  {
    if sorted == [] {
      AboveSnoc([], e, after);
      assert [] + [e] == [e];
    } else {
      var front, last := sorted[..|sorted| - 1], sorted[|sorted| - 1];
      assert sorted == front + [last];
      assert Ascending(front);
      assert last.sequence <= after ==> forall i | 0 <= i < |sorted| :: sorted[i].sequence <= after;
      hide Above, Insert, Ascending;
      if last.sequence <= after {
        AboveEmpty(sorted, after);
        AboveEmpty(front, after);
      }
      AboveInsert(front, e, after);
      InsertSnoc(front, last, e);
      AboveSnoc(front, last, after);
      AboveSnoc(sorted, e, after);
      AboveSnoc(Insert(front, e), last, after);
      InsertSnoc(Above(front, after), last, e);
      InsertEmpty(e);
    }
  }

  lemma {:induction false} InsertEmpty(e: Entry)
    ensures Insert([], e) == [e]
    ensures [] + [e] == [e]
  {
  }

  /** Filtering before ordering or after it is the same page. */
  lemma {:induction false} AboveCommutes(rows: Table, after: nat)
    requires DistinctSequences(rows)
    ensures BySequence(Above(rows, after)) == Above(BySequence(rows), after)
  {
    if rows != [] {
      var front, e := rows[..|rows| - 1], rows[|rows| - 1];
      AboveCommutes(front, after);
      BySequenceSorts(front);
      AboveInsert(BySequence(front), e, after);
      if e.sequence > after {
        assert (Above(front, after) + [e])[..|Above(front, after)|] == Above(front, after);
      }
    }
  }

  /** Above an ascending list's k-th row comes exactly what follows it. */
  lemma {:induction false} AboveOfAscending(rows: Table, after: nat, k: nat)
    requires Passed(rows, after, k)
    ensures Above(rows, after) == rows[k..]
  {
    if k == |rows| {
      AboveEmpty(rows, after);
    } else {
      var front, last := rows[..|rows| - 1], rows[|rows| - 1];
      AboveOfAscending(front, after, k);
      assert rows == front + [last];
      hide Above, Passed;
      AboveSnoc(front, last, after);
      assert last.sequence > after ==> rows[k..] == front[k..] + [last];
    }
  }

  /** How many rows a keyset cursor has passed. */
  ghost predicate Passed(rows: Table, after: nat, k: nat) {
    && k <= |rows|
    && (forall i | 0 <= i < k :: rows[i].sequence <= after)
    && (forall i | k <= i < |rows| :: rows[i].sequence > after)
  }

  /** The page a cursor asks for is what the ordered rows hold next, table in any order. */
  lemma {:induction false} PageIsNext(rows: Table, after: nat, take: nat, k: nat)
    requires DistinctSequences(rows) && Passed(BySequence(rows), after, k)
    ensures PageOf(rows, after, take) == Take(BySequence(rows)[k..], take)
  {
    AboveCommutes(rows, after);
    AboveOfAscending(BySequence(rows), after, k);
  }

  lemma {:induction false} AboveTwice(rows: Table, after: nat)
    ensures Above(Above(rows, 0), after) == Above(rows, after)
  {
    if rows != [] {
      var front, e := rows[..|rows| - 1], rows[|rows| - 1];
      AboveTwice(front, after);
      AboveSnoc(Above(front, 0), e, after);
    }
  }

  lemma {:induction false} AboveHolds(rows: Table, after: nat, e: Entry)
    ensures e in Above(rows, after) <==> e in rows && e.sequence > after
  {
    if rows != [] {
      assert rows == rows[..|rows| - 1] + [rows[|rows| - 1]];
      AboveHolds(rows[..|rows| - 1], after, e);
    }
  }

  lemma {:induction false} AboveDistinct(rows: Table, after: nat)
    requires DistinctSequences(rows)
    ensures DistinctSequences(Above(rows, after))
  {
    if rows != [] {
      var front, e := rows[..|rows| - 1], rows[|rows| - 1];
      AboveDistinct(front, after);
      var kept := Above(front, after);
      forall i | 0 <= i < |kept| ensures kept[i].sequence != e.sequence {
        AboveHolds(front, after, kept[i]);
        assert kept[i] in front;
      }
    }
  }

  // ------------------------------------------------------------- evolution

  /** What the table may do to a row: nothing, or replace its data. */
  ghost predicate SameRow(a: Entry, b: Entry) {
    && a.sequence == b.sequence && a.hash == b.hash && a.previousHash == b.previousHash
    && a.createdAt == b.createdAt && a.content.(data := Null) == b.content.(data := Null)
  }

  /** An update no verifier can tell from the row it replaces. */
  ghost predicate StillAccepted(H: Hashing, a: Entry, b: Entry) {
    SameRow(a, b) && forall p :: Accepts(H, p, a) ==> Accepts(H, p, b)
  }

  ghost predicate RowsStay(H: Hashing, a: Table, b: Table) {
    |a| <= |b| && forall i | 0 <= i < |a| :: StillAccepted(H, a[i], b[i])
  }

  /** The rely of every reader: rows stay, and rows appear above all rows of their tenant. */
  ghost predicate Evolves(H: Hashing, a: Table, b: Table) {
    RowsStay(H, a, b) && VisibleInOrder(b)
  }

  lemma {:induction false} OfTenantStays(H: Hashing, a: Table, b: Table, tenantId: Text)
    requires RowsStay(H, a, b)
    ensures RowsStay(H, OfTenant(a, tenantId), OfTenant(b, tenantId))
    decreases |b|
  {
    if |a| < |b| {
      OfTenantStays(H, a, b[..|b| - 1], tenantId);
    } else if a != [] {
      OfTenantStays(H, a[..|a| - 1], b[..|b| - 1], tenantId);
      OfTenantSameSize(H, a[..|a| - 1], b[..|b| - 1], tenantId);
    }
  }

  lemma {:induction false} OfTenantSameSize(H: Hashing, a: Table, b: Table, tenantId: Text)
    requires RowsStay(H, a, b) && |a| == |b|
    ensures |OfTenant(a, tenantId)| == |OfTenant(b, tenantId)|
  {
    if a != [] {
      OfTenantSameSize(H, a[..|a| - 1], b[..|b| - 1], tenantId);
    }
  }

  /** The sequence numbers of some rows. */
  function Numbers(rows: Table): (r: seq<nat>)
    ensures |r| == |rows|
    ensures forall i | 0 <= i < |rows| :: r[i] == rows[i].sequence
  {
    seq(|rows|, i requires 0 <= i < |rows| => rows[i].sequence)
  }

  /** A tenant's sequence numbers only ever grow, at the end. */
  lemma {:induction false} NumbersGrow(H: Hashing, a: Table, b: Table, tenantId: Text)
    requires RowsStay(H, a, b)
    ensures Numbers(OfTenant(a, tenantId)) <= Numbers(OfTenant(b, tenantId))
  {
    var ta, tb := OfTenant(a, tenantId), OfTenant(b, tenantId);
    OfTenantStays(H, a, b, tenantId);
    forall i | 0 <= i < |ta| ensures ta[i].sequence == tb[i].sequence {
      assert StillAccepted(H, ta[i], tb[i]);
    }
  }

  lemma {:induction false} ChainStays(H: Hashing, a: Table, b: Table)
    requires RowsStay(H, a, b) && |a| == |b| && IsChain(H, a)
    ensures IsChain(H, b)
  {
    forall i | 0 <= i < |b| ensures Accepts(H, Tail(b[..i]), b[i]) {
      assert Accepts(H, Tail(a[..i]), a[i]);
      assert StillAccepted(H, a[i], b[i]);
      hide Accepts;
      if i > 0 {
        assert StillAccepted(H, a[i - 1], b[i - 1]);
        assert Tail(a[..i]) == a[i - 1].hash && Tail(b[..i]) == b[i - 1].hash;
      }
    }
  }

  lemma {:induction false} EvolvesReflexive(H: Hashing, a: Table)
    requires VisibleInOrder(a)
    ensures Evolves(H, a, a)
  {
  }

  lemma {:induction false} EvolvesTransitive(H: Hashing, a: Table, b: Table, c: Table)
    requires Evolves(H, a, b) && Evolves(H, b, c)
    ensures Evolves(H, a, c)
  {
    forall i | 0 <= i < |a| ensures StillAccepted(H, a[i], c[i]) {
      assert StillAccepted(H, a[i], b[i]) && StillAccepted(H, b[i], c[i]);
    }
  }
}
