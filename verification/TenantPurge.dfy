/** Purging a tenant's rows. */
module TenantPurge {
  import opened Common

  datatype Row = Row(table: nat, key: nat)

  /** A reference: the row that holds the key, the row it names. */
  type Ref = (Row, Row)

  /**
   * What a purge meets: which rows are the tenant's, the receipts of its messages, and the
   * keys that cascade or that restrict a delete. Keys set to null by a delete stop nothing.
   */
  datatype World = World(ofTenant: set<Row>, receipts: set<Row>, cascades: set<Ref>, restricts: set<Ref>)

  /** The foreign keys hold: what a present row names is present. */
  ghost predicate Intact(w: World, live: set<Row>) {
    forall p: Ref | p in w.cascades + w.restricts && p.0 in live :: p.1 in live
  }

  function Referrers(refs: set<Ref>): set<Row> {
    set p: Ref | p in refs :: p.0
  }

  function Naming(refs: set<Ref>, rows: set<Row>): set<Row> {
    set p: Ref | p in refs && p.1 in rows :: p.0
  }

  lemma {:induction false} NamingAreReferrers(refs: set<Ref>, rows: set<Row>)
    ensures Naming(refs, rows) <= Referrers(refs)
  {
    forall r | r in Naming(refs, rows) ensures r in Referrers(refs) {
      var p: Ref :| p in refs && p.1 in rows && p.0 == r;
    }
  }

  lemma {:induction false} FewerLeft(referrers: set<Row>, rows: set<Row>, more: set<Row>)
    requires more <= referrers && !(more <= rows)
    ensures |referrers - (rows + more)| < |referrers - rows|
  {
    var r :| r in more && r !in rows;
    assert referrers - (rows + more) <= referrers - rows - {r};
    SubsetIsSmaller(referrers - (rows + more), referrers - rows - {r});
  }

  /** Rows and all that cascades from deleting them. */
  function Doomed(cascades: set<Ref>, rows: set<Row>): set<Row>
    decreases |Referrers(cascades) - rows|
  {
    var more := Naming(cascades, rows);
    NamingAreReferrers(cascades, rows);
    if more <= rows then rows
    else
      FewerLeft(Referrers(cascades), rows, more);
      Doomed(cascades, rows + more)
  }

  ghost predicate Closed(cascades: set<Ref>, rows: set<Row>) {
    forall p: Ref | p in cascades && p.1 in rows :: p.0 in rows
  }

  lemma {:induction false} DoomedCloses(cascades: set<Ref>, rows: set<Row>)
    ensures rows <= Doomed(cascades, rows) && Closed(cascades, Doomed(cascades, rows))
    decreases |Referrers(cascades) - rows|
  {
    var more := Naming(cascades, rows);
    if more <= rows {
      forall p: Ref | p in cascades && p.1 in rows ensures p.0 in rows {
        assert p.0 in more;
      }
    } else {
      NamingAreReferrers(cascades, rows);
      FewerLeft(Referrers(cascades), rows, more);
      DoomedCloses(cascades, rows + more);
    }
  }

  /** Nothing goes that does not have to. */
  lemma {:induction false} DoomedLeast(cascades: set<Ref>, rows: set<Row>, closed: set<Row>)
    requires rows <= closed && Closed(cascades, closed)
    ensures Doomed(cascades, rows) <= closed
    decreases |Referrers(cascades) - rows|
  {
    var more := Naming(cascades, rows);
    if !(more <= rows) {
      NamingAreReferrers(cascades, rows);
      FewerLeft(Referrers(cascades), rows, more);
      forall r | r in more ensures r in closed {
        var p: Ref :| p in cascades && p.1 in rows && p.0 == r;
      }
      DoomedLeast(cascades, rows + more, closed);
    }
  }

  // ---------------------------------------------------------- one statement

  function RowsIn(w: World, live: set<Row>, table: nat): set<Row> {
    set r | r in live && r in w.ofTenant && r.table == table
  }

  function Among(refs: set<Ref>, live: set<Row>): set<Ref> {
    set p: Ref | p in refs && p.0 in live
  }

  /** What DELETE FROM table WHERE tenantId would take with it now. */
  function Gone(w: World, live: set<Row>, table: nat): set<Row> {
    Doomed(Among(w.cascades, live), RowsIn(w, live, table))
  }

  /** A row that stays names one that would go. */
  predicate Holds(p: Ref, live: set<Row>, gone: set<Row>) {
    p.0 in live && p.0 !in gone && p.1 in gone
  }

  predicate Blocked(w: World, live: set<Row>, table: nat) {
    exists p | p in w.restricts :: Holds(p, live, Gone(w, live, table))
  }

  /** All rows a table's purge can ever take, from where the purge begins. */
  function Reach(w: World, rows: set<Row>, table: nat): set<Row> {
    Doomed(w.cascades, RowsIn(w, rows, table))
  }

  /** The database's cascade is the reach, less what is gone already. */
  lemma {:induction false} GoneIsReach(w: World, rows: set<Row>, live: set<Row>, table: nat)
    requires Intact(w, live) && live <= rows
    ensures Gone(w, live, table) == Reach(w, rows, table) * live
  {
    var gone, reach := Gone(w, live, table), Reach(w, rows, table);
    DoomedCloses(Among(w.cascades, live), RowsIn(w, live, table));
    DoomedCloses(w.cascades, RowsIn(w, rows, table));
    DoomedLeast(Among(w.cascades, live), RowsIn(w, live, table), reach * live);
    var rest := reach - (live - gone);
    forall p: Ref | p in w.cascades && p.1 in rest ensures p.0 in rest {
      assert p.0 in live ==> p in Among(w.cascades, live);
    }
    DoomedLeast(w.cascades, RowsIn(w, rows, table), rest);
  }

  /** A delete that succeeds leaves every key intact and its table without the tenant. */
  lemma {:induction false} DeleteKeepsKeys(w: World, live: set<Row>, table: nat)
    requires Intact(w, live) && !Blocked(w, live, table)
    ensures Intact(w, live - Gone(w, live, table))
    ensures RowsIn(w, live - Gone(w, live, table), table) == {}
  {
    var gone := Gone(w, live, table);
    DoomedCloses(Among(w.cascades, live), RowsIn(w, live, table));
    forall p: Ref | p in w.cascades + w.restricts && p.0 in live - gone ensures p.1 in live - gone {
      assert p in w.restricts ==> !Holds(p, live, gone);
      assert p in w.cascades ==> p in Among(w.cascades, live);
    }
  }

  // ------------------------------------------------------------ when it fails

  function RowsOutside(w: World, rows: set<Row>, tables: set<nat>, pinned: set<nat>): set<Row> {
    set r | r in rows && r in w.ofTenant && r.table in tables && r.table !in pinned
  }

  /** What is left when all but some tables are purged. */
  function Kept(w: World, rows: set<Row>, tables: set<nat>, pinned: set<nat>): set<Row> {
    rows - Doomed(w.cascades, RowsOutside(w, rows, tables, pinned))
  }

  ghost predicate Pins(w: World, rows: set<Row>, kept: set<Row>, table: nat, p: Ref) {
    p in w.restricts && p.0 in kept && p.0 !in Reach(w, rows, table) && p.1 in Reach(w, rows, table)
  }

  /** Tables that hold one another, or are held from outside: no order purges them. */
  ghost predicate Pinned(w: World, rows: set<Row>, tables: set<nat>, pinned: set<nat>) {
    && pinned != {} && pinned <= tables
    && forall t | t in pinned :: exists p :: Pins(w, rows, Kept(w, rows, tables, pinned), t, p)
  }

  lemma {:induction false} PinnedBlocks(w: World, rows: set<Row>, live: set<Row>, tables: set<nat>, pinned: set<nat>, t: nat)
    requires Intact(w, live) && live <= rows
    requires Pinned(w, rows, tables, pinned) && t in pinned && Kept(w, rows, tables, pinned) <= live
    ensures Blocked(w, live, t)
  {
    var p :| Pins(w, rows, Kept(w, rows, tables, pinned), t, p);
    GoneIsReach(w, rows, live, t);
    assert Holds(p, live, Gone(w, live, t));
  }

  /** Purging a table outside leaves what is kept. */
  lemma {:induction false} OutsideLeavesKept(w: World, rows: set<Row>, live: set<Row>, tables: set<nat>, pinned: set<nat>, t: nat)
    requires Intact(w, live) && live <= rows && t in tables && t !in pinned
    requires Kept(w, rows, tables, pinned) <= live
    ensures Kept(w, rows, tables, pinned) <= live - Gone(w, live, t)
  {
    var outside := RowsOutside(w, rows, tables, pinned);
    GoneIsReach(w, rows, live, t);
    DoomedCloses(w.cascades, outside);
    DoomedLeast(w.cascades, RowsIn(w, rows, t), Doomed(w.cascades, outside));
  }

  /** Where the purge is: keys intact, tables done with empty, pinned tables untouched. */
  ghost predicate Purging(w: World, rows: set<Row>, tables: set<nat>, live: set<Row>, left: set<nat>) {
    && Intact(w, live) && live <= rows && left <= tables
    && (forall t | t in tables && t !in left :: RowsIn(w, live, t) == {})
    && (forall pinned | Pinned(w, rows, tables, pinned) :: pinned <= left && Kept(w, rows, tables, pinned) <= live)
    && rows - live <= Doomed(w.cascades, RowsOutside(w, rows, tables, {}))
  }

  lemma {:induction false} PurgeBegins(w: World, rows: set<Row>, tables: set<nat>)
    requires Intact(w, rows)
    ensures Purging(w, rows, tables, rows, tables)
  {
  }

  lemma {:induction false} PurgeGoesOn(w: World, rows: set<Row>, tables: set<nat>, live: set<Row>, left: set<nat>, t: nat)
    requires Purging(w, rows, tables, live, left) && t in tables && !Blocked(w, live, t)
    ensures Purging(w, rows, tables, live - Gone(w, live, t), left - {t})
  {
    var after := live - Gone(w, live, t);
    hide Blocked, Gone, Kept, Pinned, Doomed;
    DeleteKeepsKeys(w, live, t);
    forall pinned | Pinned(w, rows, tables, pinned)
      ensures pinned <= left - {t} && Kept(w, rows, tables, pinned) <= after
    {
      if t in pinned {
        PinnedBlocks(w, rows, live, tables, pinned, t);
      }
      OutsideLeavesKept(w, rows, live, tables, pinned, t);
    }
    GoneIsReach(w, rows, live, t);
    ReachIsTenants(w, rows, tables, t);
  }

  lemma {:induction false} ReachIsTenants(w: World, rows: set<Row>, tables: set<nat>, t: nat)
    requires t in tables
    ensures Reach(w, rows, t) <= Doomed(w.cascades, RowsOutside(w, rows, tables, {}))
  {
    DoomedCloses(w.cascades, RowsOutside(w, rows, tables, {}));
    DoomedLeast(w.cascades, RowsIn(w, rows, t), Doomed(w.cascades, RowsOutside(w, rows, tables, {})));
  }

  lemma {:induction false} StuckArePinned(w: World, rows: set<Row>, tables: set<nat>, live: set<Row>, left: set<nat>)
    requires Purging(w, rows, tables, live, left) && left != {}
    requires forall t | t in left :: Blocked(w, live, t)
    ensures Pinned(w, rows, tables, left)
  {
    hide Pinned;
    LiveIsKept(w, rows, tables, live, left);
    forall t | t in left ensures exists p :: Pins(w, rows, Kept(w, rows, tables, left), t, p) {
      assert Blocked(w, live, t);
      var p :| p in w.restricts && Holds(p, live, Gone(w, live, t));
      GoneIsReach(w, rows, live, t);
      assert Pins(w, rows, Kept(w, rows, tables, left), t, p);
    }
    AllPinned(w, rows, tables, left);
  }

  lemma {:induction false} AllPinned(w: World, rows: set<Row>, tables: set<nat>, pinned: set<nat>)
    requires pinned != {} && pinned <= tables
    requires forall t | t in pinned :: exists p :: Pins(w, rows, Kept(w, rows, tables, pinned), t, p)
    ensures Pinned(w, rows, tables, pinned)
  {
  }

  lemma {:induction false} LiveIsKept(w: World, rows: set<Row>, tables: set<nat>, live: set<Row>, left: set<nat>)
    requires Intact(w, live) && live <= rows
    requires forall t | t in tables && t !in left :: RowsIn(w, live, t) == {}
    ensures live <= Kept(w, rows, tables, left)
  {
    var outside := RowsOutside(w, rows, tables, left);
    var dead := Doomed(w.cascades, outside) - live;
    DoomedCloses(w.cascades, outside);
    forall r | r in outside ensures r in dead {
      assert r in live ==> r in RowsIn(w, live, r.table);
    }
    DoomedLeast(w.cascades, outside, dead);
  }

  // ---------------------------------------------------------------- the loop

  /** One pass over the pending tables, each delete a transaction of its own. */
  method Pass(w: World, ghost rows: set<Row>, ghost tables: set<nat>, live0: set<Row>, pending: seq<nat>)
    returns (live: set<Row>, stuck: seq<nat>)
    requires Purging(w, rows, tables, live0, SetOf(pending))
    ensures Purging(w, rows, tables, live, SetOf(stuck))
    ensures |stuck| <= |pending|
    ensures |stuck| == |pending| ==> stuck == pending && live == live0 && forall t | t in pending :: Blocked(w, live, t)
  {
    live, stuck := live0, [];
    hide Purging, Blocked, Gone;
    assert SetOf(pending[0..]) + SetOf(stuck) == SetOf(pending);
    for i := 0 to |pending|
      invariant Purging(w, rows, tables, live, SetOf(pending[i..]) + SetOf(stuck))
      invariant |stuck| <= i
      invariant |stuck| == i ==> stuck == pending[..i] && live == live0 && forall t | t in pending[..i] :: Blocked(w, live, t)
    {
      var table := pending[i];
      SetOfTail(pending, i);
      PurgingTable(w, rows, tables, live, SetOf(pending[i..]) + SetOf(stuck), table);
      if Blocked(w, live, table) {
        SetOfSnoc(stuck, table);
        assert SetOf(pending[i..]) + SetOf(stuck) == SetOf(pending[i + 1..]) + SetOf(stuck + [table]);
        stuck := stuck + [table];
      } else {
        PurgeGoesOn(w, rows, tables, live, SetOf(pending[i..]) + SetOf(stuck), table);
        live := live - Gone(w, live, table);
        PurgingMore(w, rows, tables, live, SetOf(pending[i..]) + SetOf(stuck) - {table}, SetOf(pending[i + 1..]) + SetOf(stuck));
      }
    }
    assert SetOf(pending[|pending|..]) + SetOf(stuck) == SetOf(stuck);
    assert pending[..|pending|] == pending;
  }

  lemma {:induction false} SetOfTail(pending: seq<nat>, i: nat)
    requires i < |pending|
    ensures SetOf(pending[i..]) == {pending[i]} + SetOf(pending[i + 1..])
  {
    assert pending[i..] == [pending[i]] + pending[i + 1..];
  }

  lemma {:induction false} SetOfSnoc(stuck: seq<nat>, t: nat)
    ensures SetOf(stuck + [t]) == SetOf(stuck) + {t}
  {
  }

  lemma {:induction false} PurgingTable(w: World, rows: set<Row>, tables: set<nat>, live: set<Row>, left: set<nat>, t: nat)
    requires Purging(w, rows, tables, live, left) && t in left
    ensures t in tables && left <= tables
  {
  }

  lemma {:induction false} PurgingMore(w: World, rows: set<Row>, tables: set<nat>, live: set<Row>, left: set<nat>, more: set<nat>)
    requires Purging(w, rows, tables, live, left) && left <= more && more <= tables
    ensures Purging(w, rows, tables, live, more)
  {
  }

  /** Nothing names a receipt, and each names a message of the tenant. */
  ghost predicate ReceiptsFree(w: World) {
    forall p: Ref | p in w.cascades + w.restricts :: p.1 !in w.receipts
  }

  /**
   * purgeTenant. It always ends; it throws exactly when some tables hold one another or are
   * held from outside, whatever order the tables come in; when it returns no table holds a
   * row of the tenant; and it takes no row but receipts, the tenant's and what cascades.
   */
  method PurgeTenant(w: World, present: set<Row>, tables: seq<nat>) returns (live: set<Row>, stuck: seq<nat>)
    requires Intact(w, present) && ReceiptsFree(w)
    ensures Intact(w, live) && live <= present - w.receipts
    ensures stuck != [] <==> exists pinned :: Pinned(w, present - w.receipts, SetOf(tables), pinned)
    ensures stuck != [] ==> Pinned(w, present - w.receipts, SetOf(tables), SetOf(stuck))
    ensures forall t | t in tables && t !in stuck :: RowsIn(w, live, t) == {}
    ensures forall t | t in stuck :: Blocked(w, live, t)
    ensures present - live <= w.receipts + Doomed(w.cascades, RowsOutside(w, present - w.receipts, SetOf(tables), {}))
  {
    live := present - w.receipts;
    ghost var rows, all := live, SetOf(tables);
    PurgeBegins(w, rows, all);
    hide Intact, Blocked, Gone, Pinned, Doomed;
    var pending := tables;
    while |pending| > 0
      invariant Purging(w, rows, all, live, SetOf(pending))
      decreases |pending|
    {
      var left, stuckNow := Pass(w, rows, all, live, pending);
      if |stuckNow| == |pending| {
        assert pending[0] in SetOf(pending);
        StuckArePinned(w, rows, all, left, SetOf(pending));
        live := left;
        return live, stuckNow;
      }
      live, pending := left, stuckNow;
    }
    stuck := [];
    NothingPinned(w, rows, all, live);
  }

  lemma {:induction false} NothingPinned(w: World, rows: set<Row>, tables: set<nat>, live: set<Row>)
    requires Purging(w, rows, tables, live, {})
    ensures !exists pinned :: Pinned(w, rows, tables, pinned)
  {
    if pinned :| Pinned(w, rows, tables, pinned) {
      assert false;
    }
  }

  // --------------------------------------------------------------- corollaries

  /** The holders of a stuck table: a row of another stuck table, or a row outside the purge. */
  lemma {:induction false} WhoHolds(w: World, rows: set<Row>, tables: set<nat>, pinned: set<nat>, t: nat) returns (p: Ref)
    requires Pinned(w, rows, tables, pinned) && t in pinned
    ensures p in w.restricts && p.0 in rows && p.1 in Reach(w, rows, t)
    ensures p.0 in w.ofTenant && p.0.table in tables ==> p.0.table in pinned && p.0.table != t
  {
    p :| Pins(w, rows, Kept(w, rows, tables, pinned), t, p);
    DoomedCloses(w.cascades, RowsIn(w, rows, t));
    DoomedCloses(w.cascades, RowsOutside(w, rows, tables, pinned));
    assert p.0 in w.ofTenant && p.0.table in tables && p.0.table !in pinned ==> p.0 in RowsOutside(w, rows, tables, pinned);
    assert p.0 in w.ofTenant && p.0.table == t ==> p.0 in RowsIn(w, rows, t);
  }

  /** Keys among the tenant's rows run down a ranking of the tables, none comes from outside. */
  ghost predicate Acyclic(w: World, rows: set<Row>, tables: set<nat>, rank: nat -> nat) {
    forall p: Ref, t | p in w.restricts && p.0 in rows && t in tables && p.1 in Reach(w, rows, t) ::
      p.0 in Reach(w, rows, t) || (p.0 in w.ofTenant && p.0.table in tables && rank(p.0.table) < rank(t))
  }

  /** Without a cycle and without outsiders, a purge returns, whatever the table order. */
  lemma {:induction false} AcyclicIsNeverPinned(w: World, rows: set<Row>, tables: set<nat>, rank: nat -> nat, pinned: set<nat>, t: nat)
    requires Acyclic(w, rows, tables, rank) && t in pinned
    ensures !Pinned(w, rows, tables, pinned)
    decreases rank(t)
  {
    if Pinned(w, rows, tables, pinned) {
      var p :| Pins(w, rows, Kept(w, rows, tables, pinned), t, p);
      var q := p.0;
      assert q in rows && q !in Reach(w, rows, t);
      DoomedCloses(w.cascades, RowsOutside(w, rows, tables, pinned));
      assert q.table !in pinned ==> q in RowsOutside(w, rows, tables, pinned);
      AcyclicIsNeverPinned(w, rows, tables, rank, pinned, q.table);
    }
  }
}
