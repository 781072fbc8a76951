/** Pruning the dev dashboard. */
module DashboardPrune {
  import opened Common

  /** An entry as pruning sees it; ids are ordered, and no two entries share one. */
  datatype Row = Row(id: nat, tenantId: Text, createdAt: int)

  type Table = set<Row>

  ghost predicate DistinctIds(rows: Table) {
    forall a, b | a in rows && b in rows && a.id == b.id :: a == b
  }

  function RowsOf(rows: Table, tenantId: Text): Table {
    set r | r in rows && r.tenantId == tenantId
  }

  /** ORDER BY createdAt DESC, id DESC: `a` comes before `b`. */
  predicate Before(a: Row, b: Row) {
    a.createdAt > b.createdAt || (a.createdAt == b.createdAt && a.id > b.id)
  }

  function AheadOf(rows: Table, r: Row): Table {
    set s | s in rows && Before(s, r)
  }

  /** The rows strictly newer than one: what the cap looks at. */
  function NewerThan(rows: Table, r: Row): Table {
    set s | s in rows && s.createdAt > r.createdAt
  }

  /** SKIP skip, first: the row with that many ahead of it. */
  ghost predicate IsNth(rows: Table, skip: nat, r: Row) {
    r in rows && |AheadOf(rows, r)| == skip
  }

  lemma {:induction false} FirstExists(rows: Table) returns (r: Row)
    requires rows != {} && DistinctIds(rows)
    ensures r in rows && AheadOf(rows, r) == {}
  {
    var any :| any in rows;
    if rows == {any} {
      r := any;
    } else {
      var rest := rows - {any};
      assert rows == rest + {any};
      r := FirstExists(rest);
      if Before(any, r) {
        assert AheadOf(rows, any) <= AheadOf(rest, r);
        r := any;
      } else {
        assert AheadOf(rows, r) <= AheadOf(rest, r);
      }
    }
  }

  /** Exactly the tables with more rows than are skipped have such a row. */
  lemma {:induction false} NthExists(rows: Table, skip: nat) returns (r: Row)
    requires DistinctIds(rows) && skip < |rows|
    ensures IsNth(rows, skip, r)
    decreases skip
  {
    var first := FirstExists(rows);
    if skip == 0 {
      r := first;
    } else {
      var rest := rows - {first};
      r := NthExists(rest, skip - 1);
      assert Before(first, r) by {
        assert first != r && first.id != r.id;
        assert r !in AheadOf(rows, first);
      }
      assert AheadOf(rows, r) == AheadOf(rest, r) + {first};
    }
  }

  /** The cap's cut, row by row: at least `max` strictly newer ones. */
  lemma {:induction false} CutByNth(rows: Table, max: nat, oldestKept: Row, r: Row)
    requires max >= 1 && DistinctIds(rows) && IsNth(rows, max - 1, oldestKept) && r in rows
    ensures r.createdAt < oldestKept.createdAt <==> |NewerThan(rows, r)| >= max
  {
    var ahead := AheadOf(rows, oldestKept);
    if r.createdAt < oldestKept.createdAt {
      assert ahead + {oldestKept} <= NewerThan(rows, r);
      SubsetIsSmaller(ahead + {oldestKept}, NewerThan(rows, r));
    } else {
      assert NewerThan(rows, r) <= ahead;
      SubsetIsSmaller(NewerThan(rows, r), ahead);
    }
  }

  /** What a prune leaves: rows inside the window with fewer than `max` newer ones there. */
  function Window(rows: Table, cutoff: int): Table {
    set r | r in rows && r.createdAt >= cutoff
  }

  function Kept(rows: Table, max: nat): Table {
    set r | r in rows && |NewerThan(RowsOf(rows, r.tenantId), r)| < max
  }

  function KeptOf(rows: Table, tenantId: Text, max: nat): Table {
    set r | r in rows && (r.tenantId == tenantId ==> |NewerThan(RowsOf(rows, tenantId), r)| < max)
  }

  /** A tenant within the cap loses nothing to it. */
  lemma {:induction false} UncrowdedKeepsAll(rows: Table, tenantId: Text, max: nat)
    requires |RowsOf(rows, tenantId)| <= max
    ensures KeptOf(rows, tenantId, max) == rows
  {
    var mine := RowsOf(rows, tenantId);
    forall r | r in mine ensures |NewerThan(mine, r)| < max {
      assert r !in NewerThan(mine, r) && NewerThan(mine, r) + {r} <= mine;
      SubsetIsSmaller(NewerThan(mine, r) + {r}, mine);
    }
  }

  /** Rows past the cap go, and every one of them is older than `max` that stay. */
  lemma {:induction false} CutAreOlderThanKept(rows: Table, max: nat, r: Row)
    requires max >= 1 && DistinctIds(rows) && r in rows && r !in Kept(rows, max)
    ensures |NewerThan(RowsOf(Kept(rows, max), r.tenantId), r)| >= max
  {
    var mine := RowsOf(rows, r.tenantId);
    assert NewerThan(mine, r) <= mine;
    SubsetIsSmaller(NewerThan(mine, r), mine);
    var nth := NthExists(mine, max - 1);
    CutByNth(mine, max, nth, r);
    var newest := AheadOf(mine, nth) + {nth};
    forall s | s in newest ensures s in NewerThan(RowsOf(Kept(rows, max), r.tenantId), r) {
      CutByNth(mine, max, nth, s);
    }
    SubsetIsSmaller(newest, NewerThan(RowsOf(Kept(rows, max), r.tenantId), r));
  }

  /** What a tenant keeps: its `max` newest rows, and the ones tied with the oldest of these. */
  lemma {:induction false} KeptIsNewestAndTied(rows: Table, tenantId: Text, max: nat, nth: Row)
    requires max >= 1 && DistinctIds(rows) && IsNth(RowsOf(rows, tenantId), max - 1, nth)
    ensures RowsOf(Kept(rows, max), tenantId) == UpTo(rows, tenantId, nth) + TiedBehind(rows, tenantId, nth)
    ensures |UpTo(rows, tenantId, nth)| == max && UpTo(rows, tenantId, nth) !! TiedBehind(rows, tenantId, nth)
  {
    var mine := RowsOf(rows, tenantId);
    forall r | r in mine ensures r.createdAt < nth.createdAt <==> |NewerThan(mine, r)| >= max {
      CutByNth(mine, max, nth, r);
    }
    assert nth !in AheadOf(mine, nth);
    forall r | r in mine ensures r == nth || Before(r, nth) || Before(nth, r) {
      assert r.id == nth.id ==> r == nth;
    }
    hide NewerThan;
    assert forall r | r in mine :: r in RowsOf(Kept(rows, max), tenantId) <==> r.createdAt >= nth.createdAt;
  }

  function UpTo(rows: Table, tenantId: Text, nth: Row): Table {
    AheadOf(RowsOf(rows, tenantId), nth) + {nth}
  }

  function TiedBehind(rows: Table, tenantId: Text, nth: Row): Table {
    set r | r in RowsOf(rows, tenantId) && r.createdAt == nth.createdAt && Before(nth, r)
  }

  /**
   * A tenant with at least `max` rows in the window keeps `max` and whatever is tied behind
   * the last of them: more than `max` exactly when something is. With fewer it keeps all.
   */
  lemma {:induction false} OverCapExactlyWhenTied(rows: Table, tenantId: Text, max: nat, nth: Row)
    requires max >= 1 && DistinctIds(rows) && IsNth(RowsOf(rows, tenantId), max - 1, nth)
    ensures |RowsOf(Kept(rows, max), tenantId)| == max + |TiedBehind(rows, tenantId, nth)|
    ensures |RowsOf(Kept(rows, max), tenantId)| > max
        <==> exists r :: r in RowsOf(rows, tenantId) && r.createdAt == nth.createdAt && Before(nth, r)
  {
    KeptIsNewestAndTied(rows, tenantId, max, nth);
    hide Kept, IsNth, UpTo, RowsOf;
    var tied := TiedBehind(rows, tenantId, nth);
    if tied != {} {
      var r :| r in tied;
      assert r in RowsOf(rows, tenantId) && Before(nth, r);
    }
    if r :| r in RowsOf(rows, tenantId) && r.createdAt == nth.createdAt && Before(nth, r) {
      assert r in tied;
    }
  }

  lemma {:induction false} UnderCapKeepsAll(rows: Table, tenantId: Text, max: nat)
    requires |RowsOf(rows, tenantId)| <= max
    ensures RowsOf(Kept(rows, max), tenantId) == RowsOf(rows, tenantId)
  {
    UncrowdedKeepsAll(rows, tenantId, max);
    forall r | r in RowsOf(rows, tenantId) ensures r in Kept(rows, max) {
      assert r in KeptOf(rows, tenantId, max);
    }
  }

  /** By example: two rows made in one millisecond both outlive a cap of one. */
  lemma {:induction false} TiedRowsOutliveCap()
    ensures var rows := {Row(1, [65], 7), Row(2, [65], 7)};
            |RowsOf(rows, [65])| == 2 && Kept(rows, 1) == rows
  {
    var rows := {Row(1, [65], 7), Row(2, [65], 7)};
    assert RowsOf(rows, [65]) == rows && |rows| == 2;
    forall r | r in rows ensures NewerThan(RowsOf(rows, r.tenantId), r) == {} {
    }
  }

  function OlderThan(rows: Table, tenantId: Text, oldestKept: Row): Table {
    set r | r in rows && r.tenantId == tenantId && r.createdAt < oldestKept.createdAt
  }

  lemma {:induction false} TrimIs(rows: Table, tenantId: Text, max: nat, oldestKept: Row)
    requires max >= 1 && DistinctIds(rows) && IsNth(RowsOf(rows, tenantId), max - 1, oldestKept)
    ensures rows - OlderThan(rows, tenantId, oldestKept) == KeptOf(rows, tenantId, max)
    ensures |rows - OlderThan(rows, tenantId, oldestKept)| == |rows| - |OlderThan(rows, tenantId, oldestKept)|
  {
    var mine, gone := RowsOf(rows, tenantId), OlderThan(rows, tenantId, oldestKept);
    forall r | r in mine ensures r.createdAt < oldestKept.createdAt <==> |NewerThan(mine, r)| >= max {
      CutByNth(mine, max, oldestKept, r);
    }
    hide NewerThan, IsNth;
    assert rows == (rows - gone) + gone;
  }

  class DevDashboardStore {
    var rows: Table

    ghost predicate Valid()
      reads this
    {
      DistinctIds(rows)
    }

    constructor (rows: Table)
      requires DistinctIds(rows)
      ensures Valid() && this.rows == rows
    {
      this.rows := rows;
    }

    /** One tenant: its max-th newest row, if it has that many, then everything older than it. */
    method Trim(tenantId: Text, max: nat) returns (count: nat)
      requires Valid() && max >= 1
      modifies this
      ensures Valid() && rows == KeptOf(old(rows), tenantId, max)
      ensures count == |old(rows)| - |rows|
    {
      var oldestKept := NthRow(RowsOf(rows, tenantId), max - 1);
      if oldestKept.None? {
        UncrowdedKeepsAll(rows, tenantId, max);
        return 0;
      }
      var trimmed := OlderThan(rows, tenantId, oldestKept.value);
      TrimIs(rows, tenantId, max, oldestKept.value);
      hide KeptOf, OlderThan;
      rows := rows - trimmed;
      count := |trimmed|;
    }

    /**
     * prune: the window first, then the cap, tenant after tenant. What stays is decided row
     * by row, whatever order the tenants come in, and the count is the rows lost.
     */
    method Prune(cutoff: int, max: nat) returns (deleted: nat)
      requires Valid() && max >= 1
      modifies this
      ensures Valid() && rows == Kept(Window(old(rows), cutoff), max)
      ensures deleted == |old(rows)| - |rows|
    {
      hide KeptOf, NewerThan;
      ghost var was := rows;
      var expired := set r | r in rows && r.createdAt < cutoff;
      rows := rows - expired;
      ghost var window := rows;
      assert window == Window(was, cutoff) && was == window + expired;
      var crowded := CrowdedTenants(rows, max);
      deleted := |expired|;
      assert rows == Done(window, [], max);
      for i := 0 to |crowded|
        invariant Valid() && DistinctIds(window)
        invariant rows == Done(window, crowded[..i], max) && deleted == |was| - |rows|
      {
        DoneMore(window, crowded, i, max);
        var trimmed := Trim(crowded[i], max);
        deleted := deleted + trimmed;
      }
      assert crowded[..|crowded|] == crowded;
      DoneIsKept(window, crowded, max);
    }
  }

  /** groupBy tenant HAVING more than `max` rows, in whatever order. */
  method CrowdedTenants(rows: Table, max: nat) returns (crowded: seq<Text>)
    ensures forall t :: t in crowded <==> |RowsOf(rows, t)| > max
  {
    var tenants := set r | r in rows :: r.tenantId;
    ghost var all := tenants;
    crowded := [];
    while tenants != {}
      invariant tenants <= all
      invariant forall t :: t in crowded <==> t in all - tenants && |RowsOf(rows, t)| > max
      decreases |tenants|
    {
      var t :| t in tenants;
      tenants := tenants - {t};
      if |RowsOf(rows, t)| > max {
        crowded := crowded + [t];
      }
    }
    forall t | |RowsOf(rows, t)| > max ensures t in all {
      assert RowsOf(rows, t) != {};
    }
  }

  /** A cap that goes through the crowded tenants alone misses none. */
  lemma {:induction false} DoneIsKept(rows: Table, crowded: seq<Text>, max: nat)
    requires forall t :: |RowsOf(rows, t)| > max ==> t in crowded
    ensures Done(rows, crowded, max) == Kept(rows, max)
  {
    forall r | r in rows && r.tenantId !in crowded
      ensures |NewerThan(RowsOf(rows, r.tenantId), r)| < max
    {
      UncrowdedKeepsAll(rows, r.tenantId, max);
      assert r in KeptOf(rows, r.tenantId, max);
    }
  }

  /** The cap applied to some tenants. */
  function Done(rows: Table, tenants: seq<Text>, max: nat): Table {
    set r | r in rows && (r.tenantId in tenants ==> |NewerThan(RowsOf(rows, r.tenantId), r)| < max)
  }

  /** One tenant more: its rows were untouched so far, or nothing more of them goes. */
  lemma {:induction false} DoneMore(rows: Table, tenants: seq<Text>, i: nat, max: nat)
    requires max >= 1 && DistinctIds(rows) && i < |tenants|
    ensures KeptOf(Done(rows, tenants[..i], max), tenants[i], max) == Done(rows, tenants[..i + 1], max)
  {
    var t, done := tenants[i], Done(rows, tenants[..i], max);
    assert tenants[..i + 1] == tenants[..i] + [t];
    if t in tenants[..i] {
      forall r | r in RowsOf(done, t) ensures |NewerThan(RowsOf(done, t), r)| < max {
        assert NewerThan(RowsOf(done, t), r) <= NewerThan(RowsOf(rows, t), r);
        SubsetIsSmaller(NewerThan(RowsOf(done, t), r), NewerThan(RowsOf(rows, t), r));
      }
    } else {
      assert RowsOf(done, t) == RowsOf(rows, t);
    }
  }

  /** findFirst with ORDER BY and SKIP, over rows in any order: nothing if too few. */
  method NthRow(rows: Table, skip: nat) returns (r: Option<Row>)
    requires DistinctIds(rows)
    ensures r.None? <==> |rows| <= skip
    ensures r.Some? ==> IsNth(rows, skip, r.value)
  {
    if |rows| <= skip {
      return None;
    }
    ghost var nth := NthExists(rows, skip);
    assert exists n :: n in rows && |AheadOf(rows, n)| == skip by { assert nth in rows; }
    var row :| row in rows && |AheadOf(rows, row)| == skip;
    r := Some(row);
  }
}
