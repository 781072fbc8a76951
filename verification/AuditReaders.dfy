/** Two walks of a chain, by pages. */
module AuditReaders {
  /** The verifier and the export, on a table that stays as it is and on one that moves. */

  import opened Common
  import opened JsValues
  import opened AuditEntries
  import opened AuditTable

  // --------------------------------------------------------------- verify

  /** What a walk of a tenant's chain reads: its rows above sequence 0, in order. */
  function Ordered(list: Table): Table {
    BySequence(Above(list, 0))
  }

  function ChainOf(rows: Table, tenantId: Text): Table {
    Ordered(OfTenant(rows, tenantId))
  }

  /** The walk's local variables, or its answer. */
  datatype Walk =
    | Walking(previousHash: Text, after: nat, checked: nat)
    | Finished(verdict: Verification)

  const START: Walk := Walking(GENESIS, 0, 0)

  function Broken(checked: nat, e: Entry): Verification {
    Verification(false, checked, Some(e.sequence), None)
  }

  function Intact(checked: nat, previousHash: Text): Verification {
    Verification(true, checked, None, if checked == 0 then None else Some(previousHash))
  }

  /** The inner loop, over one page. */
  function CheckPage(H: Hashing, page: Table, w: Walk): Walk
    requires w.Walking?
  {
    if page == [] then w
    else if !Accepts(H, w.previousHash, page[0]) then Finished(Broken(w.checked, page[0]))
    else CheckPage(H, page[1..], Walking(page[0].hash, page[0].sequence, w.checked + 1))
  }

  /** One turn of the outer loop, reading the table as it is then. */
  function VerifyTurn(H: Hashing, rows: Table, tenantId: Text, pageSize: nat, w: Walk): Walk
    requires w.Walking?
  {
    var page := Page(rows, tenantId, w.after, pageSize);
    if page == [] then Finished(Intact(w.checked, w.previousHash)) else CheckPage(H, page, w)
  }

  /** A walk stands after a prefix of the chain. */
  ghost predicate Stands(chain: Table, w: Walk) {
    && w.Walking?
    && w.checked <= |chain|
    && w.previousHash == Tail(chain[..w.checked])
    && w.after == (if w.checked == 0 then 0 else chain[w.checked - 1].sequence)
  }

  lemma {:induction false} OrderedAscends(list: Table)
    requires DistinctSequences(list)
    ensures Ascending(Ordered(list))
    ensures forall i | 0 <= i < |Ordered(list)| :: Ordered(list)[i].sequence > 0
  {
    var chain := Ordered(list);
    AboveDistinct(list, 0);
    BySequenceSorts(Above(list, 0));
    forall i | 0 <= i < |chain| ensures chain[i].sequence > 0 {
      BySequenceHolds(Above(list, 0), chain[i]);
      AboveHolds(list, 0, chain[i]);
    }
  }

  lemma {:induction false} WalkPassed(list: Table, after: nat, n: nat)
    requires DistinctSequences(list) && n <= |Ordered(list)|
    requires after == (if n == 0 then 0 else Ordered(list)[n - 1].sequence)
    ensures Passed(Ordered(list), after, n)
  {
    OrderedAscends(list);
    hide DistinctSequences, Ordered, Passed, Ascending;
    AscendingPassed(Ordered(list), after, n);
  }

  lemma {:induction false} AscendingPassed(chain: Table, after: nat, n: nat)
    requires Ascending(chain) && n <= |chain|
    requires if n == 0 then forall i | 0 <= i < |chain| :: chain[i].sequence > after else after == chain[n - 1].sequence
    ensures Passed(chain, after, n)
  {
  }

  /** From the first page on, a walk of `list` reads its rows above 0, in order. */
  lemma {:induction false} WalkPage(list: Table, pageSize: nat, after: nat, n: nat)
    requires DistinctSequences(list) && n <= |Ordered(list)|
    requires after == (if n == 0 then 0 else Ordered(list)[n - 1].sequence)
    ensures PageOf(list, after, pageSize) == Take(Ordered(list)[n..], pageSize)
  {
    hide DistinctSequences, Above, BySequence, Passed;
    WalkPassed(list, after, n);
    AboveDistinct(list, 0);
    PageIsNext(Above(list, 0), after, pageSize, n);
    AboveTwice(list, after);
  }

  /** A page holds the entries that come next, and is empty only at the end. */
  lemma {:induction false} NextPage(H: Hashing, rows: Table, tenantId: Text, pageSize: nat, w: Walk)
    requires pageSize > 0 && DistinctSequences(OfTenant(rows, tenantId))
    requires w.Walking? && Sound(H, ChainOf(rows, tenantId), w)
    ensures var chain, page := ChainOf(rows, tenantId), Page(rows, tenantId, w.after, pageSize);
            && w.checked + |page| <= |chain|
            && page == chain[w.checked..w.checked + |page|]
            && (page == [] ==> w.checked == |chain|)
  {
    hide IsChain, OfTenant, Ordered, DistinctSequences, PageOf, Tail;
    WalkPage(OfTenant(rows, tenantId), pageSize, w.after, w.checked);
  }

  function After(w: Walk, e: Entry): Walk
    requires w.Walking?
  {
    Walking(e.hash, e.sequence, w.checked + 1)
  }

  /** The walk stands at the end of an accepted prefix. */
  ghost predicate Sound(H: Hashing, chain: Table, w: Walk) {
    Stands(chain, w) && IsChain(H, chain[..w.checked])
  }

  lemma {:induction false} PrefixGrows(chain: Table, n: nat)
    requires n < |chain|
    ensures chain[..n + 1] == chain[..n] + [chain[n]] && Tail(chain[..n + 1]) == chain[n].hash
  {
  }

  lemma {:induction false} AcceptedEntry(H: Hashing, chain: Table, w: Walk)
    requires Sound(H, chain, w) && w.checked < |chain| && Accepts(H, w.previousHash, chain[w.checked])
    ensures Sound(H, chain, After(w, chain[w.checked]))
  {
    var n := w.checked;
    hide Accepts, IsChain;
    PrefixGrows(chain, n);
    ChainExtends(H, chain[..n], chain[n]);
  }

  lemma {:induction false} RejectedEntry(H: Hashing, chain: Table, w: Walk)
    requires Sound(H, chain, w) && w.checked < |chain| && !Accepts(H, w.previousHash, chain[w.checked])
    ensures !IsChain(H, chain) && IsVerdict(H, chain, Broken(w.checked, chain[w.checked]))
  {
    hide Accepts;
    assert !Accepts(H, Tail(chain[..w.checked]), chain[w.checked]);
  }

  lemma {:induction false} StartsSound(H: Hashing, chain: Table)
    ensures Sound(H, chain, START)
  {
  }

  lemma {:induction false} WholeChain(H: Hashing, chain: Table, w: Walk)
    requires Sound(H, chain, w) && w.checked == |chain|
    ensures IsVerdict(H, chain, Intact(w.checked, w.previousHash))
  {
    assert chain[..w.checked] == chain;
  }

  lemma {:induction false} CheckPageWalks(H: Hashing, chain: Table, page: Table, w: Walk)
    requires w.Walking? && Sound(H, chain, w) && w.checked + |page| <= |chain|
    requires page == chain[w.checked..w.checked + |page|]
    ensures var r := CheckPage(H, page, w);
            if r.Walking? then Sound(H, chain, r) && r.checked == w.checked + |page|
            else IsVerdict(H, chain, r.verdict) && !IsChain(H, chain)
    decreases |page|
  {
    hide Accepts, IsVerdict, IsChain, Sound;
    if page != [] {
      assert page[0] == chain[w.checked];
      if Accepts(H, w.previousHash, page[0]) {
        AcceptedEntry(H, chain, w);
        CheckPageWalks(H, chain, page[1..], After(w, page[0]));
      } else {
        RejectedEntry(H, chain, w);
      }
    }
  }

  lemma {:induction false} CheckPageAt(H: Hashing, entries: Table, i: nat, w: Walk)
    requires w.Walking? && i <= |entries|
    ensures CheckPage(H, entries[i..], w)
         == (if i == |entries| then w
             else if !Accepts(H, w.previousHash, entries[i]) then Finished(Broken(w.checked, entries[i]))
             else CheckPage(H, entries[i + 1..], After(w, entries[i])))
  {
    hide Accepts;
    if i < |entries| {
      assert entries[i..][1..] == entries[i + 1..];
    }
  }

  /** The inner loop of verify: one page, entry by entry. */
  method CheckEntries(H: Hashing, entries: Table, start: Walk) returns (w: Walk)
    requires start.Walking?
    ensures w == CheckPage(H, entries, start)
  {
    w := start;
    assert entries[0..] == entries;
    hide Accepts, CheckPage;
    for i := 0 to |entries|
      invariant w.Walking? && CheckPage(H, entries[i..], w) == CheckPage(H, entries, start)
    {
      var entry := entries[i];
      CheckPageAt(H, entries, i, w);
      if !Accepts(H, w.previousHash, entry) {
        return Finished(Broken(w.checked, entry));
      }
      w := Walking(entry.hash, entry.sequence, w.checked + 1);
    }
    CheckPageAt(H, entries, |entries|, w);
  }

  /**
   * AuditService.verify. With any page size, over a table in any state, the answer is the
   * one-pass verdict: every entry before the first that fails its link, redaction shape
   * or hash was checked, and that one is named.
   */
  method Verify(H: Hashing, rows: Table, tenantId: Text, pageSize: nat) returns (v: Verification)
    requires pageSize > 0 && DistinctSequences(OfTenant(rows, tenantId))
    ensures IsVerdict(H, ChainOf(rows, tenantId), v)
  {
    ghost var chain := ChainOf(rows, tenantId);
    var w := START;
    StartsSound(H, chain);
    hide IsVerdict, Sound, ChainOf, OfTenant, DistinctSequences, Page, CheckPage;
    while true
      invariant w.Walking? && Sound(H, chain, w)
      decreases |chain| - w.checked
    {
      var entries := Page(rows, tenantId, w.after, pageSize);
      NextPage(H, rows, tenantId, pageSize, w);
      if |entries| == 0 {
        WholeChain(H, chain, w);
        return Intact(w.checked, w.previousHash);
      }
      CheckPageWalks(H, chain, entries, w);
      w := CheckEntries(H, entries, w);
      if w.Finished? {
        return w.verdict;
      }
    }
  }

  // --------------------------------------------- verify while the log moves

  /** Every row numbered by the sequence, in the order it became visible. */
  ghost predicate Numbered(rows: Table) {
    VisibleInOrder(rows) && forall i | 0 <= i < |rows| :: rows[i].sequence > 0
  }

  lemma {:induction false} OfTenantPositive(rows: Table, tenantId: Text)
    requires Numbered(rows)
    ensures forall i | 0 <= i < |OfTenant(rows, tenantId)| :: OfTenant(rows, tenantId)[i].sequence > 0
  {
    var mine := OfTenant(rows, tenantId);
    forall i | 0 <= i < |mine| ensures mine[i].sequence > 0 {
      OfTenantHolds(rows, tenantId, mine[i]);
    }
  }

  lemma {:induction false} ChainIsTenant(rows: Table, tenantId: Text)
    requires Numbered(rows)
    ensures Ascending(OfTenant(rows, tenantId))
    ensures ChainOf(rows, tenantId) == OfTenant(rows, tenantId)
  {
    var mine := OfTenant(rows, tenantId);
    OfTenantAscending(rows, tenantId);
    OfTenantPositive(rows, tenantId);
    AboveOfAscending(mine, 0, 0);
    BySequenceOfAscending(mine);
  }

  /** Appends and redactions leave a walk where it stands. */
  lemma {:induction false} WalkStays(H: Hashing, a: Table, b: Table, tenantId: Text, w: Walk)
    requires Evolves(H, a, b) && Stands(OfTenant(a, tenantId), w)
    ensures Stands(OfTenant(b, tenantId), w)
  {
    OfTenantStays(H, a, b, tenantId);
    if w.checked > 0 {
      assert StillAccepted(H, OfTenant(a, tenantId)[w.checked - 1], OfTenant(b, tenantId)[w.checked - 1]);
    }
  }

  lemma {:induction false} PageOfChain(H: Hashing, chain: Table, page: Table, w: Walk)
    requires w.Walking? && Sound(H, chain, w) && IsChain(H, chain) && page != []
    requires w.checked + |page| <= |chain| && page == chain[w.checked..w.checked + |page|]
    ensures CheckPage(H, page, w).Walking?
    ensures Stands(chain, CheckPage(H, page, w)) && CheckPage(H, page, w).checked > w.checked
  {
    hide IsChain, CheckPage, IsVerdict;
    CheckPageWalks(H, chain, page, w);
  }

  lemma {:induction false} SoundOverLiveLog(H: Hashing, rows: Table, tenantId: Text, w: Walk)
    requires Numbered(rows) && IsChain(H, OfTenant(rows, tenantId)) && Stands(OfTenant(rows, tenantId), w)
    ensures ChainOf(rows, tenantId) == OfTenant(rows, tenantId)
    ensures DistinctSequences(OfTenant(rows, tenantId))
    ensures w.Walking? && Sound(H, OfTenant(rows, tenantId), w)
  {
    ChainIsTenant(rows, tenantId);
    ChainPrefix(H, OfTenant(rows, tenantId), w.checked);
    AscendingDistinct(OfTenant(rows, tenantId));
  }

  /** One page of verify over a live log: it goes on, or it answers that all is well. */
  lemma {:induction false} TurnOverLiveLog(H: Hashing, rows: Table, tenantId: Text, pageSize: nat, w: Walk)
    requires pageSize > 0 && Numbered(rows) && IsChain(H, OfTenant(rows, tenantId))
    requires w.Walking? && Stands(OfTenant(rows, tenantId), w)
    ensures var r, mine := VerifyTurn(H, rows, tenantId, pageSize, w), OfTenant(rows, tenantId);
            if r.Walking? then Stands(mine, r) && r.checked > w.checked
            else r.verdict == Intact(|mine|, Tail(mine))
  {
    hide IsChain, ChainOf, OfTenant, Page, CheckPage, DistinctSequences, Stands, Numbered, Sound;
    SoundOverLiveLog(H, rows, tenantId, w);
    NextPage(H, rows, tenantId, pageSize, w);
    if Page(rows, tenantId, w.after, pageSize) == [] {
      AtTheEnd(OfTenant(rows, tenantId), w);
    } else {
      PageOfChain(H, OfTenant(rows, tenantId), Page(rows, tenantId, w.after, pageSize), w);
    }
  }

  lemma {:induction false} AtTheEnd(chain: Table, w: Walk)
    requires Stands(chain, w) && w.checked == |chain|
    ensures w.previousHash == Tail(chain)
  {
    assert chain[..|chain|] == chain;
  }

  lemma {:induction false} AscendingDistinct(rows: Table)
    requires Ascending(rows)
    ensures DistinctSequences(rows)
  {
  }

  // --------------------------------------------------------------- export

  datatype Filter = Filter(
    from: Option<int>,
    to: Option<int>,
    model: Option<Text>,
    operation: Option<Text>,
    recordId: Option<Text>,
    userId: Option<Text>)

  /** auditWhere, less the tenant. */
  predicate Matches(f: Filter, e: Entry) {
    && (f.from.Some? ==> f.from.value <= e.createdAt)
    && (f.to.Some? ==> e.createdAt <= f.to.value)
    && (f.model.Some? ==> f.model.value == e.content.model)
    && (f.operation.Some? ==> f.operation.value == e.content.operation)
    && (f.recordId.Some? ==> f.recordId == e.content.recordId)
    && (f.userId.Some? ==> f.userId == e.content.userId)
  }

  function Select(rows: Table, f: Filter): Table {
    if rows == [] then []
    else
      var front, e := Select(rows[..|rows| - 1], f), rows[|rows| - 1];
      if Matches(f, e) then front + [e] else front
  }

  lemma {:induction false} SelectHolds(rows: Table, f: Filter, e: Entry)
    ensures e in Select(rows, f) <==> e in rows && Matches(f, e)
  {
    if rows != [] {
      assert rows == rows[..|rows| - 1] + [rows[|rows| - 1]];
      hide Matches;
      SelectHolds(rows[..|rows| - 1], f, e);
    }
  }

  lemma {:induction false} SelectDistinct(rows: Table, f: Filter)
    requires DistinctSequences(rows)
    ensures DistinctSequences(Select(rows, f))
  {
    if rows != [] {
      var front, e := rows[..|rows| - 1], rows[|rows| - 1];
      SelectDistinct(front, f);
      var kept := Select(front, f);
      forall i | 0 <= i < |kept| ensures kept[i].sequence != e.sequence {
        SelectHolds(front, f, kept[i]);
        assert kept[i] in front;
      }
    }
  }

  /** Everything an export of a tenant is to hold. */
  function Exported(rows: Table, tenantId: Text, f: Filter): Table {
    Ordered(Select(OfTenant(rows, tenantId), f))
  }

  lemma {:induction false} ExportedHolds(rows: Table, tenantId: Text, f: Filter, e: Entry)
    ensures e in Exported(rows, tenantId, f)
       <==> e in rows && e.content.tenantId == tenantId && Matches(f, e) && e.sequence > 0
  {
    var selected := Select(OfTenant(rows, tenantId), f);
    OfTenantHolds(rows, tenantId, e);
    SelectHolds(OfTenant(rows, tenantId), f, e);
    AboveHolds(selected, 0, e);
    BySequenceHolds(Above(selected, 0), e);
  }

  lemma {:induction false} TakeNext(all: Table, n: nat, size: nat, page: Table)
    requires n <= |all| && size > 0 && page == Take(all[n..], size)
    ensures page == [] <==> n == |all|
    ensures |page| <= size && n + |page| <= |all|
    ensures all[..n + |page|] == all[..n] + page
    ensures page != [] ==> page[|page| - 1] == all[n + |page| - 1]
  {
  }

  /** An export is complete, exact and in chain order. */
  lemma {:induction false} ExportedExactly(rows: Table, tenantId: Text, f: Filter)
    requires DistinctSequences(OfTenant(rows, tenantId))
    ensures Ascending(Exported(rows, tenantId, f))
    ensures forall e :: e in Exported(rows, tenantId, f)
                   <==> && e in rows && e.content.tenantId == tenantId && e.sequence > 0
                        && (f.from.Some? ==> f.from.value <= e.createdAt) && (f.to.Some? ==> e.createdAt <= f.to.value)
                        && (f.model.Some? ==> e.content.model == f.model.value)
                        && (f.operation.Some? ==> e.content.operation == f.operation.value)
                        && (f.recordId.Some? ==> e.content.recordId == f.recordId)
                        && (f.userId.Some? ==> e.content.userId == f.userId)
  {
    SelectDistinct(OfTenant(rows, tenantId), f);
    OrderedAscends(Select(OfTenant(rows, tenantId), f));
    forall e {
      ExportedHolds(rows, tenantId, f, e);
    }
  }

  /**
   * AuditService.exportBatches: the batches, end to end, hold every matching entry of the
   * tenant once, in chain order, and nothing else.
   */
  method ExportBatches(rows: Table, tenantId: Text, f: Filter, pageSize: nat) returns (batches: seq<Table>)
    requires pageSize > 0 && DistinctSequences(OfTenant(rows, tenantId))
    ensures forall i | 0 <= i < |batches| :: 0 < |batches[i]| <= pageSize
    ensures Flatten(batches) == Exported(rows, tenantId, f)
  {
    var selected := Select(OfTenant(rows, tenantId), f);
    ghost var all := Ordered(selected);
    ghost var n: nat := 0;
    var after: nat := 0;
    batches := [];
    SelectDistinct(OfTenant(rows, tenantId), f);
    hide DistinctSequences, Ordered, PageOf, Flatten, Take;
    assert Flatten(batches) == all[..0] by { EmptyConcat(); }
    while true
      invariant forall i | 0 <= i < |batches| :: 0 < |batches[i]| <= pageSize
      invariant n <= |all| && Flatten(batches) == all[..n]
      invariant after == (if n == 0 then 0 else all[n - 1].sequence)
      decreases |all| - n
    {
      var entries := PageOf(selected, after, pageSize);
      WalkPage(selected, pageSize, after, n);
      TakeNext(all, n, pageSize, entries);
      if |entries| == 0 {
        assert all[..n] == all;
        return;
      }
      FlattenSnoc(batches, entries);
      batches := batches + [entries];
      after := entries[|entries| - 1].sequence;
      n := n + |entries|;
    }
  }

  lemma {:induction false} EmptyConcat()
    ensures Flatten<Entry>([]) == []
  {
  }

  // --------------------------------------------- export while the log moves

  datatype Export = Exporting(after: nat, out: Table) | Done(out: Table)

  /** One batch, from the table as it is then. */
  function ExportTurn(rows: Table, tenantId: Text, f: Filter, pageSize: nat, x: Export): Export
    requires x.Exporting?
  {
    var page := PageOf(Select(OfTenant(rows, tenantId), f), x.after, pageSize);
    if page == [] then Done(x.out) else Exporting(page[|page| - 1].sequence, x.out + page)
  }

  /** What was yielded is a prefix of the selection, save for data redacted since. */
  ghost predicate Yielded(H: Hashing, selected: Table, x: Export) {
    && x.Exporting?
    && |x.out| <= |selected|
    && RowsStay(H, x.out, selected)
    && x.after == (if x.out == [] then 0 else selected[|x.out| - 1].sequence)
  }

  lemma {:induction false} SelectStays(H: Hashing, a: Table, b: Table, f: Filter)
    requires RowsStay(H, a, b)
    ensures RowsStay(H, Select(a, f), Select(b, f))
    ensures |a| == |b| ==> |Select(a, f)| == |Select(b, f)|
    decreases |b|
  {
    if |a| < |b| {
      SelectStays(H, a, b[..|b| - 1], f);
    } else if a != [] {
      SelectStays(H, a[..|a| - 1], b[..|b| - 1], f);
      SameRowMatches(H, a[|a| - 1], b[|b| - 1], f);
    }
  }

  /** A redaction does not change which filters an entry passes. */
  lemma {:induction false} SameRowMatches(H: Hashing, a: Entry, b: Entry, f: Filter)
    requires StillAccepted(H, a, b)
    ensures Matches(f, a) == Matches(f, b)
  {
    var ca, cb := a.content.(data := Null), b.content.(data := Null);
    assert ca.model == cb.model && ca.operation == cb.operation;
    assert ca.recordId == cb.recordId && ca.userId == cb.userId;
  }

  lemma {:induction false} ExportStays(H: Hashing, a: Table, b: Table, tenantId: Text, f: Filter, x: Export)
    requires Evolves(H, a, b) && Yielded(H, Select(OfTenant(a, tenantId), f), x)
    ensures Yielded(H, Select(OfTenant(b, tenantId), f), x)
  {
    var sa, sb := Select(OfTenant(a, tenantId), f), Select(OfTenant(b, tenantId), f);
    OfTenantStays(H, a, b, tenantId);
    SelectStays(H, OfTenant(a, tenantId), OfTenant(b, tenantId), f);
    hide Accepts;
    forall i | 0 <= i < |x.out| ensures StillAccepted(H, x.out[i], sb[i]) {
      assert StillAccepted(H, x.out[i], sa[i]) && StillAccepted(H, sa[i], sb[i]);
    }
    if x.out != [] {
      assert StillAccepted(H, sa[|x.out| - 1], sb[|x.out| - 1]);
    }
  }

  lemma {:induction false} SelectAscends(rows: Table, f: Filter)
    requires Ascending(rows)
    ensures Ascending(Select(rows, f))
  {
    if rows != [] {
      var front, e := rows[..|rows| - 1], rows[|rows| - 1];
      SelectAscends(front, f);
      var kept := Select(front, f);
      forall i | 0 <= i < |kept| ensures kept[i].sequence < e.sequence {
        SelectHolds(front, f, kept[i]);
        assert kept[i] in front;
      }
    }
  }

  lemma {:induction false} SelectPage(rows: Table, tenantId: Text, f: Filter, pageSize: nat, after: nat, n: nat)
    requires pageSize > 0 && Numbered(rows)
    requires n <= |Select(OfTenant(rows, tenantId), f)|
    requires after == (if n == 0 then 0 else Select(OfTenant(rows, tenantId), f)[n - 1].sequence)
    ensures var selected := Select(OfTenant(rows, tenantId), f);
            PageOf(selected, after, pageSize) == Take(selected[n..], pageSize)
  {
    var selected := Select(OfTenant(rows, tenantId), f);
    OfTenantAscending(rows, tenantId);
    OfTenantPositive(rows, tenantId);
    SelectAscends(OfTenant(rows, tenantId), f);
    forall i | 0 <= i < |selected| ensures selected[i].sequence > 0 {
      SelectHolds(OfTenant(rows, tenantId), f, selected[i]);
    }
    AboveOfAscending(selected, 0, 0);
    BySequenceOfAscending(selected);
    AscendingDistinct(selected);
    WalkPage(selected, pageSize, after, n);
  }

  /** One batch of an export over a live log: the next matching entries, or all were out. */
  lemma {:induction false} BatchOverLiveLog(
    H: Hashing, rows: Table, tenantId: Text, f: Filter, pageSize: nat, x: Export)
    requires pageSize > 0 && Numbered(rows) && Yielded(H, Select(OfTenant(rows, tenantId), f), x)
    ensures var selected := Select(OfTenant(rows, tenantId), f);
            match ExportTurn(rows, tenantId, f, pageSize, x)
            case Exporting(after, out) => |out| > |x.out| && Yielded(H, selected, Exporting(after, out))
            case Done(out) => out == x.out && |out| == |selected| && RowsStay(H, out, selected)
  {
    var selected := Select(OfTenant(rows, tenantId), f);
    hide Select, OfTenant, PageOf, Take, Numbered, Accepts, RowsStay;
    SelectPage(rows, tenantId, f, pageSize, x.after, |x.out|);
    var page := PageOf(selected, x.after, pageSize);
    TakeNext(selected, |x.out|, pageSize, page);
    YieldedGrows(H, selected, x.out, page);
  }

  lemma {:induction false} YieldedGrows(H: Hashing, selected: Table, out: Table, page: Table)
    requires |out| + |page| <= |selected| && RowsStay(H, out, selected)
    requires selected[..|out| + |page|] == selected[..|out|] + page
    ensures RowsStay(H, out + page, selected)
  {
    hide Accepts;
    forall i | 0 <= i < |out + page| ensures StillAccepted(H, (out + page)[i], selected[i]) {
      if i < |out| {
        assert StillAccepted(H, out[i], selected[i]);
      } else {
        assert selected[..|out| + |page|][i] == page[i - |out|];
      }
    }
  }
}
