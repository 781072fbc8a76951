/** The audit log, all at work. */
module AuditSystem {
  /**
   * Writers, redactors, streamers, deliveries, verifications and exports, interleaved
   * statement by statement: what holds at every point of every run.
   */

  import opened Common
  import opened JsValues
  import opened AuditEntries
  import opened AuditTable
  import opened AuditReaders
  import W = AuditWriters
  import opened AuditStream
  import opened StorageKeys
  import opened AuditDelivery
  import opened AuditErasure

  /** A verification under way or answered; `seen` counts the entries there when it began. */
  datatype Verifying = Verifying(tenantId: Text, pageSize: nat, seen: nat, walk: Walk)

  datatype ExportJob = ExportJob(tenantId: Text, filter: Filter, pageSize: nat, seen: nat, progress: Export)

  datatype System = System(
    db: W.Db,
    streams: Streams,
    deliveries: Deliveries,
    erasures: Erasures,
    verifications: map<nat, Verifying>,
    exports: map<nat, ExportJob>)

  const INITIAL: System := System(W.EMPTY, NO_STREAMS, NO_DELIVERIES, NO_ERASURES, map[], map[])

  datatype Action =
    | Writing(write: W.Event)
    | Erasing(erasure: ErasureEvent)
    | Streaming(stream: StreamEvent)
    | Delivering(delivery: DeliveryEvent)
    | StartVerify(k: nat, tenantId: Text, pageSize: nat)
    | VerifyPage(k: nat)
    | StartExport(k: nat, tenantId: Text, filter: Filter, pageSize: nat)
    | ExportPage(k: nat)

  function AfterVerifyPage(H: Hashing, s: System, k: nat): System
    requires k in s.verifications && s.verifications[k].walk.Walking?
  {
    var v := s.verifications[k];
    s.(verifications := s.verifications[k :=
      v.(walk := VerifyTurn(H, s.db.rows, v.tenantId, v.pageSize, v.walk))])
  }

  function AfterExportPage(s: System, k: nat): System
    requires k in s.exports && s.exports[k].progress.Exporting?
  {
    var x := s.exports[k];
    s.(exports := s.exports[k :=
      x.(progress := ExportTurn(s.db.rows, x.tenantId, x.filter, x.pageSize, x.progress))])
  }

  ghost predicate Step(H: Hashing, LockKey: Text -> int, s: System, a: Action, s': System) {
    match a
    case Writing(ev) => !ev.Redact? && W.Step(H, LockKey, s.db, ev, s'.db) && s' == s.(db := s'.db)
    case Erasing(ev) =>
      && ErasureStep(H, s.db, s.erasures, ev, s'.db, s'.erasures)
      && s' == s.(db := s'.db, erasures := s'.erasures)
    case Streaming(ev) => StreamStep(s.db.rows, s.streams, ev, s'.streams) && s' == s.(streams := s'.streams)
    case Delivering(ev) =>
      && DeliveryStep(s.db.rows, s.streams, s.deliveries, ev, s'.deliveries)
      && s' == s.(deliveries := s'.deliveries)
    case StartVerify(k, tenantId, pageSize) =>
      && k !in s.verifications && pageSize > 0
      && var v := Verifying(tenantId, pageSize, |OfTenant(s.db.rows, tenantId)|, START);
         s' == s.(verifications := s.verifications[k := v])
    case VerifyPage(k) =>
      && k in s.verifications && s.verifications[k].walk.Walking?
      && s' == AfterVerifyPage(H, s, k)
    case StartExport(k, tenantId, f, pageSize) =>
      && k !in s.exports && pageSize > 0
      && var x := ExportJob(tenantId, f, pageSize, |Select(OfTenant(s.db.rows, tenantId), f)|, Exporting(0, []));
         s' == s.(exports := s.exports[k := x])
    case ExportPage(k) =>
      && k in s.exports && s.exports[k].progress.Exporting?
      && s' == AfterExportPage(s, k)
  }

  // ------------------------------------------------------------- invariant

  /** An answer given stays the answer for the entries it counted. */
  ghost predicate Answered(chain: Table, seen: nat, v: Verification) {
    && v.valid && v.checked <= |chain|
    && v == Intact(v.checked, Tail(chain[..v.checked]))
    && seen <= v.checked
  }

  ghost predicate VerifyingOk(rows: Table, v: Verifying) {
    var chain := OfTenant(rows, v.tenantId);
    && v.pageSize > 0 && v.seen <= |chain|
    && match v.walk
       case Walking(_, _, _) => Stands(chain, v.walk)
       case Finished(verdict) => Answered(chain, v.seen, verdict)
  }

  ghost predicate ExportOk(H: Hashing, rows: Table, x: ExportJob) {
    var selected := Select(OfTenant(rows, x.tenantId), x.filter);
    && x.pageSize > 0 && x.seen <= |selected|
    && match x.progress
       case Exporting(_, _) => Yielded(H, selected, x.progress)
       case Done(out) => RowsStay(H, out, selected) && x.seen <= |out|
  }

  ghost predicate ReadersOk(H: Hashing, s: System) {
    && (forall k | k in s.verifications :: VerifyingOk(s.db.rows, s.verifications[k]))
    && (forall k | k in s.exports :: ExportOk(H, s.db.rows, s.exports[k]))
  }

  ghost predicate SystemInv(H: Hashing, LockKey: Text -> int, s: System) {
    && W.Inv(H, LockKey, s.db)
    && StreamsOk(s.db.rows, s.streams)
    && DeliveriesOk(H, s.db.rows, s.streams, s.deliveries)
    && ErasuresOk(H, s.db, s.erasures)
    && ReadersOk(H, s)
  }

  lemma {:induction false} InitialInv(H: Hashing, LockKey: Text -> int)
    ensures SystemInv(H, LockKey, INITIAL)
  {
    W.InitKeepsInv(H, LockKey);
    NoStreamsOk(INITIAL.db.rows);
    NoDeliveriesOk(H, INITIAL.db.rows, NO_STREAMS);
    NoErasuresOk(H);
  }

  /** What the database invariant gives everyone who reads. */
  lemma {:induction false} DbGives(H: Hashing, LockKey: Text -> int, d: W.Db, tenantId: Text)
    requires W.Inv(H, LockKey, d)
    ensures VisibleInOrder(d.rows) && Narrow(d.rows) && Numbered(d.rows)
    ensures IsChain(H, OfTenant(d.rows, tenantId))
  {
    hide VisibleInOrder, IsChain, W.WriterOk, W.Exclusive;
    assert W.Chained(H, d.rows) && W.Below(d.rows, d.nextSequence);
  }

  // ------------------------------------------- readers while the log moves

  lemma {:induction false} VerifyingStays(H: Hashing, a: Table, b: Table, v: Verifying)
    requires Evolves(H, a, b) && VerifyingOk(a, v)
    ensures VerifyingOk(b, v)
  {
    hide RowsStay, VisibleInOrder, Stands, OfTenant, Accepts;
    OfTenantStays(H, a, b, v.tenantId);
    var was, chain := OfTenant(a, v.tenantId), OfTenant(b, v.tenantId);
    assert |was| <= |chain| by { LongerStays(H, was, chain); }
    if v.walk.Walking? {
      WalkStays(H, a, b, v.tenantId, v.walk);
    } else {
      TailOfPrefixStays(H, was, chain, v.walk.verdict.checked);
    }
  }

  lemma {:induction false} LongerStays(H: Hashing, a: Table, b: Table)
    requires RowsStay(H, a, b)
    ensures |a| <= |b|
  {
  }

  lemma {:induction false} TailOfPrefixStays(H: Hashing, a: Table, b: Table, n: nat)
    requires RowsStay(H, a, b) && n <= |a|
    ensures Tail(b[..n]) == Tail(a[..n])
  {
    if n > 0 {
      assert StillAccepted(H, a[n - 1], b[n - 1]);
    }
  }

  lemma {:induction false} ExportJobStays(H: Hashing, a: Table, b: Table, x: ExportJob)
    requires Evolves(H, a, b) && ExportOk(H, a, x)
    ensures ExportOk(H, b, x)
  {
    hide RowsStay, VisibleInOrder, OfTenant, Select, Accepts, Yielded;
    OfTenantStays(H, a, b, x.tenantId);
    SelectStays(H, OfTenant(a, x.tenantId), OfTenant(b, x.tenantId), x.filter);
    var was, selected := Select(OfTenant(a, x.tenantId), x.filter), Select(OfTenant(b, x.tenantId), x.filter);
    assert |was| <= |selected| by { LongerStays(H, was, selected); }
    if x.progress.Exporting? {
      ExportStays(H, a, b, x.tenantId, x.filter, x.progress);
    } else {
      RowsStayTwice(H, x.progress.out, was, selected);
    }
  }

  lemma {:induction false} ReadersStay(H: Hashing, s: System, s': System)
    requires ReadersOk(H, s) && Evolves(H, s.db.rows, s'.db.rows)
    requires s'.verifications == s.verifications && s'.exports == s.exports
    ensures ReadersOk(H, s')
  {
    hide Evolves, VerifyingOk, ExportOk;
    forall k | k in s'.verifications ensures VerifyingOk(s'.db.rows, s'.verifications[k]) {
      VerifyingStays(H, s.db.rows, s'.db.rows, s.verifications[k]);
    }
    forall k | k in s'.exports ensures ExportOk(H, s'.db.rows, s'.exports[k]) {
      ExportJobStays(H, s.db.rows, s'.db.rows, s.exports[k]);
    }
  }

  /** A page of a verification: it goes on, or answers for exactly the chain as it is. */
  lemma {:induction false} VerifyPageKeeps(H: Hashing, rows: Table, v: Verifying)
    requires Numbered(rows) && IsChain(H, OfTenant(rows, v.tenantId))
    requires VerifyingOk(rows, v) && v.walk.Walking?
    ensures var r, chain := VerifyTurn(H, rows, v.tenantId, v.pageSize, v.walk), OfTenant(rows, v.tenantId);
            VerifyingOk(rows, v.(walk := r)) && (r.Finished? ==> r.verdict == Intact(|chain|, Tail(chain)))
  {
    hide Numbered, IsChain, OfTenant, VerifyTurn, Stands;
    var chain := OfTenant(rows, v.tenantId);
    TurnOverLiveLog(H, rows, v.tenantId, v.pageSize, v.walk);
    assert chain[..|chain|] == chain;
  }

  lemma {:induction false} ExportPageKeeps(H: Hashing, rows: Table, x: ExportJob)
    requires Numbered(rows) && ExportOk(H, rows, x) && x.progress.Exporting?
    ensures var r, selected := ExportTurn(rows, x.tenantId, x.filter, x.pageSize, x.progress),
                               Select(OfTenant(rows, x.tenantId), x.filter);
            && ExportOk(H, rows, x.(progress := r))
            && (r.Done? ==> |r.out| == |selected| && RowsStay(H, r.out, selected))
  {
    hide Numbered, OfTenant, Select, ExportTurn, Yielded, RowsStay;
    BatchOverLiveLog(H, rows, x.tenantId, x.filter, x.pageSize, x.progress);
  }

  lemma {:induction false} BeginsOk(H: Hashing, rows: Table, tenantId: Text, f: Filter, pageSize: nat)
    requires pageSize > 0
    ensures VerifyingOk(rows, Verifying(tenantId, pageSize, |OfTenant(rows, tenantId)|, START))
    ensures ExportOk(H, rows, ExportJob(tenantId, f, pageSize, |Select(OfTenant(rows, tenantId), f)|, Exporting(0, [])))
  {
  }

  // ------------------------------------------------------------- each step

  /** What the log's own steps, appends and redactions, are to everyone else. */
  lemma {:induction false} LogMoves(H: Hashing, LockKey: Text -> int, s: System, ev: W.Event, s': System)
    requires HashingOk(H) && SystemInv(H, LockKey, s) && W.Step(H, LockKey, s.db, ev, s'.db)
    requires s'.streams == s.streams && s'.deliveries == s.deliveries
    requires s'.verifications == s.verifications && s'.exports == s.exports
    ensures W.Inv(H, LockKey, s'.db) && Evolves(H, s.db.rows, s'.db.rows)
    ensures StreamsOk(s'.db.rows, s'.streams) && DeliveriesOk(H, s'.db.rows, s'.streams, s'.deliveries)
    ensures ReadersOk(H, s')
  {
    hide W.Inv, W.Step, StreamsOk, DeliveriesOk, ErasuresOk, ReadersOk, Evolves, HashingOk;
    W.StepKeepsInv(H, LockKey, s.db, ev, s'.db);
    W.StepEvolves(H, LockKey, s.db, ev, s'.db);
    StreamsStay(H, s.db.rows, s'.db.rows, s.streams);
    DeliveriesStay(H, s.db.rows, s'.db.rows, s.streams, s.deliveries);
    ReadersStay(H, s, s');
  }

  lemma {:induction false} WritingKeepsInv(H: Hashing, LockKey: Text -> int, s: System, ev: W.Event, s': System)
    requires HashingOk(H) && SystemInv(H, LockKey, s) && Step(H, LockKey, s, Writing(ev), s')
    ensures SystemInv(H, LockKey, s') && Evolves(H, s.db.rows, s'.db.rows)
  {
    hide W.Inv, W.Step, StreamsOk, DeliveriesOk, ErasuresOk, ReadersOk, Evolves, HashingOk;
    LogMoves(H, LockKey, s, ev, s');
    WritingKeepsErasures(H, LockKey, s.db, ev, s'.db, s.erasures);
  }

  /** A redactor's update is one redaction of the log; its other steps leave the log alone. */
  lemma {:induction false} ErasingKeepsInv(H: Hashing, LockKey: Text -> int, s: System, ev: ErasureEvent, s': System)
    requires HashingOk(H) && SystemInv(H, LockKey, s) && Step(H, LockKey, s, Erasing(ev), s')
    ensures SystemInv(H, LockKey, s') && Evolves(H, s.db.rows, s'.db.rows)
  {
    hide W.Inv, W.Step, StreamsOk, DeliveriesOk, ErasuresOk, ReadersOk, Evolves, HashingOk, VisibleInOrder;
    hide AfterUpdate, AfterRead, PartsOf, Rewritten;
    ErasureStepKeepsOk(H, s.db, s.erasures, ev, s'.db, s'.erasures);
    StepIsRedaction(H, LockKey, s.db, s.erasures, ev, s'.db, s'.erasures);
    if ev.UpdateNext? {
      var t := s.erasures.redactors[ev.r];
      LogMoves(H, LockKey, s, W.Redact(t.stage.batch[t.stage.next].row, t.stage.at), s');
    } else {
      DbGives(H, LockKey, s.db, []);
      EvolvesReflexive(H, s.db.rows);
      ReadersStay(H, s, s');
    }
  }

  lemma {:induction false} StreamingKeepsInv(H: Hashing, LockKey: Text -> int, s: System, ev: StreamEvent, s': System)
    requires SystemInv(H, LockKey, s) && Step(H, LockKey, s, Streaming(ev), s')
    ensures SystemInv(H, LockKey, s')
  {
    hide W.Inv, StreamsOk, DeliveriesOk, ErasuresOk, ReadersOk, StreamStep, SinksStay, VisibleInOrder, Narrow, Evolves;
    DbGives(H, LockKey, s.db, []);
    StreamStepKeepsOk(s.db.rows, s.streams, ev, s'.streams);
    StreamStepSinksStay(s.db.rows, s.streams, ev, s'.streams);
    OutboxGrows(H, s.db.rows, s.streams, s'.streams, s.deliveries);
    EvolvesReflexive(H, s.db.rows);
    ReadersStay(H, s, s');
  }

  lemma {:induction false} DeliveringKeepsInv(
    H: Hashing, LockKey: Text -> int, s: System, ev: DeliveryEvent, s': System)
    requires SystemInv(H, LockKey, s) && Step(H, LockKey, s, Delivering(ev), s')
    ensures SystemInv(H, LockKey, s')
  {
    hide W.Inv, StreamsOk, DeliveriesOk, ErasuresOk, ReadersOk, DeliveryStep, VisibleInOrder, Narrow, Evolves;
    DbGives(H, LockKey, s.db, []);
    DeliveryStepKeepsOk(H, s.db.rows, s.streams, s.deliveries, ev, s'.deliveries);
    EvolvesReflexive(H, s.db.rows);
    ReadersStay(H, s, s');
  }

  lemma {:induction false} ReadingKeepsInv(H: Hashing, LockKey: Text -> int, s: System, a: Action, s': System)
    requires SystemInv(H, LockKey, s) && Step(H, LockKey, s, a, s')
    requires a.StartVerify? || a.VerifyPage? || a.StartExport? || a.ExportPage?
    ensures SystemInv(H, LockKey, s')
  {
    hide W.Inv, StreamsOk, DeliveriesOk, ErasuresOk, VerifyingOk, ExportOk, Numbered, IsChain, VerifyTurn, ExportTurn, OfTenant, Select;
    match a
    case StartVerify(k, tenantId, pageSize) =>
      BeginsOk(H, s.db.rows, tenantId, Filter(None, None, None, None, None, None), pageSize);
    case VerifyPage(k) =>
      DbGives(H, LockKey, s.db, s.verifications[k].tenantId);
      VerifyPageKeeps(H, s.db.rows, s.verifications[k]);
    case StartExport(k, tenantId, f, pageSize) =>
      BeginsOk(H, s.db.rows, tenantId, f, pageSize);
    case ExportPage(k) =>
      DbGives(H, LockKey, s.db, []);
      ExportPageKeeps(H, s.db.rows, s.exports[k]);
  }

  lemma {:induction false} StepKeepsInv(H: Hashing, LockKey: Text -> int, s: System, a: Action, s': System)
    requires HashingOk(H) && SystemInv(H, LockKey, s) && Step(H, LockKey, s, a, s')
    ensures SystemInv(H, LockKey, s') && Evolves(H, s.db.rows, s'.db.rows)
  {
    hide SystemInv, Step, Evolves;
    match a
    case Writing(ev) =>
      WritingKeepsInv(H, LockKey, s, ev, s');
    case Erasing(ev) =>
      ErasingKeepsInv(H, LockKey, s, ev, s');
    case Streaming(ev) =>
      StreamingKeepsInv(H, LockKey, s, ev, s');
      ReadingEvolves(H, LockKey, s, a, s');
    case Delivering(ev) =>
      DeliveringKeepsInv(H, LockKey, s, ev, s');
      ReadingEvolves(H, LockKey, s, a, s');
    case _ =>
      ReadingKeepsInv(H, LockKey, s, a, s');
      ReadingEvolves(H, LockKey, s, a, s');
  }

  lemma {:induction false} ReadingEvolves(H: Hashing, LockKey: Text -> int, s: System, a: Action, s': System)
    requires SystemInv(H, LockKey, s) && Step(H, LockKey, s, a, s') && !a.Writing? && !a.Erasing?
    ensures Evolves(H, s.db.rows, s'.db.rows)
  {
    hide W.Inv, StreamsOk, DeliveriesOk, ErasuresOk, ReadersOk, Evolves, StreamStep, DeliveryStep;
    DbGives(H, LockKey, s.db, []);
    EvolvesReflexive(H, s.db.rows);
  }

  // ------------------------------------------------------------- every run

  ghost predicate IsRun(H: Hashing, LockKey: Text -> int, run: seq<System>, actions: seq<Action>) {
    && |run| == |actions| + 1
    && run[0] == INITIAL
    && forall i | 0 <= i < |actions| :: Step(H, LockKey, run[i], actions[i], run[i + 1])
  }

  lemma {:induction false} RunKeepsInv(
    H: Hashing, LockKey: Text -> int, run: seq<System>, actions: seq<Action>, i: nat)
    requires HashingOk(H) && IsRun(H, LockKey, run, actions) && i < |run|
    ensures SystemInv(H, LockKey, run[i])
  {
    hide SystemInv, HashingOk;
    if i == 0 {
      InitialInv(H, LockKey);
    } else {
      RunKeepsInv(H, LockKey, run, actions, i - 1);
      assert Step(H, LockKey, run[i - 1], actions[i - 1], run[i]);
      hide Step;
      StepKeepsInv(H, LockKey, run[i - 1], actions[i - 1], run[i]);
    }
  }

  lemma {:induction false} StepEvolves(
    H: Hashing, LockKey: Text -> int, run: seq<System>, actions: seq<Action>, i: nat)
    requires HashingOk(H) && IsRun(H, LockKey, run, actions) && i < |actions|
    ensures Evolves(H, run[i].db.rows, run[i + 1].db.rows)
  {
    hide SystemInv, HashingOk, Evolves;
    RunKeepsInv(H, LockKey, run, actions, i);
    assert Step(H, LockKey, run[i], actions[i], run[i + 1]);
    hide Step, IsRun;
    StepKeepsInv(H, LockKey, run[i], actions[i], run[i + 1]);
  }

  lemma {:induction false} RunStands(
    H: Hashing, LockKey: Text -> int, run: seq<System>, actions: seq<Action>, i: nat)
    requires HashingOk(H) && IsRun(H, LockKey, run, actions) && i < |run|
    ensures Evolves(H, run[i].db.rows, run[i].db.rows)
  {
    hide *;
    RunKeepsInv(H, LockKey, run, actions, i);
    InvInOrder(H, LockKey, run[i]);
    EvolvesReflexive(H, run[i].db.rows);
  }

  lemma {:induction false} RunLength(H: Hashing, LockKey: Text -> int, run: seq<System>, actions: seq<Action>)
    requires IsRun(H, LockKey, run, actions)
    ensures |run| == |actions| + 1
  {
  }

  lemma {:induction false} RunEvolves(
    H: Hashing, LockKey: Text -> int, run: seq<System>, actions: seq<Action>, i: nat, j: nat)
    requires HashingOk(H) && IsRun(H, LockKey, run, actions) && i <= j < |run|
    ensures Evolves(H, run[i].db.rows, run[j].db.rows)
    decreases j
  {
    hide *;
    if i == j {
      RunStands(H, LockKey, run, actions, i);
    } else {
      RunLength(H, LockKey, run, actions);
      RunEvolves(H, LockKey, run, actions, i, j - 1);
      StepEvolves(H, LockKey, run, actions, j - 1);
      EvolvesTransitive(H, run[i].db.rows, run[j - 1].db.rows, run[j].db.rows);
    }
  }

  lemma {:induction false} InvInOrder(H: Hashing, LockKey: Text -> int, s: System)
    requires SystemInv(H, LockKey, s)
    ensures VisibleInOrder(s.db.rows)
  {
    hide StreamsOk, DeliveriesOk, ErasuresOk, ReadersOk, VisibleInOrder;
    DbGives(H, LockKey, s.db, []);
  }

  // ------------------------------------------------------------ the claims

  /** At every point of every run a tenant's committed entries are one chain from the genesis hash. */
  lemma {:induction false} AlwaysOneChain(
    H: Hashing, LockKey: Text -> int, run: seq<System>, actions: seq<Action>, i: nat, tenantId: Text)
    requires HashingOk(H) && IsRun(H, LockKey, run, actions) && i < |run|
    ensures IsChain(H, OfTenant(run[i].db.rows, tenantId))
  {
    hide IsRun, HashingOk, IsChain, OfTenant, W.Inv, StreamsOk, DeliveriesOk, ErasuresOk, ReadersOk, Numbered, VisibleInOrder, Narrow;
    RunKeepsInv(H, LockKey, run, actions, i);
    DbGives(H, LockKey, run[i].db, tenantId);
  }

  /** Sequence order is the order entries became visible in, for whoever reads. */
  lemma {:induction false} AlwaysInSequenceOrder(
    H: Hashing, LockKey: Text -> int, run: seq<System>, actions: seq<Action>, i: nat, tenantId: Text)
    requires HashingOk(H) && IsRun(H, LockKey, run, actions) && i < |run|
    ensures Ascending(OfTenant(run[i].db.rows, tenantId))
    ensures ChainOf(run[i].db.rows, tenantId) == OfTenant(run[i].db.rows, tenantId)
  {
    hide IsRun, HashingOk, IsChain, ChainOf, OfTenant, Ascending, W.Inv, StreamsOk, DeliveriesOk, ErasuresOk, ReadersOk, Numbered;
    RunKeepsInv(H, LockKey, run, actions, i);
    DbGives(H, LockKey, run[i].db, tenantId);
    ChainIsTenant(run[i].db.rows, tenantId);
  }

  /** No entry becomes visible after one of its tenant with a higher sequence. */
  lemma {:induction false} NothingAppearsBelow(
    H: Hashing, LockKey: Text -> int, run: seq<System>, actions: seq<Action>, i: nat, j: nat, tenantId: Text)
    requires HashingOk(H) && IsRun(H, LockKey, run, actions) && i <= j < |run|
    ensures var was, nums := NumbersOf(run[i].db.rows, tenantId), NumbersOf(run[j].db.rows, tenantId);
            && was <= nums
            && forall a, b | 0 <= a < |was| && |was| <= b < |nums| :: was[a] < nums[b]
  {
    hide IsRun, HashingOk, Evolves, NumbersOf;
    RunEvolves(H, LockKey, run, actions, i, j);
    LogGrows(H, run[i].db.rows, run[j].db.rows, tenantId);
    var was, nums := NumbersOf(run[i].db.rows, tenantId), NumbersOf(run[j].db.rows, tenantId);
    forall a, b | 0 <= a < |was| && |was| <= b < |nums| ensures was[a] < nums[b] {
      assert was[a] == nums[a];
    }
  }

  /** A verification answers valid, for exactly the chain as it stands at its last page. */
  lemma {:induction false} VerifyAlwaysValid(
    H: Hashing, LockKey: Text -> int, run: seq<System>, actions: seq<Action>, i: nat, k: nat)
    requires HashingOk(H) && IsRun(H, LockKey, run, actions) && i < |actions| && actions[i] == VerifyPage(k)
    ensures k in run[i].verifications && k in run[i + 1].verifications
    ensures var v := run[i + 1].verifications[k];
            var chain := OfTenant(run[i].db.rows, v.tenantId);
            if v.walk.Finished? then v.walk.verdict == Intact(|chain|, Tail(chain))
            else v.walk.checked > run[i].verifications[k].walk.checked
  {
    hide HashingOk, IsChain, OfTenant, W.Inv, StreamsOk, DeliveriesOk, ErasuresOk, Numbered, VerifyTurn, ExportOk, Stands;
    RunKeepsInv(H, LockKey, run, actions, i);
    assert Step(H, LockKey, run[i], actions[i], run[i + 1]);
    hide IsRun;
    var v := run[i].verifications[k];
    assert VerifyingOk(run[i].db.rows, v);
    DbGives(H, LockKey, run[i].db, v.tenantId);
    TurnOverLiveLog(H, run[i].db.rows, v.tenantId, v.pageSize, v.walk);
  }

  /** Nor does a later step make an answer wrong: it counts at least what was there at the start. */
  lemma {:induction false} VerifyNeverBroken(
    H: Hashing, LockKey: Text -> int, run: seq<System>, actions: seq<Action>, i: nat, k: nat)
    requires HashingOk(H) && IsRun(H, LockKey, run, actions) && i < |run| && k in run[i].verifications
    ensures var v := run[i].verifications[k];
            v.walk.Finished? ==> Answered(OfTenant(run[i].db.rows, v.tenantId), v.seen, v.walk.verdict)
  {
    hide IsRun, HashingOk, W.Inv, StreamsOk, DeliveriesOk, ErasuresOk, ExportOk, Answered, OfTenant;
    RunKeepsInv(H, LockKey, run, actions, i);
    assert VerifyingOk(run[i].db.rows, run[i].verifications[k]);
  }

  /** An export ends with every matching entry there is at its last page, in order. */
  lemma {:induction false} ExportAlwaysComplete(
    H: Hashing, LockKey: Text -> int, run: seq<System>, actions: seq<Action>, i: nat, k: nat)
    requires HashingOk(H) && IsRun(H, LockKey, run, actions) && i < |actions| && actions[i] == ExportPage(k)
    ensures k in run[i].exports && k in run[i + 1].exports
    ensures var x := run[i + 1].exports[k];
            var selected := Select(OfTenant(run[i].db.rows, x.tenantId), x.filter);
            if x.progress.Done? then |x.progress.out| == |selected| && RowsStay(H, x.progress.out, selected)
            else |x.progress.out| > |run[i].exports[k].progress.out|
  {
    hide HashingOk, OfTenant, Select, W.Inv, StreamsOk, DeliveriesOk, ErasuresOk, Numbered, ExportTurn, VerifyingOk, Yielded, RowsStay;
    RunKeepsInv(H, LockKey, run, actions, i);
    assert Step(H, LockKey, run[i], actions[i], run[i + 1]);
    hide IsRun;
    var x := run[i].exports[k];
    assert ExportOk(H, run[i].db.rows, x);
    DbGives(H, LockKey, run[i].db, []);
    BatchOverLiveLog(H, run[i].db.rows, x.tenantId, x.filter, x.pageSize, x.progress);
  }

  /** Nothing skipped, nothing staged twice, for every sink at every point of every run. */
  lemma {:induction false} AlwaysStagedOnce(
    H: Hashing, LockKey: Text -> int, run: seq<System>, actions: seq<Action>, i: nat, id: nat)
    requires HashingOk(H) && IsRun(H, LockKey, run, actions) && i < |run| && id in run[i].streams.sinks
    ensures var sink := run[i].streams.sinks[id];
            ExactlyOnce(NumbersOf(run[i].db.rows, sink.tenantId), sink.start, sink.cursor,
                        RangesOf(run[i].streams.outbox, id))
  {
    hide IsRun, HashingOk, W.Inv, StreamsOk, DeliveriesOk, ErasuresOk, ReadersOk, ExactlyOnce, NumbersOf, RangesOf;
    RunKeepsInv(H, LockKey, run, actions, i);
    DbGives(H, LockKey, run[i].db, []);
    SinkExactlyOnce(run[i].db.rows, run[i].streams, id);
  }

  /** Deliveries in any order, any number of times, leave exactly the staged entries. */
  lemma {:induction false} AlwaysReadBack(
    H: Hashing, LockKey: Text -> int, run: seq<System>, actions: seq<Action>, i: nat, id: nat, listing: seq<Text>)
    requires HashingOk(H) && IsRun(H, LockKey, run, actions) && i < |run| && id in run[i].streams.sinks
    requires AllDelivered(run[i].streams, run[i].deliveries, id)
    requires IsListing(run[i].deliveries.store, run[i].streams.sinks[id], RangesOf(run[i].streams.outbox, id), listing)
    ensures var sink := run[i].streams.sinks[id];
            Numbers(ReadAll(run[i].deliveries.store, listing))
            == Within(NumbersOf(run[i].db.rows, sink.tenantId), sink.start + 1, sink.cursor)
  {
    hide IsRun, HashingOk, W.Inv, StreamsOk, DeliveriesOk, ErasuresOk, ReadersOk, NumbersOf, RangesOf, IsListing, AllDelivered, Narrow;
    RunKeepsInv(H, LockKey, run, actions, i);
    DbGives(H, LockKey, run[i].db, []);
    DeliveredExactly(H, run[i].db.rows, run[i].streams, run[i].deliveries, id, listing);
  }

  /** The same of everything that lies in the sink's folder, if it shares that with no other. */
  lemma {:induction false} AlwaysReadFolder(
    H: Hashing, LockKey: Text -> int, run: seq<System>, actions: seq<Action>, i: nat, id: nat, listing: seq<Text>)
    requires HashingOk(H) && IsRun(H, LockKey, run, actions) && i < |run| && id in run[i].streams.sinks
    requires AllDelivered(run[i].streams, run[i].deliveries, id) && FolderIsOwn(run[i].streams, id)
    requires var sink := run[i].streams.sinks[id];
             IsFolderListing(run[i].deliveries.store, Folder(sink.keyPrefix, sink.tenantId), listing)
    ensures var sink := run[i].streams.sinks[id];
            Numbers(ReadAll(run[i].deliveries.store, listing))
            == Within(NumbersOf(run[i].db.rows, sink.tenantId), sink.start + 1, sink.cursor)
  {
    hide IsRun, HashingOk, W.Inv, StreamsOk, DeliveriesOk, ErasuresOk, ReadersOk, NumbersOf;
    hide IsFolderListing, FolderIsOwn, AllDelivered, Narrow, Folder;
    RunKeepsInv(H, LockKey, run, actions, i);
    DbGives(H, LockKey, run[i].db, []);
    FolderReadsBack(H, run[i].db.rows, run[i].streams, run[i].deliveries, id, listing);
  }

  /** What a finished redactor left behind, in every run, however many there are. */
  lemma {:induction false} AlwaysErasedExactly(
    H: Hashing, LockKey: Text -> int, run: seq<System>, actions: seq<Action>, i: nat, r: nat)
    requires HashingOk(H) && IsRun(H, LockKey, run, actions) && i < |run|
    requires r in run[i].erasures.redactors && run[i].erasures.redactors[r].stage.Finished?
    ensures ErasedExactly(run[i].db.rows, run[i].erasures, r)
  {
    hide IsRun, HashingOk, W.Inv, StreamsOk, DeliveriesOk, ErasuresOk, ReadersOk, ErasedExactly;
    RunKeepsInv(H, LockKey, run, actions, i);
    FinishedErasedExactly(H, run[i].db, run[i].erasures, r);
  }
}
