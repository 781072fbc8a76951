/** The audit services as a class, in place. */
module AuditDatabase {
  /**
   * One caller at a time over the tables of a database: writing, streaming, redacting,
   * delivering, verifying.
   */

  import opened Common
  import opened JsValues
  import opened AuditEntries
  import opened AuditTable
  import R = AuditReaders
  import W = AuditWriters
  import opened AuditStream
  import S = StorageKeys
  import D = AuditDelivery
  import opened AuditRedaction

  const MAX_BATCHES_PER_RUN: nat := 10
  const VERIFY_BATCH_SIZE: nat := 1000
  const ERROR_MAX_LENGTH: nat := 500

  // ------------------------------------------------- what the methods rely on

  /** hashtext: which key a tenant locks is the database's affair. */
  function AnyKey(tenantId: Text): int { 0 }

  ghost predicate TablesOk(H: Hashing, rows: Table, nextSequence: nat) {
    && W.Inv(H, AnyKey, W.Db(rows, nextSequence, map[]))
    && forall i | 0 <= i < |rows| :: !rows[i].content.data.Undefined?
  }

  function NewEntry(
    H: Hashing, rows: Table, nextSequence: nat, entry: Input, createdAt: int, stored: Value): Entry
  {
    var previousHash := Tail(BySequence(OfTenant(rows, entry.tenantId)));
    Entry(nextSequence, entry.(data := stored), H.hash(previousHash, entry), previousHash, createdAt, None)
  }

  /** One append by a transaction of its own is five steps of the concurrent machine. */
  lemma {:induction false} AppendIsRun(
    H: Hashing, rows: Table, nextSequence: nat, entry: Input, createdAt: int, stored: Value)
    returns (d: seq<W.Db>)
    requires H.keeps(entry.data, stored) && nextSequence <= W.MAX_SEQUENCE
    ensures |d| == 6 && d[0] == W.Db(rows, nextSequence, map[])
    ensures W.Step(H, AnyKey, d[0], W.Begin(0), d[1]) && W.Step(H, AnyKey, d[1], W.Lock(0, entry), d[2])
    ensures W.Step(H, AnyKey, d[2], W.ReadTail(0), d[3]) && W.Step(H, AnyKey, d[3], W.Append(0, createdAt, stored), d[4])
    ensures W.Step(H, AnyKey, d[4], W.Commit(0), d[5])
    ensures d[5] == W.Db(rows + [NewEntry(H, rows, nextSequence, entry, createdAt, stored)], nextSequence + 1, map[])
  {
    hide BySequence, OfTenant;
    var begun := W.Db(rows, nextSequence, map[0 := W.Writer(W.Between, {}, [])]);
    var locked := W.AfterLock(begun, 0, entry, AnyKey(entry.tenantId));
    assert rows + [] == rows;
    var read := W.AfterReadTail(locked, 0);
    var appended := W.AfterAppend(H, read, 0, createdAt, stored);
    var row := NewEntry(H, rows, nextSequence, entry, createdAt, stored);
    assert appended.writers[0].pending == [row];
    var committed := W.AfterCommit(appended, 0);
    assert committed.writers == map[];
    d := [W.Db(rows, nextSequence, map[]), begun, locked, read, appended, committed];
  }

  lemma {:induction false} AppendKeepsInv(
    H: Hashing, rows: Table, nextSequence: nat, entry: Input, createdAt: int, stored: Value)
    requires HashingOk(H) && W.Inv(H, AnyKey, W.Db(rows, nextSequence, map[])) && nextSequence <= W.MAX_SEQUENCE
    requires H.keeps(entry.data, stored)
    ensures var more := rows + [NewEntry(H, rows, nextSequence, entry, createdAt, stored)];
            W.Inv(H, AnyKey, W.Db(more, nextSequence + 1, map[])) && Evolves(H, rows, more)
  {
    hide W.Inv, W.Step, Evolves, HashingOk, NewEntry;
    var d := AppendIsRun(H, rows, nextSequence, entry, createdAt, stored);
    W.StepKeepsInv(H, AnyKey, d[0], W.Begin(0), d[1]);
    W.StepKeepsInv(H, AnyKey, d[1], W.Lock(0, entry), d[2]);
    W.StepKeepsInv(H, AnyKey, d[2], W.ReadTail(0), d[3]);
    W.StepKeepsInv(H, AnyKey, d[3], W.Append(0, createdAt, stored), d[4]);
    W.StepKeepsInv(H, AnyKey, d[4], W.Commit(0), d[5]);
    W.StepEvolves(H, AnyKey, d[0], W.Begin(0), d[1]);
    W.StepEvolves(H, AnyKey, d[1], W.Lock(0, entry), d[2]);
    W.StepEvolves(H, AnyKey, d[2], W.ReadTail(0), d[3]);
    W.StepEvolves(H, AnyKey, d[3], W.Append(0, createdAt, stored), d[4]);
    W.StepEvolves(H, AnyKey, d[4], W.Commit(0), d[5]);
    EvolvesTransitive(H, d[0].rows, d[1].rows, d[2].rows);
    EvolvesTransitive(H, d[0].rows, d[2].rows, d[3].rows);
    EvolvesTransitive(H, d[0].rows, d[3].rows, d[4].rows);
    EvolvesTransitive(H, d[0].rows, d[4].rows, d[5].rows);
  }

  lemma {:induction false} AppendedIsAccepted(H: Hashing, rows: Table, nextSequence: nat, row: Entry)
    requires W.Inv(H, AnyKey, W.Db(rows, nextSequence, map[]))
    requires W.Inv(H, AnyKey, W.Db(rows + [row], nextSequence + 1, map[]))
    ensures Accepts(H, Tail(OfTenant(rows, row.content.tenantId)), row)
  {
    hide Accepts, VisibleInOrder, DistinctSequences;
    var tenantId := row.content.tenantId;
    assert (rows + [row])[..|rows|] == rows;
    assert OfTenant(rows + [row], tenantId) == OfTenant(rows, tenantId) + [row];
    assert IsChain(H, OfTenant(rows, tenantId)) && IsChain(H, OfTenant(rows + [row], tenantId));
    ChainExtends(H, OfTenant(rows, tenantId), row);
  }

  /** What the inserted row is to the one before it in its tenant's chain. */
  ghost predicate Wrote(
    H: Hashing, rows: Table, nextSequence: nat, entry: Input, createdAt: int, stored: Value, after: Table)
  {
    && |after| == |rows| + 1 && after[..|rows|] == rows
    && var row := after[|rows|];
       && row.sequence == nextSequence && row.content == entry.(data := stored)
       && row.createdAt == createdAt && row.redactedAt == None
       && Accepts(H, Tail(OfTenant(rows, entry.tenantId)), row)
  }

  lemma {:induction false} AppendWrites(
    H: Hashing, rows: Table, nextSequence: nat, entry: Input, createdAt: int, stored: Value)
    requires HashingOk(H) && TablesOk(H, rows, nextSequence) && nextSequence <= W.MAX_SEQUENCE
    requires H.keeps(entry.data, stored)
    ensures var more := rows + [NewEntry(H, rows, nextSequence, entry, createdAt, stored)];
            TablesOk(H, more, nextSequence + 1) && Evolves(H, rows, more)
            && Wrote(H, rows, nextSequence, entry, createdAt, stored, more)
  {
    assert !stored.Undefined?;
    hide W.Inv, Evolves, HashingOk, Accepts, OfTenant, BySequence;
    var row := NewEntry(H, rows, nextSequence, entry, createdAt, stored);
    AppendKeepsInv(H, rows, nextSequence, entry, createdAt, stored);
    assert row.content.tenantId == entry.tenantId;
    AppendedIsAccepted(H, rows, nextSequence, row);
  }

  lemma {:induction false} RedactionKeepsTables(H: Hashing, rows: Table, nextSequence: nat, i: nat, at: int)
    requires HashingOk(H) && TablesOk(H, rows, nextSequence) && i < |rows|
    ensures var now := rows[i := W.RedactedRow(H, rows[i], at)];
            TablesOk(H, now, nextSequence) && Evolves(H, rows, now)
  {
    var now := rows[i := W.RedactedRow(H, rows[i], at)];
    var d, d' := W.Db(rows, nextSequence, map[]), W.Db(now, nextSequence, map[]);
    assert W.Step(H, AnyKey, d, W.Redact(i, at), d');
    hide W.Inv, Evolves, HashingOk;
    W.StepKeepsInv(H, AnyKey, d, W.Redact(i, at), d');
    W.StepEvolves(H, AnyKey, d, W.Redact(i, at), d');
  }

  lemma {:induction false} TablesInOrder(H: Hashing, rows: Table, nextSequence: nat)
    requires TablesOk(H, rows, nextSequence)
    ensures VisibleInOrder(rows)
  {
  }

  /** Sinks, and what was staged for them, with no transaction under way. */
  function AtRest(sinks: map<nat, Sink>, known: map<nat, Text>, outbox: seq<Message>): Streams {
    Streams(sinks, known, map[], map[], outbox)
  }

  /** One undisturbed stageNextBatch is four steps of the concurrent machine: two to read, */
  lemma {:induction false} StageReads(rows: Table, s: Streams, id: nat, from: nat, to: nat) returns (read: Streams)
    requires VisibleInOrder(rows) && StreamsOk(rows, s) && s.streamers == map[]
    requires id in s.sinks && s.sinks[id].active
    requires var page := Page(rows, s.sinks[id].tenantId, s.sinks[id].cursor, STREAM_BATCH_SIZE);
             page != [] && from == page[0].sequence && to == page[|page| - 1].sequence
    ensures StreamsOk(rows, read)
    ensures read == s.(streamers := map[0 := Streamer(id, s.sinks[id].tenantId, s.sinks[id].cursor, Chosen(from, to))])
  {
    var t := Streamer(id, s.sinks[id].tenantId, s.sinks[id].cursor, Began);
    var begun := s.(streamers := s.streamers[0 := t]);
    read := AfterReadEntries(rows, begun, 0);
    assert read.streamers[0] == t.(phase := Chosen(from, to));
    hide StreamsOk, VisibleInOrder, Page, AfterSwap, AfterCommitBatch, Unlocked;
    StreamStepKeepsOk(rows, s, BeginBatch(0, id), begun);
    StreamStepKeepsOk(rows, begun, ReadEntries(0), read);
  }

  /** and two to write. */
  lemma {:induction false} StageWrites(rows: Table, s: Streams, id: nat, from: nat, to: nat)
    requires VisibleInOrder(rows) && StreamsOk(rows, s) && id in s.sinks
    requires s.streamers == map[0 := Streamer(id, s.sinks[id].tenantId, s.sinks[id].cursor, Chosen(from, to))]
    ensures StreamsOk(rows, s.(sinks := s.sinks[id := s.sinks[id].(cursor := to)],
                               outbox := s.outbox + [Message(id, s.sinks[id].tenantId, from, to)],
                               streamers := map[]))
  {
    var moved := AfterSwap(s, 0);
    var done := AfterCommitBatch(moved, 0);
    assert done.streamers == map[];
    hide StreamsOk, VisibleInOrder, AfterReadEntries;
    StreamStepKeepsOk(rows, s, Swap(0), moved);
    StreamStepKeepsOk(rows, moved, CommitBatch(0), done);
  }

  lemma {:induction false} StageKeepsStreams(rows: Table, s: Streams, id: nat, from: nat, to: nat)
    requires VisibleInOrder(rows) && StreamsOk(rows, s) && s.streamers == map[]
    requires id in s.sinks && s.sinks[id].active
    requires var page := Page(rows, s.sinks[id].tenantId, s.sinks[id].cursor, STREAM_BATCH_SIZE);
             page != [] && from == page[0].sequence && to == page[|page| - 1].sequence
    ensures StreamsOk(rows, s.(sinks := s.sinks[id := s.sinks[id].(cursor := to)],
                               outbox := s.outbox + [Message(id, s.sinks[id].tenantId, from, to)]))
  {
    hide *;
    var read := StageReads(rows, s, id, from, to);
    StageWrites(rows, read, id, from, to);
  }

  /** A sink is created by two steps of the machine: the tail is read, then the row written. */
  lemma {:induction false} CreateKeepsStreams(
    rows: Table, s: Streams, id: nat, tenantId: Text, keyPrefix: Text, backfill: bool, active: bool)
    requires VisibleInOrder(rows) && StreamsOk(rows, s) && s.creators == map[] && id !in s.known
    ensures var start := if backfill then 0 else MaxSequence(OfTenant(rows, tenantId));
            StreamsOk(rows, s.(sinks := s.sinks[id := Sink(tenantId, keyPrefix, start, start, active)],
                               known := s.known[id := keyPrefix]))
  {
    var start := if backfill then 0 else MaxSequence(OfTenant(rows, tenantId));
    var read := s.(creators := s.creators[0 := Creator(tenantId, start)]);
    var sink := Sink(tenantId, keyPrefix, start, start, active);
    var made := read.(sinks := s.sinks[id := sink], known := s.known[id := keyPrefix], creators := read.creators - {0});
    assert made.creators == map[];
    hide StreamsOk, VisibleInOrder, MaxSequence, OfTenant;
    StreamStepKeepsOk(rows, s, ReadStart(0, tenantId, backfill), read);
    StreamStepKeepsOk(rows, read, Create(0, id, keyPrefix, active), made);
  }

  lemma {:induction false} SetActiveKeepsStreams(rows: Table, s: Streams, id: nat, active: bool)
    requires VisibleInOrder(rows) && StreamsOk(rows, s) && s.streamers == map[] && id in s.sinks
    ensures StreamsOk(rows, s.(sinks := s.sinks[id := s.sinks[id].(active := active)]))
  {
    hide StreamsOk, VisibleInOrder;
    StreamStepKeepsOk(rows, s, SetActive(id, active), s.(sinks := s.sinks[id := s.sinks[id].(active := active)]));
  }

  lemma {:induction false} RemoveKeepsStreams(rows: Table, s: Streams, id: nat)
    requires VisibleInOrder(rows) && StreamsOk(rows, s) && s.streamers == map[] && id in s.sinks
    ensures StreamsOk(rows, s.(sinks := s.sinks - {id}))
  {
    hide StreamsOk, VisibleInOrder;
    StreamStepKeepsOk(rows, s, Remove(id), s.(sinks := s.sinks - {id}));
  }

  // ------------------------------------------------------ how far a batch goes

  /** How many numbers a cursor has passed. */
  function Position(nums: seq<nat>, cursor: nat): (k: nat)
    ensures k <= |nums|
  {
    if nums == [] then 0
    else Position(nums[..|nums| - 1], cursor) + (if nums[|nums| - 1] <= cursor then 1 else 0)
  }

  lemma {:induction false} PositionSplits(rows: Table, cursor: nat, k: nat)
    requires Passed(rows, cursor, k)
    ensures Position(Numbers(rows), cursor) == k
  {
    if rows != [] {
      var front, n := rows[..|rows| - 1], |rows| - 1;
      assert Numbers(rows)[..n] == Numbers(front);
      assert rows[n].sequence <= cursor <==> k == |rows|;
      PositionSplits(front, cursor, if k == |rows| then k - 1 else k);
    }
  }

  function Min(a: nat, b: nat): nat { if a < b then a else b }

  /** A batch takes 500 entries, or all there are. */
  lemma {:induction false} BatchAdvances(rows: Table, cursor: nat)
    requires Ascending(rows)
    ensures var k, page := Position(Numbers(rows), cursor), PageOf(rows, cursor, STREAM_BATCH_SIZE);
            && |page| == Min(STREAM_BATCH_SIZE, |rows| - k)
            && (page != [] ==> Position(Numbers(rows), page[|page| - 1].sequence) == k + |page|)
  {
    var k := PageOfAscending(rows, cursor, STREAM_BATCH_SIZE);
    var page := PageOf(rows, cursor, STREAM_BATCH_SIZE);
    hide PageOf, Position, Above, BySequence;
    PositionSplits(rows, cursor, k);
    if page != [] {
      assert page[|page| - 1] == rows[k + |page| - 1];
      R.AscendingPassed(rows, rows[k + |page| - 1].sequence, k + |page|);
      PositionSplits(rows, rows[k + |page| - 1].sequence, k + |page|);
    }
  }

  /** How many batches a run stages when `left` entries are unseen. */
  function Batches(left: nat): (n: nat)
    ensures n <= 10 && (n < 10 ==> left <= 500 * n) && (n > 0 ==> 500 * (n - 1) < left)
  {
    Min(MAX_BATCHES_PER_RUN, (left + STREAM_BATCH_SIZE - 1) / STREAM_BATCH_SIZE)
  }

  /** How many entries a sink that streams has not seen. */
  function Unseen(rows: Table, sinks: map<nat, Sink>, id: nat): nat {
    if id in sinks && sinks[id].active then
      var nums := NumbersOf(rows, sinks[id].tenantId);
      |nums| - Position(nums, sinks[id].cursor)
    else 0
  }

  /** From 0 all of a tenant's numbers lie ahead, from its tail none. */
  lemma {:induction false} StartSees(H: Hashing, rows: Table, nextSequence: nat, tenantId: Text)
    requires TablesOk(H, rows, nextSequence)
    ensures |NumbersOf(rows, tenantId)| == |OfTenant(rows, tenantId)|
    ensures Position(NumbersOf(rows, tenantId), 0) == 0
    ensures Position(NumbersOf(rows, tenantId), MaxSequence(OfTenant(rows, tenantId))) == |OfTenant(rows, tenantId)|
  {
    var mine := OfTenant(rows, tenantId);
    forall i | 0 <= i < |mine| ensures mine[i].sequence >= 1 {
      OfTenantHolds(rows, tenantId, mine[i]);
    }
    hide TablesOk, OfTenant;
    PositionSplits(mine, 0, 0);
    MaxIsHighest(mine);
    PositionSplits(mine, MaxSequence(mine), |mine|);
  }

  /** One message more, and the cursor on its end: 500 entries on, or at the log's end. */
  ghost predicate StagedNext(
    rows: Table, sinks: map<nat, Sink>, outbox: seq<Message>, id: nat, sinks': map<nat, Sink>, outbox': seq<Message>)
  {
    && id in sinks && sinks[id].active
    && |outbox'| == |outbox| + 1 && outbox'[..|outbox|] == outbox
    && var sink, m := sinks[id], outbox'[|outbox|];
       var nums := NumbersOf(rows, sink.tenantId);
       && m.sinkId == id && m.tenantId == sink.tenantId
       && sinks' == sinks[id := sink.(cursor := m.to)]
       && Segment(nums, sink.cursor, m.from, m.to)
       && Position(nums, m.to) == Min(Position(nums, sink.cursor) + STREAM_BATCH_SIZE, |nums|)
  }

  lemma {:induction false} StageNext(H: Hashing, rows: Table, s: Streams, id: nat)
    requires VisibleInOrder(rows) && StreamsOk(rows, s) && s.streamers == map[]
    requires id in s.sinks && s.sinks[id].active
    ensures var sink := s.sinks[id];
            var page := Page(rows, sink.tenantId, sink.cursor, STREAM_BATCH_SIZE);
            && (page == [] <==> Unseen(rows, s.sinks, id) == 0)
            && (page != [] ==>
                  var (from, to) := (page[0].sequence, page[|page| - 1].sequence);
                  var sinks := s.sinks[id := sink.(cursor := to)];
                  var outbox := s.outbox + [Message(id, sink.tenantId, from, to)];
                  && StagedNext(rows, s.sinks, s.outbox, id, sinks, outbox)
                  && StreamsOk(rows, s.(sinks := sinks, outbox := outbox)))
  {
    hide StreamsOk, VisibleInOrder, Ascending, Segment, Position, PageOf;
    var sink := s.sinks[id];
    var mine := OfTenant(rows, sink.tenantId);
    OfTenantAscending(rows, sink.tenantId);
    BatchAdvances(mine, sink.cursor);
    PageIsSegment(mine, sink.cursor);
    var page := PageOf(mine, sink.cursor, STREAM_BATCH_SIZE);
    if page != [] {
      StageKeepsStreams(rows, s, id, page[0].sequence, page[|page| - 1].sequence);
    }
  }

  /** So many batches on from where a run began. */
  ghost predicate Streamed(
    rows: Table, sinks: map<nat, Sink>, outbox: seq<Message>, id: nat, staged: nat,
    sinks': map<nat, Sink>, outbox': seq<Message>)
  {
    var left := Unseen(rows, sinks, id);
    && |outbox'| == |outbox| + staged && outbox'[..|outbox|] == outbox
    && Unseen(rows, sinks', id) == left - Min(left, staged * STREAM_BATCH_SIZE)
    && (staged > 0 ==> (staged - 1) * STREAM_BATCH_SIZE < left)
    && sinks'.Keys == sinks.Keys
    && (forall other | other in sinks && other != id :: sinks'[other] == sinks[other])
  }

  lemma {:induction false} StagedNextSees(
    rows: Table, sinks: map<nat, Sink>, outbox: seq<Message>, id: nat, sinks': map<nat, Sink>, outbox': seq<Message>)
    requires StagedNext(rows, sinks, outbox, id, sinks', outbox')
    ensures Unseen(rows, sinks', id) == Unseen(rows, sinks, id) - Min(Unseen(rows, sinks, id), STREAM_BATCH_SIZE)
  {
    hide Segment, Position, NumbersOf;
  }

  lemma {:induction false} StreamedMore(
    rows: Table, sinks: map<nat, Sink>, outbox: seq<Message>, id: nat, staged: nat,
    mid: map<nat, Sink>, midbox: seq<Message>, sinks': map<nat, Sink>, outbox': seq<Message>)
    requires Streamed(rows, sinks, outbox, id, staged, mid, midbox) && Unseen(rows, mid, id) > 0
    requires StagedNext(rows, mid, midbox, id, sinks', outbox')
    ensures Streamed(rows, sinks, outbox, id, staged + 1, sinks', outbox')
  {
    StagedNextSees(rows, mid, midbox, id, sinks', outbox');
    hide Segment, Position, NumbersOf, Unseen;
    assert outbox'[..|outbox|] == midbox[..|outbox|];
  }

  lemma {:induction false} StreamedNone(rows: Table, sinks: map<nat, Sink>, outbox: seq<Message>, id: nat)
    ensures Streamed(rows, sinks, outbox, id, 0, sinks, outbox)
  {
    hide Unseen;
  }

  lemma {:induction false} StreamedAll(
    rows: Table, sinks: map<nat, Sink>, outbox: seq<Message>, id: nat, staged: nat,
    sinks': map<nat, Sink>, outbox': seq<Message>)
    requires Streamed(rows, sinks, outbox, id, staged, sinks', outbox') && staged <= MAX_BATCHES_PER_RUN
    requires staged == MAX_BATCHES_PER_RUN || Unseen(rows, sinks', id) == 0
    ensures staged == Batches(Unseen(rows, sinks, id))
  {
    hide Unseen;
  }

  /** Tables in order: the one verdict there is on a tenant's chain. */
  lemma {:induction false} VerdictIsIntact(H: Hashing, rows: Table, nextSequence: nat, tenantId: Text, v: Verification)
    requires TablesOk(H, rows, nextSequence)
    ensures DistinctSequences(OfTenant(rows, tenantId))
    ensures IsVerdict(H, R.ChainOf(rows, tenantId), v) ==>
              v == R.Intact(|OfTenant(rows, tenantId)|, Tail(OfTenant(rows, tenantId)))
  {
    hide VisibleInOrder, R.ChainOf, OfTenant, DistinctSequences, Accepts;
    assert R.Numbered(rows) && W.Chained(H, rows);
    R.ChainIsTenant(rows, tenantId);
    R.AscendingDistinct(OfTenant(rows, tenantId));
  }

  // -------------------------------------------------------------- redacting

  /** The rest of a batch is still to redact. */
  ghost predicate BatchLeft(scope: Scope, rows: Table, positions: seq<nat>, k: nat) {
    forall j | k <= j < |positions| :: positions[j] < |rows| && IsPending(scope, rows[positions[j]])
  }

  lemma {:induction false} BatchBegins(scope: Scope, rows: Table, n: nat)
    requires n <= |Pending(rows, scope)|
    ensures BatchLeft(scope, rows, Pending(rows, scope)[..n], 0)
    ensures forall i, j | 0 <= i < j < n :: Pending(rows, scope)[i] != Pending(rows, scope)[j]
  {
    var p := Pending(rows, scope);
    PendingRises(rows, scope);
    forall j | 0 <= j < n ensures IsPending(scope, rows[p[j]]) {
      PendingHolds(rows, scope, p[j]);
    }
  }

  /** One update: the row is redacted, what was done before stays done, and no reader notices. */
  lemma {:induction false} RedactOne(H: Hashing, scope: Scope, was: Table, rows: Table, nextSequence: nat, i: nat, at: int)
    requires HashingOk(H) && TablesOk(H, rows, nextSequence) && i < |rows| && IsPending(scope, rows[i])
    requires OnlyRedacted(H, scope, was, rows) && Evolves(H, was, rows)
    ensures !rows[i].content.data.Undefined?
    ensures var now := rows[i := W.RedactedRow(H, rows[i], at)];
            && TablesOk(H, now, nextSequence) && OnlyRedacted(H, scope, was, now)
            && Evolves(H, was, now) && Evolves(H, rows, now)
            && |Pending(now, scope)| + 1 == |Pending(rows, scope)|
  {
    assert !rows[i].content.data.Undefined?;
    var now := rows[i := W.RedactedRow(H, rows[i], at)];
    hide TablesOk, Evolves, HashingOk, Pending;
    RedactionKeepsTables(H, rows, nextSequence, i, at);
    EvolvesTransitive(H, was, rows, now);
    OneFewerPending(rows, scope, i, now[i]);
    assert Redacted(H, scope, was[i], rows[i]) && rows[i].redactedAt.None?;
    assert forall j | 0 <= j < |was| && j != i :: Redacted(H, scope, was[j], rows[j]) && now[j] == rows[j];
  }

  lemma {:induction false} BatchGoesOn(
    H: Hashing, scope: Scope, rows: Table, positions: seq<nat>, k: nat, e: Entry)
    requires BatchLeft(scope, rows, positions, k) && k < |positions| && positions[k] < |rows|
    requires forall i, j | 0 <= i < j < |positions| :: positions[i] != positions[j]
    ensures BatchLeft(scope, rows[positions[k] := e], positions, k + 1)
  {
    hide IsPending;
  }

  lemma {:induction false} NothingErased(H: Hashing, scope: Scope, rows: Table)
    ensures OnlyRedacted(H, scope, rows, rows)
    ensures Pending(rows, scope) == [] ==> Erased(H, scope, rows, rows)
  {
    NothingPending(rows, scope);
  }

  lemma {:induction false} AllErased(H: Hashing, scope: Scope, was: Table, now: Table)
    requires OnlyRedacted(H, scope, was, now) && Pending(now, scope) == []
    ensures Erased(H, scope, was, now)
  {
    NothingPending(now, scope);
  }

  /** chunked: the items, in order, none lost or repeated, every chunk but the last full. */
  method Chunked<T>(items: seq<T>, size: nat) returns (chunks: seq<seq<T>>)
    requires size > 0
    ensures AreChunks(items, size, chunks)
  {
    chunks := [];
    var start := 0;
    assert items[..0] == [];
    while start < |items|
      invariant Flatten(chunks) == items[..if start < |items| then start else |items|]
      invariant forall i | 0 <= i < |chunks| :: 0 < |chunks[i]| <= size
      invariant forall i | 0 <= i < |chunks| - 1 :: |chunks[i]| == size
      invariant start < |items| && chunks != [] ==> |chunks[|chunks| - 1]| == size
      invariant start >= 0
    {
      var end := if start + size < |items| then start + size else |items|;
      FlattenSnoc(chunks, items[start..end]);
      assert items[..start] + items[start..end] == items[..end];
      chunks := chunks + [items[start..end]];
      start := start + size;
    }
    assert items[..|items|] == items;
  }

  // ---------------------------------------------------------------- the class

  /** What the admin sees of a sink's deliveries. */
  datatype Health = Health(lastError: Option<Text>, lastDeliveredAt: Option<int>, lastDeliveredSequence: Option<nat>)

  const UNTRIED: Health := Health(None, None, None)

  function HealthOf(health: map<nat, Health>, id: nat): Health {
    if id in health then health[id] else UNTRIED
  }

  predicate Reachable(sinks: map<nat, Sink>, m: Message) {
    m.sinkId in sinks && sinks[m.sinkId].tenantId == m.tenantId
  }

  function Cut(error: Text): (cut: Text)
    ensures cut <= error && |cut| <= 500 && (|error| <= 500 ==> cut == error) && (|error| > 500 ==> |cut| == 500)
  {
    if |error| <= ERROR_MAX_LENGTH then error else error[..ERROR_MAX_LENGTH]
  }

  class AuditDatabase {
    const H: Hashing
    var rows: Table
    var nextSequence: nat
    var sinks: map<nat, Sink>
    var outbox: seq<Message>
    var health: map<nat, Health>
    var store: D.Store
    ghost var known: map<nat, Text>

    ghost predicate Valid()
      reads this
    {
      && HashingOk(H)
      && TablesOk(H, rows, nextSequence)
      && StreamsOk(rows, AtRest(sinks, known, outbox))
    }

    constructor (hashing: Hashing)
      requires HashingOk(hashing)
      ensures Valid() && H == hashing
      ensures rows == [] && sinks == map[] && outbox == [] && store == map[]
    {
      H := hashing;
      rows := [];
      nextSequence := 1;
      sinks := map[];
      outbox := [];
      health := map[];
      store := map[];
      known := map[];
      new;
      W.InitKeepsInv(H, AnyKey);
      NoStreamsOk([]);
    }

    /**
     * writeAuditLog: the tail's hash, the new one, the insert. `stored` is what the JSON
     * column makes of the data; a full sequence refuses the row.
     */
    method WriteAuditLog(entry: Input, createdAt: int, stored: Value) returns (ok: bool)
      requires Valid() && H.keeps(entry.data, stored)
      modifies `rows, `nextSequence
      ensures Valid()
      ensures ok == (old(nextSequence) <= 0x7fffffff)
      ensures !ok ==> rows == old(rows) && nextSequence == old(nextSequence)
      ensures ok ==> Wrote(H, old(rows), old(nextSequence), entry, createdAt, stored, rows)
      ensures ok ==> nextSequence == old(nextSequence) + 1
    {
      hide TablesOk, StreamsOk, HashingOk, Evolves, Wrote;
      if nextSequence > W.MAX_SEQUENCE {
        return false;
      }
      var mine := BySequence(OfTenant(rows, entry.tenantId));
      var previousHash := if mine == [] then GENESIS else mine[|mine| - 1].hash;
      var hash := H.hash(previousHash, entry);
      var row := Entry(nextSequence, entry.(data := stored), hash, previousHash, createdAt, None);
      assert row == NewEntry(H, rows, nextSequence, entry, createdAt, stored);
      hide NewEntry, BySequence, OfTenant;
      AppendWrites(H, rows, nextSequence, entry, createdAt, stored);
      StreamsStay(H, rows, rows + [row], AtRest(sinks, known, outbox));
      rows := rows + [row];
      nextSequence := nextSequence + 1;
      return true;
    }

    /** stageNextBatch, undisturbed: the batch after the cursor is staged and the cursor on its end. */
    method StageNextBatch(id: nat) returns (staged: bool)
      requires Valid()
      modifies `sinks, `outbox
      ensures Valid()
      ensures staged <==> Unseen(rows, old(sinks), id) > 0
      ensures staged ==> StagedNext(rows, old(sinks), old(outbox), id, sinks, outbox)
      ensures !staged ==> sinks == old(sinks) && outbox == old(outbox)
    {
      hide TablesOk, StreamsOk, HashingOk, VisibleInOrder, Page, StagedNext, NumbersOf, Position;
      if id !in sinks || !sinks[id].active {
        return false;
      }
      var sink := sinks[id];
      var entries := Page(rows, sink.tenantId, sink.cursor, STREAM_BATCH_SIZE);
      TablesInOrder(H, rows, nextSequence);
      StageNext(H, rows, AtRest(sinks, known, outbox), id);
      hide Unseen;
      if |entries| == 0 {
        return false;
      }
      var first, last := entries[0], entries[|entries| - 1];
      sinks := sinks[id := sink.(cursor := last.sequence)];
      outbox := outbox + [Message(id, sink.tenantId, first.sequence, last.sequence)];
      return true;
    }

    /**
     * streamSink: at most ten batches, each 500 entries but the last; it stops early only
     * when nothing is left unseen.
     */
    method StreamSink(id: nat) returns (staged: nat)
      requires Valid()
      modifies `sinks, `outbox
      ensures Valid()
      ensures staged == Batches(Unseen(rows, old(sinks), id))
      ensures Streamed(rows, old(sinks), old(outbox), id, staged, sinks, outbox)
    {
      hide TablesOk, StreamsOk, HashingOk, StagedNext, Streamed, Unseen;
      staged := 0;
      StreamedNone(rows, sinks, outbox, id);
      while staged < MAX_BATCHES_PER_RUN
        invariant Valid()
        invariant staged <= MAX_BATCHES_PER_RUN
        invariant Streamed(rows, old(sinks), old(outbox), id, staged, sinks, outbox)
      {
        ghost var mid, midbox := sinks, outbox;
        var more := StageNextBatch(id);
        if !more {
          StreamedAll(rows, old(sinks), old(outbox), id, staged, sinks, outbox);
          return;
        }
        StreamedMore(rows, old(sinks), old(outbox), id, staged, mid, midbox, sinks, outbox);
        staged := staged + 1;
      }
      StreamedAll(rows, old(sinks), old(outbox), id, staged, sinks, outbox);
    }

    /**
     * AuditSinkService.create: without backfill the cursor starts at the tenant's tail, so
     * that the sink has nothing unseen yet; with it, everything.
     */
    method CreateSink(id: nat, tenantId: Text, keyPrefix: Text, backfill: bool, active: bool)
      requires Valid() && id !in known
      modifies `sinks, `known
      ensures Valid() && known == old(known)[id := keyPrefix]
      ensures id in sinks && sinks == old(sinks)[id := sinks[id]]
      ensures var sink := sinks[id];
              && sink.tenantId == tenantId && sink.keyPrefix == keyPrefix && sink.active == active
              && sink.cursor == sink.start
      ensures Unseen(rows, sinks, id) == if active && backfill then |OfTenant(rows, tenantId)| else 0
    {
      hide TablesOk, StreamsOk, HashingOk, VisibleInOrder, NumbersOf, Position, MaxSequence, OfTenant;
      var start := if backfill then 0 else MaxSequence(OfTenant(rows, tenantId));
      TablesInOrder(H, rows, nextSequence);
      CreateKeepsStreams(rows, AtRest(sinks, known, outbox), id, tenantId, keyPrefix, backfill, active);
      StartSees(H, rows, nextSequence, tenantId);
      known := known[id := keyPrefix];
      sinks := sinks[id := Sink(tenantId, keyPrefix, start, start, active)];
    }

    /** Deactivating and reactivating move no cursor: what is unseen waits. */
    method SetSinkActive(id: nat, active: bool) returns (found: bool)
      requires Valid()
      modifies `sinks
      ensures Valid() && found == (id in old(sinks))
      ensures sinks == if found then old(sinks)[id := old(sinks)[id].(active := active)] else old(sinks)
    {
      hide TablesOk, StreamsOk, HashingOk;
      if id !in sinks {
        return false;
      }
      assert VisibleInOrder(rows) by { TablesInOrder(H, rows, nextSequence); }
      SetActiveKeepsStreams(rows, AtRest(sinks, known, outbox), id, active);
      sinks := sinks[id := sinks[id].(active := active)];
      return true;
    }

    /** What was staged for a removed sink stays in the outbox; its delivery ends at once. */
    method RemoveSink(id: nat) returns (found: bool)
      requires Valid()
      modifies `sinks
      ensures Valid() && found == (id in old(sinks)) && sinks == old(sinks) - {id}
      ensures forall i | 0 <= i < |outbox| && outbox[i].sinkId == id :: !Reachable(sinks, outbox[i])
    {
      hide TablesOk, StreamsOk, HashingOk;
      if id in sinks {
        assert VisibleInOrder(rows) by { TablesInOrder(H, rows, nextSequence); }
        RemoveKeepsStreams(rows, AtRest(sinks, known, outbox), id);
      } else {
        assert sinks - {id} == sinks;
      }
      found := id in sinks;
      sinks := sinks - {id};
    }

    /** verify answers valid on whatever the other methods left behind. */
    method VerifyTenant(tenantId: Text) returns (v: Verification)
      requires Valid()
      ensures v.valid && v.checked == |OfTenant(rows, tenantId)|
      ensures v == R.Intact(|OfTenant(rows, tenantId)|, Tail(OfTenant(rows, tenantId)))
    {
      hide TablesOk, StreamsOk, HashingOk, IsVerdict, R.ChainOf, DistinctSequences;
      VerdictIsIntact(H, rows, nextSequence, tenantId, R.Intact(0, GENESIS));
      v := R.Verify(H, rows, tenantId, VERIFY_BATCH_SIZE);
      VerdictIsIntact(H, rows, nextSequence, tenantId, v);
    }

    /** The updates of one batch, entry by entry, at one time. */
    method RedactBatch(scope: Scope, positions: seq<nat>, redactedAt: int, ghost was: Table)
      requires Valid() && BatchLeft(scope, rows, positions, 0)
      requires forall i, j | 0 <= i < j < |positions| :: positions[i] != positions[j]
      requires OnlyRedacted(H, scope, was, rows) && Evolves(H, was, rows)
      modifies `rows
      ensures Valid() && OnlyRedacted(H, scope, was, rows) && Evolves(H, was, rows)
      ensures |Pending(rows, scope)| + |positions| == |Pending(old(rows), scope)|
    {
      hide TablesOk, StreamsOk, HashingOk, Evolves, OnlyRedacted, Pending, IsPending, W.RedactedRow;
      for k := 0 to |positions|
        invariant Valid() && OnlyRedacted(H, scope, was, rows) && Evolves(H, was, rows)
        invariant BatchLeft(scope, rows, positions, k)
        invariant |Pending(rows, scope)| + k == |Pending(old(rows), scope)|
      {
        var i := positions[k];
        RedactOne(H, scope, was, rows, nextSequence, i, redactedAt);
        var now := W.RedactedRow(H, rows[i], redactedAt);
        BatchGoesOn(H, scope, rows, positions, k, now);
        StreamsStay(H, rows, rows[i := now], AtRest(sinks, known, outbox));
        rows := rows[i := now];
      }
    }

    /**
     * redactMatching: batch after batch until nothing matches. Every row in scope is
     * redacted, none other is touched, and the count is how many were not before.
     */
    method RedactMatching(scope: Scope) returns (redacted: nat)
      requires Valid()
      modifies `rows
      ensures Valid() && Erased(H, scope, old(rows), rows) && Evolves(H, old(rows), rows)
      ensures redacted == |Pending(old(rows), scope)|
    {
      redacted := 0;
      NothingErased(H, scope, rows);
      TablesInOrder(H, rows, nextSequence);
      EvolvesReflexive(H, rows);
      hide TablesOk, StreamsOk, HashingOk, Evolves, OnlyRedacted, Erased, Pending, BatchLeft;
      while true
        invariant Valid() && OnlyRedacted(H, scope, old(rows), rows) && Evolves(H, old(rows), rows)
        invariant redacted + |Pending(rows, scope)| == |Pending(old(rows), scope)|
        decreases |Pending(rows, scope)|
      {
        var matching := Pending(rows, scope);
        var entries := if |matching| <= REDACTION_BATCH_SIZE then matching else matching[..REDACTION_BATCH_SIZE];
        assert entries == matching[..|entries|];
        if |entries| == 0 {
          AllErased(H, scope, old(rows), rows);
          return;
        }
        var redactedAt: int := *;
        BatchBegins(scope, rows, |entries|);
        RedactBatch(scope, entries, redactedAt, old(rows));
        redacted := redacted + |entries|;
      }
    }

    /**
     * redactAuditEntries: over at most a thousand record ids at a time. Ids given twice, in
     * one chunk or in two, are counted once.
     */
    method RedactAuditEntries(scope: Scope) returns (redacted: nat)
      requires Valid()
      modifies `rows
      ensures Valid() && Erased(H, scope, old(rows), rows) && Evolves(H, old(rows), rows)
      ensures redacted == |Pending(old(rows), scope)|
    {
      hide TablesOk, StreamsOk, HashingOk, Evolves, OnlyRedacted, Erased, Pending;
      NoIdsNothingPending(rows, scope);
      NothingErased(H, scope, rows);
      NothingErased(H, Part(scope, []), rows);
      assert Evolves(H, rows, rows) by {
        TablesInOrder(H, rows, nextSequence);
        EvolvesReflexive(H, rows);
      }
      if scope.models == [] {
        return 0;
      }
      if scope.recordIds.None? {
        redacted := RedactMatching(scope);
        return;
      }
      var chunks := Chunked(scope.recordIds.value, RECORD_ID_CHUNK_SIZE);
      redacted := 0;
      for c := 0 to |chunks|
        invariant Valid() && Evolves(H, old(rows), rows)
        invariant Erased(H, Part(scope, Flatten(chunks[..c])), old(rows), rows)
        invariant redacted == |Pending(old(rows), Part(scope, Flatten(chunks[..c])))|
      {
        ghost var done, mid := Flatten(chunks[..c]), rows;
        var more := RedactMatching(Part(scope, chunks[c]));
        PartsJoin(H, scope, done, chunks[c], old(rows), mid, rows);
        CountsJoin(H, scope, done, chunks[c], old(rows), mid);
        EvolvesTransitive(H, old(rows), mid, rows);
        FlattenSnoc(chunks[..c], chunks[c]);
        assert chunks[..c + 1] == chunks[..c] + [chunks[c]];
        redacted := redacted + more;
      }
      assert chunks[..|chunks|] == chunks;
    }

    /**
     * AuditSinkHandler.handle, with the storage transport: `failure` is what the put threw,
     * if it did. A sink that is gone is a finished delivery.
     */
    method Handle(m: Message, now: int, failure: Option<Text>) returns (rethrown: bool)
      requires Valid()
      modifies `store, `health
      ensures Valid()
      ensures !Reachable(sinks, m) ==> !rethrown && store == old(store) && health == old(health)
      ensures Reachable(sinks, m) ==> rethrown == failure.Some? && health.Keys == old(health).Keys + {m.sinkId}
      ensures forall id | id in old(health) && id != m.sinkId :: health[id] == old(health)[id]
      ensures Reachable(sinks, m) && failure.Some? ==>
                && store == old(store)
                && health[m.sinkId].lastError == Some(Cut(failure.value))
                && (m.sinkId in old(health) ==>
                      health[m.sinkId] == old(health)[m.sinkId].(lastError := health[m.sinkId].lastError))
                && (m.sinkId !in old(health) ==> health[m.sinkId] == Health(health[m.sinkId].lastError, None, None))
      ensures Reachable(sinks, m) && failure.None? ==>
                var key := D.KeyOf(sinks[m.sinkId].keyPrefix, m);
                && key in store && store == old(store)[key := store[key]] && D.Holds(H, rows, m, store[key])
                && health[m.sinkId] == Health(None, Some(now), Some(m.to))
    {
      hide TablesOk, StreamsOk, HashingOk, D.KeyOf, D.RangeRows, D.Holds;
      if m.sinkId !in sinks || sinks[m.sinkId].tenantId != m.tenantId {
        return false;
      }
      var entries := D.RangeRows(rows, m);
      if failure.Some? {
        health := health[m.sinkId := HealthOf(health, m.sinkId).(lastError := Some(Cut(failure.value)))];
        return true;
      }
      assert VisibleInOrder(rows) by { TablesInOrder(H, rows, nextSequence); }
      D.LoadedHolds(H, rows, m);
      store := store[D.KeyOf(sinks[m.sinkId].keyPrefix, m) := entries];
      health := health[m.sinkId := Health(None, Some(now), Some(m.to))];
      return false;
    }
  }
}
