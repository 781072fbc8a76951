/** The recorder of the dev dashboard. */
module Recorder {
  /** A bounded buffer, a flush that overlaps with what is heard, and a bounded tally. */

  import opened Common
  import SqlFingerprint

  const FLUSH_BATCH_SIZE: nat := 100
  const MAX_BUFFERED_ENTRIES: nat := 2000
  const MAX_TRACKED_REQUESTS: nat := 500
  const SELF_TABLE: Text := Ascii("\"DevtoolsEntry\"")

  datatype Settings = Settings(slowQueryMs: real, nPlusOneThreshold: nat)

  /** What the kernel reports; `payload` stands for the fields only the mapper reads. */
  datatype Record =
    | Query(sql: Text, durationMs: real, requestId: Option<Text>, tenantId: Option<Text>, timestamp: int)
    | Request(requestId: Option<Text>, tenantId: Option<Text>, timestamp: int, payload: Text)
    | Other(requestId: Option<Text>, tenantId: Option<Text>, timestamp: int, payload: Text)

  datatype Entry =
    | Mapped(record: Record)
    | SlowQuery(record: Record, fingerprint: Text)
    | NPlusOne(tenantId: Option<Text>, requestId: Text, sql: Text, count: nat, totalMs: real, timestamp: int)

  datatype Statement = Statement(sql: Text, count: nat, totalMs: real)

  /** A Map keeps its keys in insertion order: so do these. */
  datatype Tracked = Tracked(requestId: Text, statements: seq<Statement>)

  type Tallies = seq<Tracked>

  // --------------------------------------------------- one step, as a value

  /** `handed` is every batch the store was given; an insert is in flight while `flushing`. */
  datatype State = State(buffer: seq<Entry>, flushing: bool, handed: seq<seq<Entry>>, tallies: Tallies)

  const IDLE: State := State([], false, [], [])

  function Flushed(s: State): State {
    if s.flushing || s.buffer == [] then s else HandedOver(s)
  }

  /** The whole buffer leaves as one batch. */
  function HandedOver(s: State): State {
    s.(flushing := true, handed := s.handed + [s.buffer], buffer := [])
  }

  function Capped(buffer: seq<Entry>): seq<Entry> {
    if |buffer| > MAX_BUFFERED_ENTRIES then buffer[|buffer| - MAX_BUFFERED_ENTRIES..] else buffer
  }

  function Pushed(s: State, e: Entry): State {
    s.(buffer := Capped(s.buffer + [e]))
  }

  function Enqueued(s: State, e: Entry): State {
    var t := Pushed(s, e);
    if |t.buffer| >= FLUSH_BATCH_SIZE then Flushed(t) else t
  }

  function EnqueuedAll(s: State, entries: seq<Entry>): State {
    if entries == [] then s else Enqueued(EnqueuedAll(s, entries[..|entries| - 1]), entries[|entries| - 1])
  }

  predicate FoundAt(t: Text, part: Text, i: nat) {
    i + |part| <= |t| && t[i..i + |part|] == part
  }

  predicate Contains(t: Text, part: Text) {
    exists i | 0 <= i <= |t| :: FoundAt(t, part, i)
  }

  /** The dashboard's own statements are not heard. */
  predicate IsHeard(r: Record) {
    r.Query? && !Contains(r.sql, SELF_TABLE)
  }

  /** An empty request id counts as none. */
  predicate Identified(r: Record) {
    r.requestId.Some? && r.requestId.value != []
  }

  function Find(tallies: Tallies, requestId: Text): (i: nat)
    ensures i <= |tallies|
    ensures i < |tallies| ==> tallies[i].requestId == requestId
    ensures forall j | 0 <= j < i :: tallies[j].requestId != requestId
  {
    if tallies == [] || tallies[0].requestId == requestId then 0 else 1 + Find(tallies[1..], requestId)
  }

  function FindStatement(statements: seq<Statement>, sql: Text): (i: nat)
    ensures i <= |statements|
    ensures i < |statements| ==> statements[i].sql == sql
    ensures forall j | 0 <= j < i :: statements[j].sql != sql
  {
    if statements == [] || statements[0].sql == sql then 0 else 1 + FindStatement(statements[1..], sql)
  }

  function CountedStatement(statements: seq<Statement>, sql: Text, durationMs: real): seq<Statement> {
    var i := FindStatement(statements, sql);
    if i < |statements| then
      statements[i := Statement(sql, statements[i].count + 1, statements[i].totalMs + durationMs)]
    else statements + [Statement(sql, 1, durationMs)]
  }

  function Evicted(tallies: Tallies): Tallies {
    if |tallies| > MAX_TRACKED_REQUESTS then tallies[|tallies| - MAX_TRACKED_REQUESTS..] else tallies
  }

  function Counted(tallies: Tallies, requestId: Text, sql: Text, durationMs: real): Tallies {
    var i := Find(tallies, requestId);
    if i < |tallies| then
      tallies[i := Tracked(requestId, CountedStatement(tallies[i].statements, sql, durationMs))]
    else Evicted(tallies + [Tracked(requestId, CountedStatement([], sql, durationMs))])
  }

  function Forgotten(tallies: Tallies, requestId: Text): Tallies {
    var i := Find(tallies, requestId);
    if i < |tallies| then tallies[..i] + tallies[i + 1..] else tallies
  }

  function TalliesAfter(tallies: Tallies, r: Record): Tallies {
    if IsHeard(r) && Identified(r) then
      Counted(tallies, r.requestId.value, SqlFingerprint.Fingerprint(r.sql), r.durationMs)
    else if r.Request? && Identified(r) then Forgotten(tallies, r.requestId.value)
    else tallies
  }

  /** The N+1 entries of some statements, in their order. */
  function Verdicts(settings: Settings, r: Record, statements: seq<Statement>): seq<Entry>
    requires Identified(r)
  {
    if statements == [] then []
    else
      var front, t := Verdicts(settings, r, statements[..|statements| - 1]), statements[|statements| - 1];
      if t.count >= settings.nPlusOneThreshold then
        front + [NPlusOne(r.tenantId, r.requestId.value, t.sql, t.count, t.totalMs, r.timestamp)]
      else front
  }

  function StatementsOf(tallies: Tallies, requestId: Text): seq<Statement> {
    var i := Find(tallies, requestId);
    if i < |tallies| then tallies[i].statements else []
  }

  /** What a record adds to the buffer. */
  function EntriesOf(settings: Settings, tallies: Tallies, r: Record): seq<Entry> {
    if r.Query? then
      if IsHeard(r) && r.durationMs >= settings.slowQueryMs then
        [SlowQuery(r, SqlFingerprint.Fingerprint(r.sql))]
      else []
    else
      (if r.Request? && Identified(r) then Verdicts(settings, r, StatementsOf(tallies, r.requestId.value)) else [])
      + [Mapped(r)]
  }

  function Heard(settings: Settings, s: State, r: Record): State {
    EnqueuedAll(s.(tallies := TalliesAfter(s.tallies, r)), EntriesOf(settings, s.tallies, r))
  }

  // ------------------------------------------------- every run: the buffer

  datatype Event =
    | Hear(record: Record)
    | Tick
    | InsertEnds

  /** A successful insert and a failed one end alike: the batch is not kept. */
  function After(settings: Settings, s: State, ev: Event): State {
    match ev
    case Hear(r) => Heard(settings, s, r)
    case Tick => Flushed(s)
    case InsertEnds => s.(flushing := false)
  }

  function RunOf(settings: Settings, events: seq<Event>): State {
    if events == [] then IDLE
    else After(settings, RunOf(settings, events[..|events| - 1]), events[|events| - 1])
  }

  /** Where each thing enqueued went: `starts` of the batches, and what the cap cut. */
  datatype Ledger = Ledger(enqueued: seq<Entry>, starts: seq<nat>, cut: set<nat>)

  /** The books of a push: the cap cuts the oldest buffered. */
  function Booked(s: State, l: Ledger, e: Entry): Ledger {
    var first := |l.enqueued| - |s.buffer|;
    var over := |s.buffer| + 1 > MAX_BUFFERED_ENTRIES && first >= 0;
    l.(enqueued := l.enqueued + [e], cut := if over then l.cut + {first} else l.cut)
  }

  /** The books of one enqueue: a flush opens a batch. */
  function LedgerAfter(s: State, l: Ledger, e: Entry): Ledger {
    if |Pushed(s, e).buffer| >= FLUSH_BATCH_SIZE then LedgerFlushed(Pushed(s, e), Booked(s, l, e)) else Booked(s, l, e)
  }

  function LedgerFlushed(s: State, l: Ledger): Ledger {
    if s.flushing || s.buffer == [] || |s.buffer| > |l.enqueued| then l else Opened(s, l)
  }

  function Opened(s: State, l: Ledger): Ledger
    requires |s.buffer| <= |l.enqueued|
  {
    l.(starts := l.starts + [|l.enqueued| - |s.buffer|])
  }

  function LedgerAll(s: State, l: Ledger, entries: seq<Entry>): Ledger {
    if entries == [] then l
    else
      LedgerAfter(EnqueuedAll(s, entries[..|entries| - 1]), LedgerAll(s, l, entries[..|entries| - 1]),
                  entries[|entries| - 1])
  }

  function LedgerOf(settings: Settings, events: seq<Event>): Ledger {
    if events == [] then Ledger([], [], {})
    else
      var s, l := RunOf(settings, events[..|events| - 1]), LedgerOf(settings, events[..|events| - 1]);
      match events[|events| - 1]
      case Hear(r) => LedgerAll(s.(tallies := TalliesAfter(s.tallies, r)), l, EntriesOf(settings, s.tallies, r))
      case Tick => LedgerFlushed(s, l)
      case InsertEnds => l
  }

  ghost predicate IsBatch(s: State, l: Ledger, i: nat)
    requires i < |s.handed| == |l.starts|
  {
    var (start, n) := (l.starts[i], |s.handed[i]|);
    && 0 < n <= MAX_BUFFERED_ENTRIES && start + n <= |l.enqueued| - |s.buffer|
    && s.handed[i] == l.enqueued[start..start + n]
  }

  /** Batches and buffer lie in order, apart, in what was enqueued. */
  ghost predicate InOrder(s: State, l: Ledger) {
    && |s.buffer| <= MAX_BUFFERED_ENTRIES && |s.buffer| <= |l.enqueued|
    && s.buffer == l.enqueued[|l.enqueued| - |s.buffer|..]
    && |s.handed| == |l.starts|
    && (forall i | 0 <= i < |s.handed| :: IsBatch(s, l, i))
    && (forall i, j | 0 <= i < j < |s.handed| :: l.starts[i] + |s.handed[i]| <= l.starts[j])
  }

  ghost predicate InBatch(s: State, l: Ledger, i: nat, k: nat)
    requires i < |s.handed| == |l.starts|
  {
    l.starts[i] <= k < l.starts[i] + |s.handed[i]|
  }

  /** Position k, if not buffered, is in a batch or was cut: one of the two. */
  ghost predicate OnePlace(s: State, l: Ledger, k: nat)
    requires |s.handed| == |l.starts|
  {
    && (forall i | 0 <= i < |s.handed| && InBatch(s, l, i, k) :: k !in l.cut)
    && (k < |l.enqueued| - |s.buffer| && k !in l.cut ==> exists i | 0 <= i < |s.handed| :: InBatch(s, l, i, k))
  }

  function Total(batches: seq<seq<Entry>>): nat {
    if batches == [] then 0 else Total(batches[..|batches| - 1]) + |batches[|batches| - 1]|
  }

  /** The full account of a run, entry by entry and by number. */
  ghost predicate Accounted(s: State, l: Ledger) {
    && InOrder(s, l)
    && (forall k | k in l.cut :: k < |l.enqueued| - |s.buffer|)
    && (forall k | 0 <= k < |l.enqueued| :: OnePlace(s, l, k))
    && |l.enqueued| == Total(s.handed) + |l.cut| + |s.buffer|
  }

  /** The oldest entry leaves a full buffer, the new one joins. */
  lemma {:induction false} PushKeepsOrder(s: State, l: Ledger, e: Entry)
    requires InOrder(s, l)
    ensures InOrder(Pushed(s, e), Booked(s, l, e))
  {
    var t, m := Pushed(s, e), Booked(s, l, e);
    assert |m.enqueued| - |t.buffer| >= |l.enqueued| - |s.buffer|;
    forall i | 0 <= i < |t.handed| ensures IsBatch(t, m, i) {
      assert IsBatch(s, l, i);
    }
  }

  lemma {:induction false} PushKeepsPlaces(s: State, l: Ledger, e: Entry, k: nat)
    requires Accounted(s, l) && k < |l.enqueued| + 1
    ensures OnePlace(Pushed(s, e), Booked(s, l, e), k)
  {
    var t, m := Pushed(s, e), Booked(s, l, e);
    forall i | 0 <= i < |t.handed| && InBatch(t, m, i, k) ensures k !in m.cut {
      assert IsBatch(s, l, i) && InBatch(s, l, i, k);
      assert k < |l.enqueued| ==> OnePlace(s, l, k);
    }
    if k < |m.enqueued| - |t.buffer| && k !in m.cut {
      assert OnePlace(s, l, k);
      var i :| 0 <= i < |s.handed| && InBatch(s, l, i, k);
      assert InBatch(t, m, i, k);
    }
  }

  lemma {:induction false} HandOverKeepsAccounts(s: State, l: Ledger)
    requires Accounted(s, l) && s.buffer != []
    ensures Accounted(HandedOver(s), Opened(s, l))
  {
    var t, m, n := HandedOver(s), Opened(s, l), |s.handed|;
    assert IsBatch(t, m, n);
    forall i | 0 <= i < |t.handed| ensures IsBatch(t, m, i) {
      assert i < n ==> IsBatch(s, l, i);
    }
    forall i, j | 0 <= i < j < |t.handed| ensures m.starts[i] + |t.handed[i]| <= m.starts[j] {
      assert IsBatch(s, l, i);
    }
    forall k | 0 <= k < |m.enqueued| ensures OnePlace(t, m, k) {
      HandOverKeepsPlace(s, l, k);
    }
    assert t.handed[..n] == s.handed;
  }

  lemma {:induction false} HandOverKeepsPlace(s: State, l: Ledger, k: nat)
    requires Accounted(s, l) && k < |l.enqueued| && s.buffer != []
    ensures OnePlace(HandedOver(s), Opened(s, l), k)
  {
    var t, m := HandedOver(s), Opened(s, l);
    assert OnePlace(s, l, k);
    if k >= |l.enqueued| - |s.buffer| {
      assert InBatch(t, m, |s.handed|, k);
    } else if k !in l.cut {
      var i :| 0 <= i < |s.handed| && InBatch(s, l, i, k);
      assert InBatch(t, m, i, k);
    }
    forall i | 0 <= i < |t.handed| && InBatch(t, m, i, k) ensures k !in m.cut {
      assert i < |s.handed| ==> InBatch(s, l, i, k);
    }
  }

  lemma {:induction false} PushKeepsAccounts(s: State, l: Ledger, e: Entry)
    requires Accounted(s, l)
    ensures Accounted(Pushed(s, e), Booked(s, l, e))
  {
    var t, m := Pushed(s, e), Booked(s, l, e);
    PushKeepsOrder(s, l, e);
    forall k | 0 <= k < |m.enqueued| ensures OnePlace(t, m, k) {
      PushKeepsPlaces(s, l, e, k);
    }
    assert |s.buffer| + 1 > MAX_BUFFERED_ENTRIES ==> |l.enqueued| - |s.buffer| !in l.cut;
    hide InOrder, OnePlace;
  }

  lemma {:induction false} EnqueueKeepsAccounts(s: State, l: Ledger, e: Entry)
    requires Accounted(s, l)
    ensures Accounted(Enqueued(s, e), LedgerAfter(s, l, e))
  {
    var t, m := Pushed(s, e), Booked(s, l, e);
    PushKeepsAccounts(s, l, e);
    AccountedFits(s, l);
    AccountedFits(t, m);
    hide Accounted, Capped;
    if t.buffer != [] {
      HandOverKeepsAccounts(t, m);
    }
  }

  lemma {:induction false} AllKeepAccounts(s: State, l: Ledger, entries: seq<Entry>)
    requires Accounted(s, l)
    ensures Accounted(EnqueuedAll(s, entries), LedgerAll(s, l, entries))
  {
    hide Accounted;
    if entries != [] {
      var front, e := entries[..|entries| - 1], entries[|entries| - 1];
      AllKeepAccounts(s, l, front);
      EnqueueKeepsAccounts(EnqueuedAll(s, front), LedgerAll(s, l, front), e);
    }
  }

  lemma {:induction false} TalliesPlayNoPart(s: State, l: Ledger, tallies: Tallies, flushing: bool)
    requires Accounted(s, l)
    ensures Accounted(s.(tallies := tallies, flushing := flushing), l)
  {
    var t := s.(tallies := tallies, flushing := flushing);
    forall i | 0 <= i < |t.handed| ensures IsBatch(t, l, i) {
      assert IsBatch(s, l, i);
    }
    forall k | 0 <= k < |l.enqueued| ensures OnePlace(t, l, k) {
      assert OnePlace(s, l, k);
      forall i | 0 <= i < |t.handed| && InBatch(t, l, i, k) ensures k !in l.cut {
        assert InBatch(s, l, i, k);
      }
      if k < |l.enqueued| - |s.buffer| && k !in l.cut {
        var i :| 0 <= i < |s.handed| && InBatch(s, l, i, k);
        assert InBatch(t, l, i, k);
      }
    }
  }

  /**
   * Whatever is heard, however ticks and slow or failing inserts fall in between: batches
   * and buffer are what was enqueued, in order, each entry once, less what the cap cut.
   */
  lemma {:induction false} NothingElseIsLost(settings: Settings, events: seq<Event>)
    ensures Accounted(RunOf(settings, events), LedgerOf(settings, events))
  {
    hide Accounted;
    if events == [] {
      IdleAccounted();
    } else {
      var front := events[..|events| - 1];
      var s, l := RunOf(settings, front), LedgerOf(settings, front);
      NothingElseIsLost(settings, front);
      match events[|events| - 1]
      case Hear(r) =>
        TalliesPlayNoPart(s, l, TalliesAfter(s.tallies, r), s.flushing);
        AllKeepAccounts(s.(tallies := TalliesAfter(s.tallies, r)), l, EntriesOf(settings, s.tallies, r));
      case Tick =>
        if s.buffer != [] {
          HandOverKeepsAccounts(s, l);
          AccountedFits(s, l);
        }
      case InsertEnds => TalliesPlayNoPart(s, l, s.tallies, false);
    }
  }

  lemma {:induction false} AccountedFits(s: State, l: Ledger)
    requires Accounted(s, l)
    ensures |s.buffer| <= |l.enqueued|
  {
  }

  lemma {:induction false} IdleAccounted()
    ensures Accounted(IDLE, Ledger([], [], {}))
  {
  }

  /** In every run at most 2000 entries wait and 500 requests are tracked. */
  lemma {:induction false} Bounded(settings: Settings, events: seq<Event>)
    ensures |RunOf(settings, events).buffer| <= 2000 && |RunOf(settings, events).tallies| <= 500
  {
    NothingElseIsLost(settings, events);
    TalliesDependOnRecords(settings, events);
    TalliesAlwaysOk(RecordsOf(events));
    hide RunOf, LedgerOf, TalliesOf, OnePlace, IsBatch;
  }

  /** A hundred entries do not wait for a tick, only for an insert in flight. */
  lemma {:induction false} HundredDoNotWait(s: State, e: Entry)
    ensures |Enqueued(s, e).buffer| >= 100 ==> s.flushing
    ensures !s.flushing && |s.buffer| < 99 ==> Enqueued(s, e).handed == s.handed
  {
  }

  /** At most one insert at a time: a batch is handed over only while none is in flight. */
  lemma {:induction false} OneInsertAtATime(s: State, entries: seq<Entry>)
    ensures var t := EnqueuedAll(s, entries);
            && s.handed <= t.handed
            && (t.handed == s.handed ==> t.flushing == s.flushing)
            && (t.handed != s.handed ==> !s.flushing && t.flushing && |t.handed| == |s.handed| + 1)
  {
    if entries != [] {
      OneInsertAtATime(s, entries[..|entries| - 1]);
    }
  }

  // -------------------------------------------------- every run: the tallies

  /** Tracked requests are distinct, and so are a request's statements. */
  ghost predicate TalliesOk(tallies: Tallies) {
    && |tallies| <= MAX_TRACKED_REQUESTS
    && (forall i, j | 0 <= i < j < |tallies| :: tallies[i].requestId != tallies[j].requestId)
    && (forall i | 0 <= i < |tallies| :: StatementsOk(tallies[i].statements))
  }

  ghost predicate StatementsOk(statements: seq<Statement>) {
    && (forall i, j | 0 <= i < j < |statements| :: statements[i].sql != statements[j].sql)
    && (forall i | 0 <= i < |statements| :: statements[i].count > 0)
  }

  function TalliesOf(records: seq<Record>): Tallies {
    if records == [] then [] else TalliesAfter(TalliesOf(records[..|records| - 1]), records[|records| - 1])
  }

  /** How often, and how long together. */
  datatype Sum = Sum(count: nat, totalMs: real)

  const NOTHING: Sum := Sum(0, 0.0)

  function Plus(s: Sum, ms: real): Sum {
    Sum(s.count + 1, s.totalMs + ms)
  }

  function SumIn(statements: seq<Statement>, sql: Text): Sum {
    var i := FindStatement(statements, sql);
    if i < |statements| then Sum(statements[i].count, statements[i].totalMs) else NOTHING
  }

  function SumOf(tallies: Tallies, requestId: Text, sql: Text): Sum {
    SumIn(StatementsOf(tallies, requestId), sql)
  }

  /** A statement heard for a request. */
  predicate IsStatementOf(r: Record, requestId: Text, sql: Text) {
    IsHeard(r) && Identified(r) && r.requestId.value == requestId && SqlFingerprint.Fingerprint(r.sql) == sql
  }

  predicate Ends(r: Record, requestId: Text) {
    r.Request? && Identified(r) && r.requestId.value == requestId
  }

  /** How often, and how long, a statement was heard for a request since it was last judged. */
  function HeardSince(records: seq<Record>, requestId: Text, sql: Text): Sum {
    if records == [] then NOTHING
    else
      var r, before := records[|records| - 1], HeardSince(records[..|records| - 1], requestId, sql);
      if Ends(r, requestId) then NOTHING
      else if IsStatementOf(r, requestId, sql) then Plus(before, r.durationMs)
      else before
  }

  predicate IsTracked(tallies: Tallies, requestId: Text) {
    Find(tallies, requestId) < |tallies|
  }

  /** Whether a request's tally was evicted since it was last judged. */
  function Lost(records: seq<Record>, requestId: Text): bool {
    if records == [] then false
    else
      var front, r := records[..|records| - 1], records[|records| - 1];
      if Ends(r, requestId) then false
      else Lost(front, requestId) || (IsTracked(TalliesOf(front), requestId) && !IsTracked(TalliesOf(records), requestId))
  }

  lemma {:induction false} FindIs(tallies: Tallies, i: nat)
    requires i < |tallies|
    requires forall j, k | 0 <= j < k < |tallies| :: tallies[j].requestId != tallies[k].requestId
    ensures Find(tallies, tallies[i].requestId) == i
  {
  }

  lemma {:induction false} FindStatementIs(statements: seq<Statement>, i: nat)
    requires i < |statements| && StatementsOk(statements)
    ensures FindStatement(statements, statements[i].sql) == i
  {
  }

  lemma {:induction false} CountedStatementOk(statements: seq<Statement>, sql: Text, ms: real)
    requires StatementsOk(statements)
    ensures StatementsOk(CountedStatement(statements, sql, ms))
  {
  }

  lemma {:induction false} CountedStatementCounts(statements: seq<Statement>, sql: Text, ms: real, other: Text)
    requires StatementsOk(statements)
    ensures SumIn(CountedStatement(statements, sql, ms), other)
         == if other == sql then Plus(SumIn(statements, other), ms) else SumIn(statements, other)
  {
    var i, after := FindStatement(statements, sql), CountedStatement(statements, sql, ms);
    CountedStatementOk(statements, sql, ms);
    if i < |statements| {
      FindUpdated(statements, i, after[i], other);
    } else {
      SumInSnoc(statements, Statement(sql, 1, ms), other);
    }
  }

  lemma {:induction false} FindUpdated(statements: seq<Statement>, i: nat, t: Statement, sql: Text)
    requires i < |statements| && t.sql == statements[i].sql
    ensures FindStatement(statements[i := t], sql) == FindStatement(statements, sql)
  {
    if statements[0].sql != sql {
      if i > 0 {
        FindUpdated(statements[1..], i - 1, t, sql);
        assert statements[i := t][1..] == statements[1..][i - 1 := t];
      } else {
        assert statements[i := t][1..] == statements[1..];
      }
    }
  }

  lemma {:induction false} TalliesAfterOk(tallies: Tallies, r: Record)
    requires TalliesOk(tallies)
    ensures TalliesOk(TalliesAfter(tallies, r))
  {
    if IsHeard(r) && Identified(r) {
      hide SqlFingerprint.Fingerprint;
      CountedOk(tallies, r.requestId.value, SqlFingerprint.Fingerprint(r.sql), r.durationMs);
    } else if r.Request? && Identified(r) {
      ForgottenOk(tallies, r.requestId.value);
    }
  }

  lemma {:induction false} CountedOk(tallies: Tallies, id: Text, sql: Text, ms: real)
    requires TalliesOk(tallies)
    ensures TalliesOk(Counted(tallies, id, sql, ms))
  {
    hide StatementsOk, CountedStatement, Find;
    var i := Find(tallies, id);
    if i < |tallies| {
      CountedStatementOk(tallies[i].statements, sql, ms);
    } else {
      assert StatementsOk(CountedStatement([], sql, ms)) by { FirstStatementOk(sql, ms); }
    }
  }

  lemma {:induction false} FirstStatementOk(sql: Text, ms: real)
    ensures StatementsOk(CountedStatement([], sql, ms))
  {
    assert StatementsOk([]);
    CountedStatementOk([], sql, ms);
  }

  lemma {:induction false} ForgottenOk(tallies: Tallies, id: Text)
    requires TalliesOk(tallies)
    ensures TalliesOk(Forgotten(tallies, id))
  {
    hide StatementsOk;
    var i, after := Find(tallies, id), Forgotten(tallies, id);
    forall a, b | 0 <= a < b < |after| ensures after[a].requestId != after[b].requestId {
      assert i < |tallies| ==>
        after[a] == tallies[if a < i then a else a + 1] && after[b] == tallies[if b < i then b else b + 1];
    }
    forall a | 0 <= a < |after| ensures StatementsOk(after[a].statements) {
      assert i < |tallies| ==> after[a] == tallies[if a < i then a else a + 1];
    }
  }

  lemma {:induction false} TalliesAlwaysOk(records: seq<Record>)
    ensures TalliesOk(TalliesOf(records))
  {
    hide TalliesAfter, TalliesOk;
    if records == [] {
      NoTalliesOk();
    } else {
      TalliesAlwaysOk(records[..|records| - 1]);
      TalliesAfterOk(TalliesOf(records[..|records| - 1]), records[|records| - 1]);
    }
  }

  lemma {:induction false} NoTalliesOk()
    ensures TalliesOk([])
  {
  }

  /** A tally found at its place holds the request's statements. */
  lemma {:induction false} StatementsAt(tallies: Tallies, i: nat)
    requires TalliesOk(tallies) && i < |tallies|
    ensures StatementsOf(tallies, tallies[i].requestId) == tallies[i].statements
    ensures IsTracked(tallies, tallies[i].requestId)
  {
    FindIs(tallies, i);
  }

  lemma {:induction false} Untracked(tallies: Tallies, requestId: Text, sql: Text)
    requires forall i | 0 <= i < |tallies| :: tallies[i].requestId != requestId
    ensures !IsTracked(tallies, requestId) && SumOf(tallies, requestId, sql) == NOTHING
  {
  }

  /** Counting a statement: its own count is one up, and no other is unless evicted. */
  lemma {:induction false} CountedCounts(tallies: Tallies, id: Text, sql: Text, ms: real, other: Text, key: Text)
    requires TalliesOk(tallies) && TalliesOk(Counted(tallies, id, sql, ms))
    ensures var after := Counted(tallies, id, sql, ms);
            if other == id then
              SumOf(after, other, key)
              == (if key == sql then Plus(SumOf(tallies, other, key), ms) else SumOf(tallies, other, key))
              && IsTracked(after, other)
            else if IsTracked(after, other) then
              SumOf(after, other, key) == SumOf(tallies, other, key) && IsTracked(tallies, other)
            else SumOf(after, other, key) == NOTHING
  {
    var i, after := Find(tallies, id), Counted(tallies, id, sql, ms);
    hide CountedStatement, SumIn, TalliesOk;
    if other == id {
      if i < |tallies| {
        CountedStatementCounts(tallies[i].statements, sql, ms, key) by { TrackedOk(tallies, i); }
        StatementsAt(after, i);
      } else {
        CountedStatementCounts([], sql, ms, key);
        NothingCounted(key);
        StatementsAt(after, |after| - 1);
      }
    } else if IsTracked(after, other) {
      var k := Find(after, other);
      KeptTally(tallies, id, sql, ms, k);
    } else {
      NothingCounted(key);
    }
  }

  lemma {:induction false} NothingCounted(sql: Text)
    ensures SumIn([], sql) == NOTHING && StatementsOk([])
  {
  }

  lemma {:induction false} TrackedOk(tallies: Tallies, i: nat)
    requires TalliesOk(tallies) && i < |tallies|
    ensures StatementsOk(tallies[i].statements)
  {
  }

  lemma {:induction false} KeptTally(tallies: Tallies, id: Text, sql: Text, ms: real, k: nat)
    requires TalliesOk(tallies) && k < |Counted(tallies, id, sql, ms)|
    requires Counted(tallies, id, sql, ms)[k].requestId != id
    ensures var t := Counted(tallies, id, sql, ms)[k];
            IsTracked(tallies, t.requestId) && StatementsOf(tallies, t.requestId) == t.statements
  {
    hide CountedStatement;
    var i, after := Find(tallies, id), Counted(tallies, id, sql, ms);
    if i < |tallies| {
      FindIs(tallies, k);
    } else {
      var drop := |tallies| + 1 - |after|;
      assert after[k] == (tallies + [Tracked(id, CountedStatement([], sql, ms))])[drop + k];
      FindIs(tallies, drop + k);
    }
  }

  lemma {:induction false} ForgottenKeeps(tallies: Tallies, i: nat, k: nat)
    requires TalliesOk(tallies) && i < |tallies| && k < |tallies| && k != i
    ensures var after, n := tallies[..i] + tallies[i + 1..], if k < i then k else k - 1;
            Find(after, tallies[k].requestId) == n < |after| && after[n] == tallies[k]
  {
    hide StatementsOk;
    var after := tallies[..i] + tallies[i + 1..];
    forall a, b | 0 <= a < b < |after| ensures after[a].requestId != after[b].requestId {
      assert after[a] == tallies[if a < i then a else a + 1] && after[b] == tallies[if b < i then b else b + 1];
    }
    FindIs(after, if k < i then k else k - 1);
  }

  lemma {:induction false} ForgottenLacks(tallies: Tallies, i: nat, id: Text)
    requires TalliesOk(tallies) && i < |tallies|
    requires tallies[i].requestId == id || Find(tallies, id) == |tallies|
    ensures var after := tallies[..i] + tallies[i + 1..]; Find(after, id) == |after|
  {
    hide StatementsOk;
    var after := tallies[..i] + tallies[i + 1..];
    forall a | 0 <= a < |after| ensures after[a].requestId != id {
      assert after[a] == tallies[if a < i then a else a + 1];
    }
  }

  lemma {:induction false} ForgottenCounts(tallies: Tallies, id: Text, other: Text, key: Text)
    requires TalliesOk(tallies)
    ensures var after := Forgotten(tallies, id);
            if other == id then SumOf(after, other, key) == NOTHING && !IsTracked(after, other)
            else SumOf(after, other, key) == SumOf(tallies, other, key) && IsTracked(after, other) == IsTracked(tallies, other)
  {
    var i := Find(tallies, id);
    hide SumIn, TalliesOk, Find;
    NothingCounted(key);
    if i < |tallies| {
      if other != id && IsTracked(tallies, other) {
        ForgottenKeeps(tallies, i, Find(tallies, other));
      } else {
        ForgottenLacks(tallies, i, other);
      }
    }
  }

  /** A tally never counts more than was heard, and exactly that unless it was evicted. */
  lemma {:induction false} TallyIsExact(records: seq<Record>, id: Text, sql: Text)
    ensures SumOf(TalliesOf(records), id, sql).count <= HeardSince(records, id, sql).count
    ensures !Lost(records, id) ==> SumOf(TalliesOf(records), id, sql) == HeardSince(records, id, sql)
    ensures !Lost(records, id) && !IsTracked(TalliesOf(records), id) ==> SumOf(TalliesOf(records), id, sql) == NOTHING
  {
    hide SumOf, IsTracked, SqlFingerprint.Fingerprint, Counted, Forgotten, IsHeard, TalliesOk;
    if records == [] {
      Untracked([], id, sql);
    } else {
      var front, r := records[..|records| - 1], records[|records| - 1];
      TallyIsExact(front, id, sql);
      TalliesAlwaysOk(front);
      TalliesAlwaysOk(records);
      HeardIsQuery(r);
      if IsHeard(r) && Identified(r) {
        CountedCounts(TalliesOf(front), r.requestId.value, SqlFingerprint.Fingerprint(r.sql), r.durationMs, id, sql);
        if !IsTracked(TalliesOf(front), id) {
          UntrackedCount(TalliesOf(front), id, sql);
        }
      } else if r.Request? && Identified(r) {
        ForgottenCounts(TalliesOf(front), r.requestId.value, id, sql);
      }
    }
  }

  lemma {:induction false} HeardIsQuery(r: Record)
    ensures IsHeard(r) ==> r.Query?
  {
  }

  lemma {:induction false} UntrackedCount(tallies: Tallies, id: Text, sql: Text)
    requires !IsTracked(tallies, id)
    ensures SumOf(tallies, id, sql) == NOTHING
  {
  }

  /** An N+1 entry for a statement, in the judged request's name. */
  ghost predicate IsVerdict(e: Entry, r: Record, sql: Text, sum: Sum)
    requires Identified(r)
  {
    && e.NPlusOne? && e.sql == sql && e.count == sum.count && e.totalMs == sum.totalMs
    && e.tenantId == r.tenantId && e.requestId == r.requestId.value && e.timestamp == r.timestamp
  }

  ghost predicate Reports(entries: seq<Entry>, r: Record, sql: Text, sum: Sum)
    requires Identified(r)
  {
    exists i | 0 <= i < |entries| :: IsVerdict(entries[i], r, sql, sum)
  }

  lemma {:induction false} VerdictsReport(settings: Settings, r: Record, statements: seq<Statement>, sql: Text, sum: Sum)
    requires Identified(r) && StatementsOk(statements)
    ensures Reports(Verdicts(settings, r, statements), r, sql, sum)
       <==> sum == SumIn(statements, sql) && sum.count >= settings.nPlusOneThreshold && sum.count > 0
  {
    var entries := Verdicts(settings, r, statements);
    if statements != [] {
      var front, t := statements[..|statements| - 1], statements[|statements| - 1];
      VerdictsReport(settings, r, front, sql, sum);
      var before := Verdicts(settings, r, front);
      SumInSnoc(front, t, sql);
      assert statements == front + [t];
      ReportsSnoc(before, NPlusOne(r.tenantId, r.requestId.value, t.sql, t.count, t.totalMs, r.timestamp), r, sql, sum);
    }
  }

  lemma {:induction false} ReportsSnoc(entries: seq<Entry>, e: Entry, r: Record, sql: Text, sum: Sum)
    requires Identified(r)
    ensures Reports(entries + [e], r, sql, sum) <==> Reports(entries, r, sql, sum) || IsVerdict(e, r, sql, sum)
  {
    hide IsVerdict;
    var all := entries + [e];
    if Reports(entries, r, sql, sum) {
      var i :| 0 <= i < |entries| && IsVerdict(entries[i], r, sql, sum);
      assert all[i] == entries[i];
    }
    if IsVerdict(e, r, sql, sum) {
      assert all[|entries|] == e;
    }
  }

  /** Whatever is reported is about the judged request. */
  lemma {:induction false} VerdictsAreOwn(settings: Settings, r: Record, statements: seq<Statement>)
    requires Identified(r)
    ensures forall e | e in Verdicts(settings, r, statements) ::
              e.NPlusOne? && IsVerdict(e, r, e.sql, Sum(e.count, e.totalMs))
  {
    if statements != [] {
      VerdictsAreOwn(settings, r, statements[..|statements| - 1]);
    }
  }

  lemma {:induction false} SumInSnoc(front: seq<Statement>, t: Statement, sql: Text)
    requires StatementsOk(front + [t])
    ensures StatementsOk(front)
    ensures SumIn(front + [t], sql) == if sql == t.sql then Sum(t.count, t.totalMs) else SumIn(front, sql)
    ensures sql == t.sql ==> SumIn(front, sql) == NOTHING
  {
    var all := front + [t];
    assert forall i | 0 <= i < |front| :: all[i] == front[i];
    assert all[|front|] == t;
    if sql == t.sql {
      FindStatementIs(all, |front|);
      assert FindStatement(front, sql) == |front|;
    } else if FindStatement(front, sql) < |front| {
      FindStatementIs(all, FindStatement(front, sql));
    } else {
      assert FindStatement(all, sql) == |all|;
    }
  }

  lemma {:induction false} StatementsOfOk(tallies: Tallies, id: Text)
    requires TalliesOk(tallies)
    ensures StatementsOk(StatementsOf(tallies, id))
  {
  }

  /**
   * The verdict on a request, after anything at all was heard. A reported count never
   * exceeds what was heard since the request was last judged; unless its tally was evicted
   * meanwhile, exactly the statements at the threshold are reported, with exactly how often
   * and how long they were heard. And every report is in the request's name.
   */
  lemma {:induction false} VerdictIsExact(settings: Settings, records: seq<Record>, r: Record, sql: Text, sum: Sum)
    requires r.Request? && Identified(r)
    ensures var id := r.requestId.value;
            var reported := Reports(EntriesOf(settings, TalliesOf(records), r), r, sql, sum);
            && (reported ==> settings.nPlusOneThreshold <= sum.count <= HeardSince(records, id, sql).count)
            && (!Lost(records, id) ==>
                  (reported <==>
                     sum == HeardSince(records, id, sql) && sum.count >= settings.nPlusOneThreshold && sum.count > 0))
    ensures forall e | e in EntriesOf(settings, TalliesOf(records), r) && e.NPlusOne? ::
              IsVerdict(e, r, e.sql, Sum(e.count, e.totalMs))
  {
    var id := r.requestId.value;
    hide TalliesOf, HeardSince, Lost, Reports, Verdicts, StatementsOf, TalliesOk, SumIn, IsVerdict;
    TallyIsExact(records, id, sql);
    TalliesAlwaysOk(records);
    StatementsOfOk(TalliesOf(records), id);
    var statements := StatementsOf(TalliesOf(records), id);
    VerdictsReport(settings, r, statements, sql, sum);
    ReportsSnoc(Verdicts(settings, r, statements), Mapped(r), r, sql, sum);
    assert !IsVerdict(Mapped(r), r, sql, sum) by { MappedIsNone(r, sql, sum); }
    VerdictsAreOwn(settings, r, statements);
  }

  lemma {:induction false} MappedIsNone(r: Record, sql: Text, sum: Sum)
    requires Identified(r)
    ensures !IsVerdict(Mapped(r), r, sql, sum)
  {
  }

  /** A statement is heard unless it names the dashboard's own table, anywhere in it. */
  lemma {:induction false} HeardExactly(r: Record)
    ensures IsHeard(r) <==>
              r.Query? && !exists before: Text, after: Text :: r.sql == before + Ascii("\"DevtoolsEntry\"") + after
  {
    if r.Query? {
      if i :| 0 <= i <= |r.sql| && FoundAt(r.sql, SELF_TABLE, i) {
        assert r.sql == r.sql[..i] + SELF_TABLE + r.sql[i + |SELF_TABLE|..];
      }
      if before: Text, after: Text :| r.sql == before + SELF_TABLE + after {
        assert r.sql[|before|..|before| + |SELF_TABLE|] == SELF_TABLE;
        assert FoundAt(r.sql, SELF_TABLE, |before|);
      }
    }
  }

  /** What belongs to no request, or to an empty id, counts for none and is judged as none. */
  lemma {:induction false} NobodyIsJudged(settings: Settings, tallies: Tallies, r: Record)
    requires r.requestId == None || r.requestId == Some([])
    ensures TalliesAfter(tallies, r) == tallies
    ensures forall e | e in EntriesOf(settings, tallies, r) :: !e.NPlusOne?
  {
  }

  /** Only a full table evicts, only for a request it did not track, and only its oldest. */
  lemma {:induction false} EvictsOldest(records: seq<Record>, r: Record, id: Text)
    requires var before, after := TalliesOf(records), TalliesOf(records + [r]);
             IsTracked(before, id) && !IsTracked(after, id) && !Ends(r, id)
    ensures var before := TalliesOf(records);
            && |before| == MAX_TRACKED_REQUESTS && before[0].requestId == id
            && Identified(r) && !IsTracked(before, r.requestId.value)
  {
    assert (records + [r])[..|records|] == records;
    TalliesAlwaysOk(records);
    var before := TalliesOf(records);
    var k := Find(before, id);
    hide TalliesOf, Counted, SqlFingerprint.Fingerprint, IsHeard, TalliesOk, Forgotten;
    HeardIsQuery(r);
    if IsHeard(r) && Identified(r) {
      if IsTracked(before, r.requestId.value) || |before| != MAX_TRACKED_REQUESTS || k > 0 {
        KeepsTracked(before, r.requestId.value, SqlFingerprint.Fingerprint(r.sql), r.durationMs, k);
      }
    } else if r.Request? && Identified(r) {
      ForgottenCounts(before, r.requestId.value, id, []);
    }
  }

  lemma {:induction false} KeepsTracked(tallies: Tallies, id: Text, sql: Text, ms: real, k: nat)
    requires TalliesOk(tallies) && k < |tallies|
    requires IsTracked(tallies, id) || |tallies| != MAX_TRACKED_REQUESTS || k > 0
    ensures IsTracked(Counted(tallies, id, sql, ms), tallies[k].requestId)
  {
    hide CountedStatement, StatementsOk;
    var i, after := Find(tallies, id), Counted(tallies, id, sql, ms);
    if i < |tallies| || |tallies| < MAX_TRACKED_REQUESTS {
      assert after[k].requestId == tallies[k].requestId;
    } else {
      assert after[k - 1].requestId == tallies[k].requestId;
    }
  }

  function RecordsOf(events: seq<Event>): seq<Record> {
    if events == [] then []
    else
      var front, ev := RecordsOf(events[..|events| - 1]), events[|events| - 1];
      if ev.Hear? then front + [ev.record] else front
  }

  /** Ticks and inserts touch no tally: the verdicts depend on what was heard alone. */
  lemma {:induction false} TalliesDependOnRecords(settings: Settings, events: seq<Event>)
    ensures RunOf(settings, events).tallies == TalliesOf(RecordsOf(events))
  {
    hide TalliesAfter, EntriesOf;
    if events != [] {
      var front, ev := events[..|events| - 1], events[|events| - 1];
      TalliesDependOnRecords(settings, front);
      if ev.Hear? {
        var s := RunOf(settings, front);
        EnqueueTouchesNoTally(s.(tallies := TalliesAfter(s.tallies, ev.record)), EntriesOf(settings, s.tallies, ev.record));
        assert (RecordsOf(front) + [ev.record])[..|RecordsOf(front)|] == RecordsOf(front);
      }
    }
  }

  lemma {:induction false} EnqueueTouchesNoTally(s: State, entries: seq<Entry>)
    ensures EnqueuedAll(s, entries).tallies == s.tallies
  {
    if entries != [] {
      EnqueueTouchesNoTally(s, entries[..|entries| - 1]);
    }
  }

  // -------------------------------------------------------------- the class

  lemma {:induction false} EnqueuedSnoc(s: State, entries: seq<Entry>, e: Entry)
    ensures EnqueuedAll(s, entries + [e]) == Enqueued(EnqueuedAll(s, entries), e)
  {
    assert (entries + [e])[..|entries|] == entries;
  }

  lemma {:induction false} VerdictsSnoc(settings: Settings, r: Record, statements: seq<Statement>, i: nat)
    requires Identified(r) && i < |statements|
    ensures Verdicts(settings, r, statements[..i + 1])
         == (var t := statements[i];
             if t.count >= settings.nPlusOneThreshold then
               Verdicts(settings, r, statements[..i])
               + [NPlusOne(r.tenantId, r.requestId.value, t.sql, t.count, t.totalMs, r.timestamp)]
             else Verdicts(settings, r, statements[..i]))
  {
    assert statements[..i + 1][..i] == statements[..i];
  }

  /** The verdict's loop after its first k statements. */
  ghost function Judged(settings: Settings, start: State, r: Record, statements: seq<Statement>, k: nat): State
    requires Identified(r) && k <= |statements|
  {
    EnqueuedAll(start, Verdicts(settings, r, statements[..k]))
  }

  lemma {:induction false} JudgedNext(settings: Settings, start: State, r: Record, statements: seq<Statement>, k: nat)
    requires Identified(r) && k < |statements|
    ensures var s, t := Judged(settings, start, r, statements, k), statements[k];
            Judged(settings, start, r, statements, k + 1)
            == if t.count >= settings.nPlusOneThreshold then
                 Enqueued(s, NPlusOne(r.tenantId, r.requestId.value, t.sql, t.count, t.totalMs, r.timestamp))
               else s
  {
    hide Enqueued, Verdicts;
    var t := statements[k];
    VerdictsSnoc(settings, r, statements, k);
    EnqueuedSnoc(start, Verdicts(settings, r, statements[..k]),
                 NPlusOne(r.tenantId, r.requestId.value, t.sql, t.count, t.totalMs, r.timestamp));
  }

  lemma {:induction false} NothingToJudge(settings: Settings, r: Record, s: State)
    ensures Identified(r) ==> Verdicts(settings, r, []) == [] && EnqueuedAll(s, []) == s
    ensures Identified(r) ==> forall statements: seq<Statement> :: Judged(settings, s, r, statements, 0) == s
    ensures Identified(r) && Find(s.tallies, r.requestId.value) == |s.tallies| ==>
              Forgotten(s.tallies, r.requestId.value) == s.tallies && StatementsOf(s.tallies, r.requestId.value) == []
  {
  }

  class DevDashboardRecorder {
    const settings: Settings
    var buffer: seq<Entry>
    var tallies: Tallies
    var isFlushing: bool
    /** Every batch insertMany was called with. */
    var inserted: seq<seq<Entry>>

    constructor (settings: Settings)
      ensures Snapshot() == IDLE && this.settings == settings
    {
      this.settings := settings;
      buffer, tallies, isFlushing, inserted := [], [], false, [];
    }

    function Snapshot(): State
      reads this
    {
      State(buffer, isFlushing, inserted, tallies)
    }

    /** flush, up to its await: the whole buffer leaves, unless an insert is in flight. */
    method Flush()
      modifies this
      ensures Snapshot() == Flushed(old(Snapshot()))
    {
      if isFlushing || |buffer| == 0 {
        return;
      }
      isFlushing := true;
      var batch := buffer;
      buffer := [];
      inserted := inserted + [batch];
    }

    /** flush, from its await on, whether the insert succeeded or failed. */
    method InsertEnded()
      modifies this
      ensures Snapshot() == old(Snapshot()).(flushing := false)
    {
      isFlushing := false;
    }

    method Enqueue(entry: Entry)
      modifies this
      ensures Snapshot() == Enqueued(old(Snapshot()), entry)
    {
      buffer := buffer + [entry];
      if |buffer| > MAX_BUFFERED_ENTRIES {
        buffer := buffer[|buffer| - MAX_BUFFERED_ENTRIES..];
      }
      if |buffer| >= FLUSH_BATCH_SIZE {
        Flush();
      }
    }

    method EvictOldestTallies()
      modifies `tallies
      ensures tallies == Evicted(old(tallies))
    {
      ghost var n: nat := 0;
      while |tallies| > MAX_TRACKED_REQUESTS
        invariant n <= |old(tallies)| && tallies == old(tallies)[n..]
        invariant n == 0 || |tallies| >= MAX_TRACKED_REQUESTS
      {
        tallies := tallies[1..];
        n := n + 1;
      }
    }

    method Tally(requestId: Text, sql: Text, durationMs: real)
      modifies `tallies
      ensures tallies == Counted(old(tallies), requestId, sql, durationMs)
    {
      var i := Find(tallies, requestId);
      if i == |tallies| {
        tallies := tallies + [Tracked(requestId, [])];
        EvictOldestTallies();
        var last := |tallies| - 1;
        tallies := tallies[last := Tracked(requestId, CountedStatement([], sql, durationMs))];
      } else {
        tallies := tallies[i := Tracked(requestId, CountedStatement(tallies[i].statements, sql, durationMs))];
      }
    }

    method HearQuery(record: Record)
      requires record.Query?
      modifies this
      ensures Snapshot() == Heard(settings, old(Snapshot()), record)
    {
      hide SqlFingerprint.Fingerprint, Counted, Contains, Enqueued;
      if Contains(record.sql, SELF_TABLE) {
        return;
      }
      var sql := SqlFingerprint.Fingerprint(record.sql);
      ghost var counted := old(Snapshot()).(tallies := TalliesAfter(old(tallies), record));
      EnqueuedSnoc(counted, [], SlowQuery(record, sql));
      EnqueueLeavesTallies(old(Snapshot()), counted.tallies, SlowQuery(record, sql));
      assert [] + [SlowQuery(record, sql)] == [SlowQuery(record, sql)];
      if record.durationMs >= settings.slowQueryMs {
        Enqueue(SlowQuery(record, sql));
      }
      if Identified(record) {
        Tally(record.requestId.value, sql, record.durationMs);
      }
    }

    method JudgeRequest(record: Record)
      requires record.Request?
      modifies this
      ensures !Identified(record) ==> Snapshot() == old(Snapshot())
      ensures Identified(record) ==>
                var id := record.requestId.value;
                Snapshot() == EnqueuedAll(old(Snapshot()).(tallies := Forgotten(old(tallies), id)),
                                          Verdicts(settings, record, StatementsOf(old(tallies), id)))
    {
      hide Enqueued, EnqueuedAll, Verdicts;
      if !Identified(record) {
        return;
      }
      var i := Find(tallies, record.requestId.value);
      NothingToJudge(settings, record, old(Snapshot()));
      if i == |tallies| {
        return;
      }
      var statements := tallies[i].statements;
      tallies := tallies[..i] + tallies[i + 1..];
      ghost var start := Snapshot();
      assert start == old(Snapshot()).(tallies := Forgotten(old(tallies), record.requestId.value));
      hide Forgotten, Find;
      NothingToJudge(settings, record, start);
      for k := 0 to |statements|
        invariant Snapshot() == Judged(settings, start, record, statements, k)
      {
        var t := statements[k];
        JudgedNext(settings, start, record, statements, k);
        if t.count >= settings.nPlusOneThreshold {
          Enqueue(NPlusOne(record.tenantId, record.requestId.value, t.sql, t.count, t.totalMs, record.timestamp));
        }
      }
      assert statements[..|statements|] == statements;
    }

    /** hear, record by record: the value step, in the program's own order of effects. */
    method Hear(record: Record)
      modifies this
      ensures Snapshot() == Heard(settings, old(Snapshot()), record)
    {
      hide Enqueued, Counted, Forgotten, Verdicts;
      if record.Query? {
        HearQuery(record);
        return;
      }
      ghost var start := old(Snapshot()).(tallies := TalliesAfter(old(tallies), record));
      ghost var verdicts := if record.Request? && Identified(record) then
        Verdicts(settings, record, StatementsOf(old(tallies), record.requestId.value)) else [];
      if record.Request? {
        JudgeRequest(record);
      }
      EnqueuedSnoc(start, verdicts, Mapped(record));
      Enqueue(Mapped(record));
    }
  }

  lemma {:induction false} EnqueueLeavesTallies(s: State, tallies: Tallies, e: Entry)
    ensures Enqueued(s.(tallies := tallies), e) == Enqueued(s, e).(tallies := tallies)
    ensures Enqueued(s, e).tallies == s.tallies
  {
  }
}
