/** Staged ranges, to storage. */
module AuditDelivery {
  /**
   * The outbox hands over any message, in any order, any number of times, and a run of the
   * handler may stop after any statement.
   */

  import opened Common
  import opened AuditEntries
  import opened AuditTable
  import opened AuditStream
  import opened StorageKeys

  /** An object, by the rows its lines were made of. */
  type Store = map<Text, Table>

  /** Where a run of the handler is. */
  datatype Stage =
    | Fetched(prefix: Text)
    | Loaded(prefix: Text, content: Table)
    | Sent

  datatype Run = Run(index: nat, stage: Stage)

  /** `delivered` holds the outbox positions whose handler ran to its end. */
  datatype Deliveries = Deliveries(runs: map<nat, Run>, store: Store, delivered: set<nat>)

  const NO_DELIVERIES: Deliveries := Deliveries(map[], map[], {})

  datatype DeliveryEvent =
    | Fetch(d: nat, index: nat)
    | Load(d: nat)
    | Put(d: nat)
    | Finish(d: nat)
    | Stop(d: nat)
    | Probe(prefix: Text, tenantId: Text)

  function Between(rows: Table, from: nat, to: nat): Table {
    if rows == [] then []
    else
      var e := rows[|rows| - 1];
      var front := Between(rows[..|rows| - 1], from, to);
      if from <= e.sequence <= to then front + [e] else front
  }

  /** The range read again: sequence from..to, ORDER BY sequence. */
  function RangeRows(rows: Table, m: Message): Table {
    BySequence(Between(OfTenant(rows, m.tenantId), m.from, m.to))
  }

  function KeyOf(prefix: Text, m: Message): Text {
    StorageKey(prefix, m.tenantId, m.from, m.to)
  }

  function ProbeKey(prefix: Text, tenantId: Text): Text {
    StorageKey(prefix, tenantId, 0, 0)
  }

  /** The handler looks its sink up; without one there is nowhere to deliver to. */
  function Looked(s: Streams, m: Message): Stage {
    if m.sinkId in s.sinks && s.sinks[m.sinkId].tenantId == m.tenantId then Fetched(s.sinks[m.sinkId].keyPrefix)
    else Sent
  }

  ghost predicate DeliveryStep(rows: Table, s: Streams, x: Deliveries, ev: DeliveryEvent, x': Deliveries) {
    match ev
    case Fetch(d, index) =>
      && d !in x.runs && index < |s.outbox|
      && x' == x.(runs := x.runs[d := Run(index, Looked(s, s.outbox[index]))])
    case Load(d) =>
      && d in x.runs && x.runs[d].stage.Fetched? && x.runs[d].index < |s.outbox|
      && var r := x.runs[d];
         x' == x.(runs := x.runs[d := r.(stage := Loaded(r.stage.prefix, RangeRows(rows, s.outbox[r.index])))])
    case Put(d) =>
      && d in x.runs && x.runs[d].stage.Loaded? && x.runs[d].index < |s.outbox|
      && var r := x.runs[d];
         x' == x.(store := x.store[KeyOf(r.stage.prefix, s.outbox[r.index]) := r.stage.content],
                  runs := x.runs[d := r.(stage := Sent)])
    case Finish(d) =>
      && d in x.runs && x.runs[d].stage.Sent?
      && x' == x.(delivered := x.delivered + {x.runs[d].index}, runs := x.runs - {d})
    case Stop(d) => d in x.runs && x' == x.(runs := x.runs - {d})
    case Probe(prefix, tenantId) => x' == x.(store := x.store[ProbeKey(prefix, tenantId) := []])
  }

  // ------------------------------------------------------------- ranges

  /** An object holds the rows of a range, save for data redacted since. */
  ghost predicate Holds(H: Hashing, rows: Table, m: Message, content: Table) {
    var range := Between(OfTenant(rows, m.tenantId), m.from, m.to);
    RowsStay(H, content, range) && |content| == |range|
  }

  lemma {:induction false} BetweenNumbers(rows: Table, from: nat, to: nat)
    ensures Numbers(Between(rows, from, to)) == Within(Numbers(rows), from, to)
  {
    if rows != [] {
      var front := rows[..|rows| - 1];
      BetweenNumbers(front, from, to);
      assert Numbers(rows)[..|rows| - 1] == Numbers(front);
    }
  }

  lemma {:induction false} BetweenHolds(rows: Table, from: nat, to: nat, e: Entry)
    ensures e in Between(rows, from, to) <==> e in rows && from <= e.sequence <= to
  {
    if rows != [] {
      assert rows == rows[..|rows| - 1] + [rows[|rows| - 1]];
      BetweenHolds(rows[..|rows| - 1], from, to, e);
    }
  }

  lemma {:induction false} BetweenAscends(rows: Table, from: nat, to: nat)
    requires Ascending(rows)
    ensures Ascending(Between(rows, from, to))
  {
    if rows != [] {
      var front, e := rows[..|rows| - 1], rows[|rows| - 1];
      BetweenAscends(front, from, to);
      var kept := Between(front, from, to);
      forall i | 0 <= i < |kept| ensures kept[i].sequence < e.sequence {
        BetweenHolds(front, from, to, kept[i]);
        assert kept[i] in front;
      }
    }
  }

  lemma {:induction false} BetweenStays(H: Hashing, a: Table, b: Table, from: nat, to: nat)
    requires RowsStay(H, a, b)
    ensures RowsStay(H, Between(a, from, to), Between(b, from, to))
    ensures |a| == |b| ==> |Between(a, from, to)| == |Between(b, from, to)|
    decreases |b|
  {
    if |a| < |b| {
      BetweenStays(H, a, b[..|b| - 1], from, to);
    } else if a != [] {
      assert StillAccepted(H, a[|a| - 1], b[|b| - 1]);
      BetweenStays(H, a[..|a| - 1], b[..|b| - 1], from, to);
    }
  }

  /** A staged range is closed: rows appended since lie above it. */
  lemma {:induction false} RangeStays(H: Hashing, a: Table, b: Table, m: Message)
    requires Evolves(H, a, b) && m.to in NumbersOf(a, m.tenantId)
    ensures var was, range := Between(OfTenant(a, m.tenantId), m.from, m.to), Between(OfTenant(b, m.tenantId), m.from, m.to);
            RowsStay(H, was, range) && |was| == |range|
  {
    hide RowsStay, VisibleInOrder, Between, Within, Rising, OfTenant;
    var ta, tb := OfTenant(a, m.tenantId), OfTenant(b, m.tenantId);
    OfTenantStays(H, a, b, m.tenantId);
    BetweenStays(H, ta, tb, m.from, m.to);
    LogGrows(H, a, b, m.tenantId);
    WithinStays(Numbers(ta), Numbers(tb), m.from, m.to);
    BetweenNumbers(ta, m.from, m.to);
    BetweenNumbers(tb, m.from, m.to);
  }

  lemma {:induction false} RowsStayTwice(H: Hashing, a: Table, b: Table, c: Table)
    requires RowsStay(H, a, b) && RowsStay(H, b, c)
    ensures RowsStay(H, a, c)
  {
    hide Accepts;
    forall i | 0 <= i < |a| ensures StillAccepted(H, a[i], c[i]) {
      assert StillAccepted(H, a[i], b[i]) && StillAccepted(H, b[i], c[i]);
    }
  }

  lemma {:induction false} HoldsStays(H: Hashing, a: Table, b: Table, m: Message, content: Table)
    requires Evolves(H, a, b) && m.to in NumbersOf(a, m.tenantId) && Holds(H, a, m, content)
    ensures Holds(H, b, m, content)
  {
    hide Evolves, RowsStay, OfTenant, Between;
    RangeStays(H, a, b, m);
    RowsStayTwice(H, content, Between(OfTenant(a, m.tenantId), m.from, m.to),
                  Between(OfTenant(b, m.tenantId), m.from, m.to));
  }

  lemma {:induction false} LoadedHolds(H: Hashing, rows: Table, m: Message)
    requires VisibleInOrder(rows)
    ensures Holds(H, rows, m, RangeRows(rows, m))
  {
    var range := Between(OfTenant(rows, m.tenantId), m.from, m.to);
    OfTenantAscending(rows, m.tenantId);
    BetweenAscends(OfTenant(rows, m.tenantId), m.from, m.to);
    BySequenceOfAscending(range);
    RowsStayAsTheyAre(H, range);
  }

  lemma {:induction false} RowsStayAsTheyAre(H: Hashing, rows: Table)
    ensures RowsStay(H, rows, rows)
  {
  }

  lemma {:induction false} HeldNumbers(H: Hashing, rows: Table, m: Message, content: Table)
    requires Holds(H, rows, m, content)
    ensures Numbers(content) == Within(NumbersOf(rows, m.tenantId), m.from, m.to)
  {
    var range := Between(OfTenant(rows, m.tenantId), m.from, m.to);
    BetweenNumbers(OfTenant(rows, m.tenantId), m.from, m.to);
    hide Accepts;
    forall i | 0 <= i < |content| ensures content[i].sequence == range[i].sequence {
      assert StillAccepted(H, content[i], range[i]);
    }
  }

  // ------------------------------------------------------------- invariant

  /** 32-bit sequences: far below what twelve digits hold. */
  ghost predicate Narrow(rows: Table) {
    DistinctSequences(rows) && forall i | 0 <= i < |rows| :: 0 < rows[i].sequence < LIMIT
  }

  ghost predicate NamesRange(s: Streams, key: Text, i: int, prefix: Text) {
    && 0 <= i < |s.outbox| && s.outbox[i].sinkId in s.known && s.known[s.outbox[i].sinkId] == prefix
    && key == KeyOf(prefix, s.outbox[i])
  }

  ghost predicate NamesProbe(key: Text, prefix: Text, tenantId: Text) {
    key == ProbeKey(prefix, tenantId)
  }

  /** Every object was stored for a staged range or a probe; under a range's key lies that range. */
  ghost predicate StoreOk(H: Hashing, rows: Table, s: Streams, store: Store) {
    && (forall key | key in store ::
          (exists i, prefix :: NamesRange(s, key, i, prefix)) || (exists prefix, tenantId :: NamesProbe(key, prefix, tenantId)))
    && (forall i, prefix | 0 <= i < |s.outbox| && KeyOf(prefix, s.outbox[i]) in store ::
          Holds(H, rows, s.outbox[i], store[KeyOf(prefix, s.outbox[i])]))
    && (forall prefix, tenantId | ProbeKey(prefix, tenantId) in store :: store[ProbeKey(prefix, tenantId)] == [])
  }

  /** A message that reached its end left its object, unless its sink was gone. */
  ghost predicate Stored(s: Streams, store: Store, index: nat) {
    && index < |s.outbox|
    && var m := s.outbox[index];
       m.sinkId in s.sinks ==> KeyOf(s.sinks[m.sinkId].keyPrefix, m) in store
  }

  ghost predicate RunOk(H: Hashing, rows: Table, s: Streams, store: Store, r: Run) {
    && r.index < |s.outbox|
    && var m := s.outbox[r.index];
       && (!r.stage.Sent? ==> m.sinkId in s.known && r.stage.prefix == s.known[m.sinkId])
       && (m.sinkId in s.sinks ==> m.sinkId in s.known && s.known[m.sinkId] == s.sinks[m.sinkId].keyPrefix)
       && (r.stage.Loaded? ==> Holds(H, rows, m, r.stage.content))
       && (r.stage.Sent? ==> Stored(s, store, r.index))
  }

  ghost predicate DeliveriesOk(H: Hashing, rows: Table, s: Streams, x: Deliveries) {
    && StoreOk(H, rows, s, x.store)
    && (forall d | d in x.runs :: RunOk(H, rows, s, x.store, x.runs[d]))
    && (forall i | i in x.delivered :: Stored(s, x.store, i))
  }

  lemma {:induction false} NoDeliveriesOk(H: Hashing, rows: Table, s: Streams)
    ensures DeliveriesOk(H, rows, s, NO_DELIVERIES)
  {
  }

  // -------------------------------------------------- what others' steps do

  lemma {:induction false} DeliveriesStay(H: Hashing, a: Table, b: Table, s: Streams, x: Deliveries)
    requires Evolves(H, a, b) && StreamsOk(a, s) && DeliveriesOk(H, a, s, x)
    ensures DeliveriesOk(H, b, s, x)
  {
    hide Evolves, Holds, NumbersOf, SinkOk, StreamerOk;
    forall i, prefix | 0 <= i < |s.outbox| && KeyOf(prefix, s.outbox[i]) in x.store
      ensures Holds(H, b, s.outbox[i], x.store[KeyOf(prefix, s.outbox[i])])
    {
      assert MessageOk(a, s, s.outbox[i]);
      HoldsStays(H, a, b, s.outbox[i], x.store[KeyOf(prefix, s.outbox[i])]);
    }
    forall d | d in x.runs ensures RunOk(H, b, s, x.store, x.runs[d]) {
      var r := x.runs[d];
      assert RunOk(H, a, s, x.store, r);
      assert MessageOk(a, s, s.outbox[r.index]);
      if r.stage.Loaded? {
        HoldsStays(H, a, b, s.outbox[r.index], r.stage.content);
      }
    }
  }

  /** A sink, while it exists, keeps its prefix; a new one was never sent anything. */
  ghost predicate SinksStay(s: Streams, s': Streams) {
    && s.outbox <= s'.outbox
    && s.known.Keys <= s'.known.Keys && (forall id | id in s.known :: s'.known[id] == s.known[id])
    && forall id | id in s'.sinks && id in s.known :: id in s.sinks && s'.sinks[id].keyPrefix == s.sinks[id].keyPrefix
  }

  lemma {:induction false} StreamStepSinksStay(rows: Table, s: Streams, ev: StreamEvent, s': Streams)
    requires StreamsOk(rows, s) && StreamStep(rows, s, ev, s')
    ensures SinksStay(s, s')
  {
    hide SinkOk, StreamerOk, MessageOk;
  }

  lemma {:induction false} StoredStays(rows: Table, s: Streams, s': Streams, store: Store, i: nat)
    requires StreamsOk(rows, s) && SinksStay(s, s') && Stored(s, store, i)
    ensures Stored(s', store, i)
  {
    assert MessageOk(rows, s, s.outbox[i]);
  }

  // ------------------------------------------------------- keys and ranges

  lemma {:induction false} NumberOfOneTenant(rows: Table, a: Text, b: Text, n: nat)
    requires DistinctSequences(rows) && n in NumbersOf(rows, a) && n in NumbersOf(rows, b)
    ensures a == b
  {
    var ra, rb := OfTenant(rows, a), OfTenant(rows, b);
    var i :| 0 <= i < |ra| && ra[i].sequence == n;
    var j :| 0 <= j < |rb| && rb[j].sequence == n;
    OfTenantHolds(rows, a, ra[i]);
    OfTenantHolds(rows, b, rb[j]);
  }

  lemma {:induction false} NumberNarrow(rows: Table, tenantId: Text, n: nat)
    requires Narrow(rows) && n in NumbersOf(rows, tenantId)
    ensures 0 < n < LIMIT
  {
    var mine := OfTenant(rows, tenantId);
    var i :| 0 <= i < |mine| && mine[i].sequence == n;
    OfTenantHolds(rows, tenantId, mine[i]);
  }

  /** Two staged ranges never share a key unless they are the same stretch of the same log. */
  lemma {:induction false} SameKeySameRange(rows: Table, s: Streams, p: Text, m: Message, q: Text, o: Message)
    requires Narrow(rows) && MessageOk(rows, s, m) && MessageOk(rows, s, o)
    requires KeyOf(p, m) == KeyOf(q, o)
    ensures m.tenantId == o.tenantId && m.from == o.from && m.to == o.to
  {
    hide Narrow, NumbersOf, StorageKey;
    MessageNarrow(rows, s, m);
    MessageNarrow(rows, s, o);
    KeyDecidesRange(p, m.tenantId, m.from, m.to, q, o.tenantId, o.from, o.to);
    assert DistinctSequences(rows) by { NarrowDistinct(rows); }
    NumberOfOneTenant(rows, m.tenantId, o.tenantId, m.from);
  }

  lemma {:induction false} NarrowDistinct(rows: Table)
    requires Narrow(rows)
    ensures DistinctSequences(rows)
  {
  }

  lemma {:induction false} MessageNarrow(rows: Table, s: Streams, m: Message)
    requires Narrow(rows) && MessageOk(rows, s, m)
    ensures 0 < m.from < LIMIT && 0 < m.to < LIMIT
  {
    hide NumbersOf, Narrow;
    NumberNarrow(rows, m.tenantId, m.from);
    NumberNarrow(rows, m.tenantId, m.to);
  }

  /** A probe never touches a range's object. */
  lemma {:induction false} ProbeApart(rows: Table, s: Streams, p: Text, m: Message, q: Text, tenantId: Text)
    requires Narrow(rows) && MessageOk(rows, s, m)
    ensures KeyOf(p, m) != ProbeKey(q, tenantId)
  {
    hide Narrow, NumbersOf, StorageKey;
    MessageNarrow(rows, s, m);
    if KeyOf(p, m) == ProbeKey(q, tenantId) {
      KeyDecidesRange(p, m.tenantId, m.from, m.to, q, tenantId, 0, 0);
    }
  }

  lemma {:induction false} HoldsAlike(H: Hashing, rows: Table, m: Message, o: Message, content: Table)
    requires m.tenantId == o.tenantId && m.from == o.from && m.to == o.to
    ensures Holds(H, rows, m, content) <==> Holds(H, rows, o, content)
  {
  }

  /** What an object already stored under a message's key holds is the message's range. */
  lemma {:induction false} FoundHolds(
    H: Hashing, rows: Table, s: Streams, store: Store, t: Streams, m: Message, prefix: Text)
    requires Narrow(rows) && StreamsOk(rows, s) && StoreOk(H, rows, s, store)
    requires MessageOk(rows, t, m) && KeyOf(prefix, m) in store
    ensures Holds(H, rows, m, store[KeyOf(prefix, m)])
  {
    hide Holds, Narrow, KeyOf, ProbeKey, NumbersOf, SinkOk, StreamerOk;
    var key := KeyOf(prefix, m);
    if i, p :| NamesRange(s, key, i, p) {
      assert MessageOk(rows, s, s.outbox[i]);
      assert MessageOk(rows, s.(known := s.known + t.known, sinks := map[]), s.outbox[i]);
      assert MessageOk(rows, s.(known := s.known + t.known, sinks := map[]), m);
      SameKeySameRange(rows, s.(known := s.known + t.known, sinks := map[]), prefix, m, p, s.outbox[i]);
      HoldsAlike(H, rows, m, s.outbox[i], store[key]);
    } else {
      var p, tenantId :| NamesProbe(key, p, tenantId);
      ProbeApart(rows, t, prefix, m, p, tenantId);
    }
  }

  lemma {:induction false} StoreStays(H: Hashing, rows: Table, s: Streams, s': Streams, store: Store)
    requires Narrow(rows) && StreamsOk(rows, s) && StreamsOk(rows, s') && SinksStay(s, s')
    requires StoreOk(H, rows, s, store)
    ensures StoreOk(H, rows, s', store)
  {
    hide Holds, NumbersOf, SinkOk, StreamerOk, KeyOf, ProbeKey, Narrow;
    forall i, prefix | 0 <= i < |s'.outbox| && KeyOf(prefix, s'.outbox[i]) in store
      ensures Holds(H, rows, s'.outbox[i], store[KeyOf(prefix, s'.outbox[i])])
    {
      assert MessageOk(rows, s', s'.outbox[i]);
      FoundHolds(H, rows, s, store, s', s'.outbox[i], prefix);
    }
    forall key | key in store
      ensures (exists i, prefix :: NamesRange(s', key, i, prefix)) || (exists prefix, tenantId :: NamesProbe(key, prefix, tenantId))
    {
      if i, prefix :| NamesRange(s, key, i, prefix) {
        assert NamesRange(s', key, i, prefix);
      }
    }
  }

  /** The streamer's steps: a range staged now may already lie there, stored for another sink. */
  lemma {:induction false} OutboxGrows(
    H: Hashing, rows: Table, s: Streams, s': Streams, x: Deliveries)
    requires VisibleInOrder(rows) && Narrow(rows)
    requires StreamsOk(rows, s) && StreamsOk(rows, s') && SinksStay(s, s')
    requires DeliveriesOk(H, rows, s, x)
    ensures DeliveriesOk(H, rows, s', x)
  {
    hide Holds, NumbersOf, SinkOk, StreamerOk, KeyOf, ProbeKey, Narrow;
    StoreStays(H, rows, s, s', x.store);
    forall d | d in x.runs ensures RunOk(H, rows, s', x.store, x.runs[d]) {
      var r := x.runs[d];
      assert RunOk(H, rows, s, x.store, r);
      assert MessageOk(rows, s, s.outbox[r.index]);
      if r.stage.Sent? {
        StoredStays(rows, s, s', x.store, r.index);
      }
    }
    forall i | i in x.delivered ensures Stored(s', x.store, i) {
      StoredStays(rows, s, s', x.store, i);
    }
  }

  // ---------------------------------------------------------- handler steps

  lemma {:induction false} PutKeepsStore(
    H: Hashing, rows: Table, s: Streams, store: Store, index: nat, prefix: Text, content: Table)
    requires Narrow(rows) && StreamsOk(rows, s) && StoreOk(H, rows, s, store)
    requires index < |s.outbox| && Holds(H, rows, s.outbox[index], content)
    requires s.outbox[index].sinkId in s.known && prefix == s.known[s.outbox[index].sinkId]
    ensures StoreOk(H, rows, s, store[KeyOf(prefix, s.outbox[index]) := content])
  {
    hide Holds, NumbersOf, SinkOk, StreamerOk, KeyOf, ProbeKey, Narrow;
    var m := s.outbox[index];
    var after := store[KeyOf(prefix, m) := content];
    assert MessageOk(rows, s, m);
    forall i, p | 0 <= i < |s.outbox| && KeyOf(p, s.outbox[i]) in after
      ensures Holds(H, rows, s.outbox[i], after[KeyOf(p, s.outbox[i])])
    {
      if KeyOf(p, s.outbox[i]) == KeyOf(prefix, m) {
        assert MessageOk(rows, s, s.outbox[i]);
        SameKeySameRange(rows, s, prefix, m, p, s.outbox[i]);
        HoldsAlike(H, rows, m, s.outbox[i], content);
      }
    }
    forall p, tenantId | ProbeKey(p, tenantId) in after ensures after[ProbeKey(p, tenantId)] == [] {
      ProbeApart(rows, s, prefix, m, p, tenantId);
    }
    assert NamesRange(s, KeyOf(prefix, m), index, prefix);
  }

  lemma {:induction false} ProbeKeepsStore(
    H: Hashing, rows: Table, s: Streams, store: Store, prefix: Text, tenantId: Text)
    requires Narrow(rows) && StreamsOk(rows, s) && StoreOk(H, rows, s, store)
    ensures StoreOk(H, rows, s, store[ProbeKey(prefix, tenantId) := []])
  {
    hide Holds, NumbersOf, SinkOk, StreamerOk, KeyOf, ProbeKey, Narrow;
    var after := store[ProbeKey(prefix, tenantId) := []];
    forall i, p | 0 <= i < |s.outbox| && KeyOf(p, s.outbox[i]) in after
      ensures Holds(H, rows, s.outbox[i], after[KeyOf(p, s.outbox[i])])
    {
      assert MessageOk(rows, s, s.outbox[i]);
      ProbeApart(rows, s, p, s.outbox[i], prefix, tenantId);
    }
    assert NamesProbe(ProbeKey(prefix, tenantId), prefix, tenantId);
  }

  /** Runs and deliveries carry on over a store that only gained or replaced objects. */
  lemma {:induction false} StoreGrows(H: Hashing, rows: Table, s: Streams, x: Deliveries, store: Store)
    requires DeliveriesOk(H, rows, s, x) && StoreOk(H, rows, s, store) && x.store.Keys <= store.Keys
    ensures DeliveriesOk(H, rows, s, x.(store := store))
  {
    hide Holds, StoreOk, KeyOf;
    forall d | d in x.runs ensures RunOk(H, rows, s, store, x.runs[d]) {
      assert RunOk(H, rows, s, x.store, x.runs[d]);
    }
    forall i | i in x.delivered ensures Stored(s, store, i) {
      assert Stored(s, x.store, i);
    }
  }

  lemma {:induction false} PutKeepsOk(H: Hashing, rows: Table, s: Streams, x: Deliveries, d: nat, x': Deliveries)
    requires Narrow(rows) && StreamsOk(rows, s) && DeliveriesOk(H, rows, s, x)
    requires DeliveryStep(rows, s, x, Put(d), x')
    ensures DeliveriesOk(H, rows, s, x')
  {
    hide Holds, StoreOk, KeyOf, Narrow, StreamsOk;
    var r := x.runs[d];
    assert RunOk(H, rows, s, x.store, r);
    PutKeepsStore(H, rows, s, x.store, r.index, r.stage.prefix, r.stage.content);
    StoreGrows(H, rows, s, x, x'.store);
    assert DeliveriesOk(H, rows, s, x.(store := x'.store));
    forall v | v in x'.runs ensures RunOk(H, rows, s, x'.store, x'.runs[v]) {
      if v != d {
        assert RunOk(H, rows, s, x'.store, x.(store := x'.store).runs[v]);
      }
    }
  }

  lemma {:induction false} LoadKeepsOk(H: Hashing, rows: Table, s: Streams, x: Deliveries, d: nat, x': Deliveries)
    requires VisibleInOrder(rows) && DeliveriesOk(H, rows, s, x)
    requires DeliveryStep(rows, s, x, Load(d), x')
    ensures DeliveriesOk(H, rows, s, x')
  {
    hide Holds, StoreOk, RangeRows, VisibleInOrder;
    LoadedHolds(H, rows, s.outbox[x.runs[d].index]);
    forall v | v in x'.runs ensures RunOk(H, rows, s, x'.store, x'.runs[v]) {
      assert RunOk(H, rows, s, x.store, x.runs[v]);
    }
  }

  lemma {:induction false} SinksKnown(rows: Table, s: Streams)
    requires StreamsOk(rows, s)
    ensures forall id | id in s.sinks :: id in s.known && s.known[id] == s.sinks[id].keyPrefix
  {
    hide Tiled, NumbersOf, RangesOf;
    forall id | id in s.sinks ensures id in s.known && s.known[id] == s.sinks[id].keyPrefix {
      assert SinkOk(rows, s, id);
    }
  }

  lemma {:induction false} OtherDeliveryKeepsOk(
    H: Hashing, rows: Table, s: Streams, x: Deliveries, ev: DeliveryEvent, x': Deliveries)
    requires Narrow(rows) && StreamsOk(rows, s) && DeliveriesOk(H, rows, s, x)
    requires DeliveryStep(rows, s, x, ev, x')
    requires ev.Fetch? || ev.Finish? || ev.Stop? || ev.Probe?
    ensures DeliveriesOk(H, rows, s, x')
  {
    hide Holds, StoreOk, KeyOf, ProbeKey, Narrow, SinkOk, StreamerOk, NumbersOf;
    if ev.Probe? {
      ProbeKeepsStore(H, rows, s, x.store, ev.prefix, ev.tenantId);
      StoreGrows(H, rows, s, x, x'.store);
    } else {
      assert ev.Fetch? ==> MessageOk(rows, s, s.outbox[ev.index]);
      SinksKnown(rows, s);
      forall v | v in x'.runs ensures RunOk(H, rows, s, x'.store, x'.runs[v]) {
        assert v in x.runs ==> RunOk(H, rows, s, x.store, x.runs[v]);
      }
      assert ev.Finish? ==> RunOk(H, rows, s, x.store, x.runs[ev.d]);
    }
  }

  lemma {:induction false} DeliveryStepKeepsOk(
    H: Hashing, rows: Table, s: Streams, x: Deliveries, ev: DeliveryEvent, x': Deliveries)
    requires VisibleInOrder(rows) && Narrow(rows) && StreamsOk(rows, s) && DeliveriesOk(H, rows, s, x)
    requires DeliveryStep(rows, s, x, ev, x')
    ensures DeliveriesOk(H, rows, s, x')
  {
    hide VisibleInOrder, Narrow, StreamsOk, DeliveriesOk, DeliveryStep;
    match ev
    case Put(d) => PutKeepsOk(H, rows, s, x, d, x');
    case Load(d) => LoadKeepsOk(H, rows, s, x, d, x');
    case _ => OtherDeliveryKeepsOk(H, rows, s, x, ev, x');
  }

  // -------------------------------------------------------------- results

  /** A sink's keys, in the order its ranges were staged. */
  function KeysOf(sink: Sink, ranges: seq<Range>): (keys: seq<Text>)
    ensures |keys| == |ranges|
    ensures forall i | 0 <= i < |keys| :: keys[i] == StorageKey(sink.keyPrefix, sink.tenantId, ranges[i].0, ranges[i].1)
  {
    seq(|ranges|, i requires 0 <= i < |ranges| => StorageKey(sink.keyPrefix, sink.tenantId, ranges[i].0, ranges[i].1))
  }

  ghost predicate LexAscending(keys: seq<Text>) {
    forall i, j | 0 <= i < j < |keys| :: LexBefore(keys[i], keys[j])
  }

  function Object(store: Store, key: Text): Table {
    if key in store then store[key] else []
  }

  /** Reading objects one after the other. */
  function ReadAll(store: Store, keys: seq<Text>): Table {
    if keys == [] then [] else ReadAll(store, keys[..|keys| - 1]) + Object(store, keys[|keys| - 1])
  }

  /** A key listing: the same keys in text order, whatever order they came in. */
  lemma {:induction false} ListingUnique(a: seq<Text>, b: seq<Text>)
    requires LexAscending(a) && LexAscending(b) && forall k :: k in a <==> k in b
    ensures a == b
    decreases |a|
  {
    EmptyAlike(a, b);
    if a != [] {
      ListingHead(a, b);
      ListingTail(a);
      ListingTail(b);
      assert a == [a[0]] + a[1..] && b == [b[0]] + b[1..];
      ListingUnique(a[1..], b[1..]);
    }
  }

  lemma {:induction false} EmptyAlike(a: seq<Text>, b: seq<Text>)
    requires forall k :: k in a <==> k in b
    ensures a == [] <==> b == []
  {
    if a != [] {
      assert a[0] in a;
    }
    if b != [] {
      assert b[0] in b;
    }
  }

  lemma {:induction false} ListingHead(a: seq<Text>, b: seq<Text>)
    requires a != [] && b != [] && LexAscending(a) && LexAscending(b) && forall k :: k in a <==> k in b
    ensures a[0] == b[0]
  {
    assert a[0] in a && b[0] in b;
    var i :| 0 <= i < |b| && b[i] == a[0];
    var j :| 0 <= j < |a| && a[j] == b[0];
    LexTotal(a[0], b[0]);
  }

  lemma {:induction false} ListingTail(a: seq<Text>)
    requires a != [] && LexAscending(a)
    ensures LexAscending(a[1..])
    ensures forall k :: k in a[1..] <==> k in a && k != a[0]
  {
    assert a == [a[0]] + a[1..];
    hide LexBefore;
    forall k | k in a[1..] ensures k != a[0] {
      var i :| 0 <= i < |a[1..]| && a[1..][i] == k;
      assert LexBefore(a[0], a[i + 1]);
      LexTotal(a[0], a[0]);
    }
  }

  ghost predicate NarrowRanges(ranges: seq<Range>) {
    forall i | 0 <= i < |ranges| :: ranges[i].0 < LIMIT && ranges[i].1 < LIMIT
  }

  /** The keys of a tiled log sort as they were staged. */
  lemma {:induction false} KeysAscend(sink: Sink, ranges: seq<Range>)
    requires NarrowRanges(ranges)
    requires forall i, j | 0 <= i < j < |ranges| :: ranges[i].0 < ranges[j].0
    ensures LexAscending(KeysOf(sink, ranges))
  {
    hide LexBefore, StorageKey;
    var keys := KeysOf(sink, ranges);
    forall i, j | 0 <= i < j < |keys| ensures LexBefore(keys[i], keys[j]) {
      KeysOrder(sink.keyPrefix, sink.tenantId, ranges[i].0, ranges[i].1, ranges[j].0, ranges[j].1);
    }
  }

  /** Everything a sink was sent has been delivered at least once. */
  ghost predicate AllDelivered(s: Streams, x: Deliveries, id: nat) {
    forall i | 0 <= i < |s.outbox| && s.outbox[i].sinkId == id :: i in x.delivered
  }

  ghost predicate InStore(store: Store, sink: Sink, nums: seq<nat>, r: Range) {
    && r.0 < LIMIT && r.1 < LIMIT
    && var key := StorageKey(sink.keyPrefix, sink.tenantId, r.0, r.1);
       key in store && Numbers(store[key]) == Within(nums, r.0, r.1)
  }

  lemma {:induction false} RangeInStore(H: Hashing, rows: Table, s: Streams, x: Deliveries, id: nat, r: Range)
    requires Narrow(rows) && StreamsOk(rows, s) && DeliveriesOk(H, rows, s, x)
    requires id in s.sinks && AllDelivered(s, x, id) && r in RangesOf(s.outbox, id)
    ensures InStore(x.store, s.sinks[id], NumbersOf(rows, s.sinks[id].tenantId), r)
  {
    hide Holds, NumbersOf, SinkOk, StreamerOk, Narrow, StorageKey, RangesOf;
    RangeOfMessage(s.outbox, id, r);
    var i :| IsMessage(s.outbox, i, id, r);
    var m := s.outbox[i];
    assert MessageOk(rows, s, m) && Stored(s, x.store, i);
    MessageNarrow(rows, s, m);
    HeldNumbers(H, rows, m, x.store[KeyOf(s.sinks[id].keyPrefix, m)]);
  }

  lemma {:induction false} ReadBack(store: Store, sink: Sink, nums: seq<nat>, ranges: seq<Range>)
    requires forall i | 0 <= i < |ranges| :: InStore(store, sink, nums, ranges[i])
    ensures Numbers(ReadAll(store, KeysOf(sink, ranges))) == Covered(nums, ranges)
  {
    hide StorageKey, Within;
    if ranges != [] {
      var front, last := ranges[..|ranges| - 1], ranges[|ranges| - 1];
      ReadBack(store, sink, nums, front);
      var keys := KeysOf(sink, ranges);
      assert keys[..|keys| - 1] == KeysOf(sink, front);
      assert InStore(store, sink, nums, last);
      NumbersOfConcat(ReadAll(store, KeysOf(sink, front)), Object(store, keys[|keys| - 1]));
    }
  }

  lemma {:induction false} NumbersOfConcat(a: Table, b: Table)
    ensures Numbers(a + b) == Numbers(a) + Numbers(b)
  {
  }

  /** What a listing of the sink's folder starts with once the sink was probed. */
  function Probed(store: Store, sink: Sink): seq<Text> {
    var key := ProbeKey(sink.keyPrefix, sink.tenantId);
    if key in store then [key] else []
  }

  lemma {:induction false} ReadAllAfterNothing(store: Store, first: seq<Text>, keys: seq<Text>)
    requires ReadAll(store, first) == []
    ensures ReadAll(store, first + keys) == ReadAll(store, keys)
  {
    if keys == [] {
      assert first + keys == first;
    } else {
      ReadAllAfterNothing(store, first, keys[..|keys| - 1]);
      assert (first + keys)[..|first + keys| - 1] == first + keys[..|keys| - 1];
    }
  }

  /** A probe's object is empty and sorts before every range. */
  lemma {:induction false} ProbeFirst(
    H: Hashing, rows: Table, s: Streams, store: Store, sink: Sink, ranges: seq<Range>)
    requires StoreOk(H, rows, s, store) && NarrowRanges(ranges)
    requires forall i | 0 <= i < |ranges| :: 0 < ranges[i].0
    requires LexAscending(KeysOf(sink, ranges))
    ensures LexAscending(Probed(store, sink) + KeysOf(sink, ranges))
    ensures ReadAll(store, Probed(store, sink) + KeysOf(sink, ranges)) == ReadAll(store, KeysOf(sink, ranges))
  {
    hide LexBefore, StorageKey, ReadAll, KeysOf;
    var first, keys := Probed(store, sink), KeysOf(sink, ranges);
    NothingProbed(H, rows, s, store, sink);
    ReadAllAfterNothing(store, first, keys);
    forall i | 0 <= i < |keys| ensures LexBefore(ProbeKey(sink.keyPrefix, sink.tenantId), keys[i]) {
      KeysOrder(sink.keyPrefix, sink.tenantId, 0, 0, ranges[i].0, ranges[i].1);
    }
  }

  lemma {:induction false} NothingProbed(H: Hashing, rows: Table, s: Streams, store: Store, sink: Sink)
    requires StoreOk(H, rows, s, store)
    ensures ReadAll(store, Probed(store, sink)) == []
  {
    hide StorageKey, Holds;
    var key := ProbeKey(sink.keyPrefix, sink.tenantId);
    assert key in store ==> Object(store, key) == [];
    assert Probed(store, sink) != [] ==> Probed(store, sink)[..0] == [];
  }

  /** The keys a sink's objects have: its ranges', and its probe's. */
  ghost predicate IsListing(store: Store, sink: Sink, ranges: seq<Range>, listing: seq<Text>) {
    && LexAscending(listing)
    && forall key :: key in listing <==>
         key in store && (key in KeysOf(sink, ranges) || key == ProbeKey(sink.keyPrefix, sink.tenantId))
  }

  lemma {:induction false} ListingIs(store: Store, sink: Sink, ranges: seq<Range>, listing: seq<Text>)
    requires IsListing(store, sink, ranges, listing)
    requires forall i | 0 <= i < |ranges| :: KeysOf(sink, ranges)[i] in store
    requires LexAscending(Probed(store, sink) + KeysOf(sink, ranges))
    ensures listing == Probed(store, sink) + KeysOf(sink, ranges)
  {
    hide StorageKey, LexAscending, KeysOf;
    var keys := KeysOf(sink, ranges);
    var all := Probed(store, sink) + keys;
    forall key ensures key in listing <==> key in all {
      assert key in all <==> key in Probed(store, sink) || key in keys;
    }
    ListingUnique(listing, all);
  }

  /**
   * However the outbox ordered and repeated its deliveries: once every staged message of
   * a sink was delivered, its objects read in key order give each entry's sequence from
   * the starting cursor to the current one, once, in order.
   */
  lemma {:induction false} DeliveredExactly(
    H: Hashing, rows: Table, s: Streams, x: Deliveries, id: nat, listing: seq<Text>)
    requires VisibleInOrder(rows) && Narrow(rows) && StreamsOk(rows, s) && DeliveriesOk(H, rows, s, x)
    requires id in s.sinks && AllDelivered(s, x, id)
    requires IsListing(x.store, s.sinks[id], RangesOf(s.outbox, id), listing)
    ensures Numbers(ReadAll(x.store, listing))
         == Within(NumbersOf(rows, s.sinks[id].tenantId), s.sinks[id].start + 1, s.sinks[id].cursor)
  {
    hide VisibleInOrder, Narrow, StreamsOk, NumbersOf, RangesOf, Within, Covered, StorageKey, LexAscending;
    hide IsListing, StoreOk, RunOk, Stored;
    var sink, ranges := s.sinks[id], RangesOf(s.outbox, id);
    var nums := NumbersOf(rows, sink.tenantId);
    SinkExactlyOnce(rows, s, id);
    forall i | 0 <= i < |ranges| ensures InStore(x.store, sink, nums, ranges[i]) {
      RangeInStore(H, rows, s, x, id, ranges[i]);
    }
    RangesAscend(rows, s, id);
    KeysAscend(sink, ranges);
    ProbeFirst(H, rows, s, x.store, sink, ranges);
    ListingIs(x.store, sink, ranges, listing);
    ReadBack(x.store, sink, nums, ranges);
  }

  /** What lies directly in a folder, whoever stored it. */
  ghost predicate IsFolderListing(store: Store, folder: Text, listing: seq<Text>) {
    && LexAscending(listing)
    && forall key :: key in listing <==> key in store && InFolder(key, folder)
  }

  /** No other sink there is or was, of those that were sent anything, stores in this one's folder. */
  ghost predicate FolderIsOwn(s: Streams, id: nat)
    requires id in s.sinks
  {
    forall i | 0 <= i < |s.outbox| && s.outbox[i].sinkId in s.known && s.outbox[i].sinkId != id ::
      Folder(s.known[s.outbox[i].sinkId], s.outbox[i].tenantId) != Folder(s.sinks[id].keyPrefix, s.sinks[id].tenantId)
  }

  /** An object in a sink's own folder is one of the sink's ranges, or its probe. */
  lemma {:induction false} FolderHoldsOwn(H: Hashing, rows: Table, s: Streams, store: Store, id: nat, key: Text)
    requires StreamsOk(rows, s) && StoreOk(H, rows, s, store) && id in s.sinks && FolderIsOwn(s, id)
    requires key in store && InFolder(key, Folder(s.sinks[id].keyPrefix, s.sinks[id].tenantId))
    ensures var sink := s.sinks[id];
            key in KeysOf(sink, RangesOf(s.outbox, id)) || key == ProbeKey(sink.keyPrefix, sink.tenantId)
  {
    hide Holds, NumbersOf, StreamerOk, InFolder, Folder, FileName, RangesOf;
    var sink := s.sinks[id];
    assert SinkOk(rows, s, id);
    if i, prefix :| NamesRange(s, key, i, prefix) {
      var m := s.outbox[i];
      assert MessageOk(rows, s, m);
      FolderIs(sink.keyPrefix, sink.tenantId, prefix, m.tenantId, m.from, m.to);
      assert m.sinkId == id;
      RangeOfMessage(s.outbox, id, (m.from, m.to));
      assert IsMessage(s.outbox, i, id, (m.from, m.to));
      var ranges := RangesOf(s.outbox, id);
      var k :| 0 <= k < |ranges| && ranges[k] == (m.from, m.to);
      assert KeysOf(sink, ranges)[k] == key;
    } else {
      var prefix, tenantId :| NamesProbe(key, prefix, tenantId);
      FolderIs(sink.keyPrefix, sink.tenantId, prefix, tenantId, 0, 0);
    }
  }

  /** A sink's keys lie in its folder. */
  lemma {:induction false} OwnInFolder(sink: Sink, ranges: seq<Range>, key: Text)
    requires key in KeysOf(sink, ranges) || key == ProbeKey(sink.keyPrefix, sink.tenantId)
    ensures InFolder(key, Folder(sink.keyPrefix, sink.tenantId))
  {
    hide InFolder, Folder, FileName;
    if key in KeysOf(sink, ranges) {
      var k :| 0 <= k < |ranges| && KeysOf(sink, ranges)[k] == key;
      FolderIs(sink.keyPrefix, sink.tenantId, sink.keyPrefix, sink.tenantId, ranges[k].0, ranges[k].1);
    } else {
      FolderIs(sink.keyPrefix, sink.tenantId, sink.keyPrefix, sink.tenantId, 0, 0);
    }
  }

  /**
   * The same of all that lies in the sink's folder: whoever reads it in key order, with
   * nothing but the folder's name, gets each entry once, in order, if the sink shares its
   * folder with no other.
   */
  lemma {:induction false} FolderReadsBack(
    H: Hashing, rows: Table, s: Streams, x: Deliveries, id: nat, listing: seq<Text>)
    requires VisibleInOrder(rows) && Narrow(rows) && StreamsOk(rows, s) && DeliveriesOk(H, rows, s, x)
    requires id in s.sinks && AllDelivered(s, x, id) && FolderIsOwn(s, id)
    requires IsFolderListing(x.store, Folder(s.sinks[id].keyPrefix, s.sinks[id].tenantId), listing)
    ensures Numbers(ReadAll(x.store, listing))
         == Within(NumbersOf(rows, s.sinks[id].tenantId), s.sinks[id].start + 1, s.sinks[id].cursor)
  {
    hide VisibleInOrder, Narrow, StreamsOk, NumbersOf, RangesOf, Within, StoreOk, RunOk, Stored, LexAscending, FolderIsOwn;
    hide StorageKey, InFolder, Folder;
    var sink, ranges := s.sinks[id], RangesOf(s.outbox, id);
    forall key ensures key in listing <==>
      key in x.store && (key in KeysOf(sink, ranges) || key == ProbeKey(sink.keyPrefix, sink.tenantId))
    {
      if key in x.store && InFolder(key, Folder(sink.keyPrefix, sink.tenantId)) {
        FolderHoldsOwn(H, rows, s, x.store, id, key);
      }
      if key in KeysOf(sink, ranges) || key == ProbeKey(sink.keyPrefix, sink.tenantId) {
        OwnInFolder(sink, ranges, key);
      }
    }
    DeliveredExactly(H, rows, s, x, id, listing);
  }

  lemma {:induction false} RangesAscend(rows: Table, s: Streams, id: nat)
    requires StreamsOk(rows, s) && id in s.sinks
    ensures var ranges := RangesOf(s.outbox, id);
            && (forall i | 0 <= i < |ranges| :: 0 < ranges[i].0)
            && (forall i, j | 0 <= i < j < |ranges| :: ranges[i].0 < ranges[j].0)
  {
    hide Tiled, NumbersOf, RangesOf;
    var ranges := RangesOf(s.outbox, id);
    assert SinkOk(rows, s, id);
    forall i | 0 <= i < |ranges| ensures 0 < ranges[i].0 {
      TiledBounds(NumbersOf(rows, s.sinks[id].tenantId), s.sinks[id].start, ranges, i);
    }
    forall i, j | 0 <= i < j < |ranges| ensures ranges[i].0 < ranges[j].0 {
      TiledAscends(NumbersOf(rows, s.sinks[id].tenantId), s.sinks[id].start, ranges, i, j);
    }
  }
}
