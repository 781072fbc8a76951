/** Streaming a log to its sinks. */
module AuditStream {
  /**
   * Cursors are moved by compare-and-swap, each in the transaction that stages the range it
   * moved over.
   */

  import opened Common
  import opened AuditEntries
  import opened AuditTable

  const STREAM_BATCH_SIZE: nat := 500

  // ------------------------------------------------- tiling a rising list

  ghost predicate Rising(nums: seq<nat>) {
    forall i, j | 0 <= i < j < |nums| :: nums[i] < nums[j]
  }

  /** The numbers from lo to hi, both included. */
  function Within(nums: seq<nat>, lo: nat, hi: nat): seq<nat> {
    if nums == [] then []
    else
      var n := nums[|nums| - 1];
      var front := Within(nums[..|nums| - 1], lo, hi);
      if lo <= n <= hi then front + [n] else front
  }

  type Range = (nat, nat)

  /** One staged range: the numbers that follow the cursor, as many as a batch takes. */
  ghost predicate Segment(nums: seq<nat>, cursor: nat, from: nat, to: nat) {
    && cursor < from <= to && from in nums && to in nums
    && (forall n | n in nums :: n <= cursor || from <= n)
    && |Within(nums, from, to)| <= STREAM_BATCH_SIZE
  }

  function EndOf(start: nat, ranges: seq<Range>): nat {
    if ranges == [] then start else ranges[|ranges| - 1].1
  }

  /** The ranges leave nothing out between the first cursor and the last. */
  ghost predicate Tiled(nums: seq<nat>, start: nat, ranges: seq<Range>) {
    ranges != [] ==>
      var front, last := ranges[..|ranges| - 1], ranges[|ranges| - 1];
      Tiled(nums, start, front) && Segment(nums, EndOf(start, front), last.0, last.1)
  }

  lemma {:induction false} WithinHolds(nums: seq<nat>, lo: nat, hi: nat, n: nat)
    ensures n in Within(nums, lo, hi) <==> n in nums && lo <= n <= hi
  {
    if nums != [] {
      assert nums == nums[..|nums| - 1] + [nums[|nums| - 1]];
      WithinHolds(nums[..|nums| - 1], lo, hi, n);
    }
  }

  /** Two neighbouring stretches of a rising list join. */
  lemma {:induction false} WithinJoins(nums: seq<nat>, lo: nat, mid: nat, hi: nat)
    requires Rising(nums) && lo <= mid <= hi + 1
    ensures mid > 0 ==> Within(nums, lo, mid - 1) + Within(nums, mid, hi) == Within(nums, lo, hi)
  {
    if nums != [] && mid > 0 {
      var front, n := nums[..|nums| - 1], nums[|nums| - 1];
      WithinJoins(front, lo, mid, hi);
      if n < mid {
        WithinBelow(front, mid, hi);
      }
    }
  }

  lemma {:induction false} WithinBelow(nums: seq<nat>, lo: nat, hi: nat)
    requires forall i | 0 <= i < |nums| :: nums[i] < lo
    ensures Within(nums, lo, hi) == []
  {
    if nums != [] {
      WithinBelow(nums[..|nums| - 1], lo, hi);
    }
  }

  /** Nothing lies between the cursor and the range: starting at either is the same. */
  lemma {:induction false} WithinSkips(nums: seq<nat>, lo: nat, from: nat, hi: nat)
    requires forall i | 0 <= i < |nums| :: nums[i] < lo || from <= nums[i]
    requires lo <= from
    ensures Within(nums, lo, hi) == Within(nums, from, hi)
  {
    if nums != [] {
      WithinSkips(nums[..|nums| - 1], lo, from, hi);
    }
  }

  /** What is appended to a rising list is above everything in it. */
  lemma {:induction false} WithinStays(nums: seq<nat>, grown: seq<nat>, lo: nat, hi: nat)
    requires nums <= grown && Rising(grown) && hi in nums
    ensures Within(grown, lo, hi) == Within(nums, lo, hi)
    decreases |grown|
  {
    if |nums| == |grown| {
      assert nums == grown;
    } else {
      var front := grown[..|grown| - 1];
      assert nums <= front;
      var k :| 0 <= k < |nums| && nums[k] == hi;
      assert grown[k] == hi;
      WithinStays(nums, front, lo, hi);
    }
  }

  lemma {:induction false} SegmentStays(nums: seq<nat>, grown: seq<nat>, cursor: nat, from: nat, to: nat)
    requires nums <= grown && Rising(grown) && Segment(nums, cursor, from, to)
    ensures Segment(grown, cursor, from, to)
  {
    WithinStays(nums, grown, from, to);
    var k :| 0 <= k < |nums| && nums[k] == from;
    forall n | n in grown ensures n <= cursor || from <= n {
      var i :| 0 <= i < |grown| && grown[i] == n;
      if i < |nums| {
        assert nums[i] in nums;
      } else {
        assert grown[k] < grown[i];
      }
    }
  }

  lemma {:induction false} TiledStays(nums: seq<nat>, grown: seq<nat>, start: nat, ranges: seq<Range>)
    requires nums <= grown && Rising(grown) && Tiled(nums, start, ranges)
    ensures Tiled(grown, start, ranges)
    decreases |ranges|
  {
    if ranges != [] {
      var front, last := ranges[..|ranges| - 1], ranges[|ranges| - 1];
      TiledStays(nums, grown, start, front);
      SegmentStays(nums, grown, EndOf(start, front), last.0, last.1);
    }
  }

  lemma {:induction false} TiledSnoc(nums: seq<nat>, start: nat, ranges: seq<Range>, r: Range)
    ensures Tiled(nums, start, ranges + [r])
       <==> Tiled(nums, start, ranges) && Segment(nums, EndOf(start, ranges), r.0, r.1)
  {
    assert (ranges + [r])[..|ranges|] == ranges;
  }

  /** What a list of ranges covers, one after the other. */
  function Covered(nums: seq<nat>, ranges: seq<Range>): seq<nat> {
    if ranges == [] then []
    else
      var last := ranges[|ranges| - 1];
      Covered(nums, ranges[..|ranges| - 1]) + Within(nums, last.0, last.1)
  }

  lemma {:induction false} TiledEnd(nums: seq<nat>, start: nat, ranges: seq<Range>)
    requires Tiled(nums, start, ranges)
    ensures start <= EndOf(start, ranges)
    ensures ranges != [] ==> start < EndOf(start, ranges) && EndOf(start, ranges) in nums
    decreases |ranges|
  {
    if ranges != [] {
      TiledEnd(nums, start, ranges[..|ranges| - 1]);
    }
  }

  /** Tiling is complete and exact: range after range, every number once, in order. */
  lemma {:induction false} TiledCovers(nums: seq<nat>, start: nat, ranges: seq<Range>)
    requires Rising(nums) && Tiled(nums, start, ranges)
    ensures Covered(nums, ranges) == Within(nums, start + 1, EndOf(start, ranges))
    decreases |ranges|
  {
    if ranges == [] {
      WithinEmpty(nums, start + 1, start);
    } else {
      var front, last := ranges[..|ranges| - 1], ranges[|ranges| - 1];
      var mid := EndOf(start, front);
      assert Tiled(nums, start, front) && Segment(nums, mid, last.0, last.1);
      assert Covered(nums, ranges) == Covered(nums, front) + Within(nums, last.0, last.1);
      hide Rising, Within, Tiled, Segment, Covered;
      TiledEnd(nums, start, front);
      TiledCovers(nums, start, front);
      SegmentSkips(nums, mid, last.0, last.1);
      WithinJoins(nums, start + 1, mid + 1, last.1);
    }
  }

  lemma {:induction false} SegmentSkips(nums: seq<nat>, cursor: nat, from: nat, to: nat)
    requires Segment(nums, cursor, from, to)
    ensures cursor < from <= to && Within(nums, cursor + 1, to) == Within(nums, from, to)
  {
    forall i | 0 <= i < |nums| ensures nums[i] < cursor + 1 || from <= nums[i] {
      assert nums[i] in nums;
    }
    WithinSkips(nums, cursor + 1, from, to);
  }

  lemma {:induction false} WithinEmpty(nums: seq<nat>, lo: nat, hi: nat)
    requires hi < lo
    ensures Within(nums, lo, hi) == []
  {
    if nums != [] {
      WithinEmpty(nums[..|nums| - 1], lo, hi);
    }
  }

  /** The ranges come in ascending order and none overlaps another. */
  lemma {:induction false} TiledAscends(nums: seq<nat>, start: nat, ranges: seq<Range>, i: nat, j: nat)
    requires Tiled(nums, start, ranges) && i < j < |ranges|
    ensures start < ranges[i].0 <= ranges[i].1 < ranges[j].0 <= ranges[j].1 <= EndOf(start, ranges)
    decreases |ranges|
  {
    var front := ranges[..|ranges| - 1];
    if j == |ranges| - 1 {
      TiledBounds(nums, start, front, i);
    } else {
      TiledAscends(nums, start, front, i, j);
    }
  }

  lemma {:induction false} TiledBounds(nums: seq<nat>, start: nat, ranges: seq<Range>, i: nat)
    requires Tiled(nums, start, ranges) && i < |ranges|
    ensures start < ranges[i].0 <= ranges[i].1 <= EndOf(start, ranges)
    ensures ranges[i].0 in nums && ranges[i].1 in nums
    ensures |Within(nums, ranges[i].0, ranges[i].1)| <= STREAM_BATCH_SIZE
    decreases |ranges|
  {
    var front := ranges[..|ranges| - 1];
    TiledEnd(nums, start, front);
    if i < |front| {
      TiledBounds(nums, start, front, i);
    }
  }

  predicate InRange(r: Range, n: nat) {
    r.0 <= n <= r.1
  }

  /** Which range holds a number that lies between the cursors. */
  lemma {:induction false} RangeHolding(nums: seq<nat>, start: nat, ranges: seq<Range>, n: nat) returns (i: nat)
    requires Tiled(nums, start, ranges) && n in nums && start < n <= EndOf(start, ranges)
    ensures i < |ranges| && InRange(ranges[i], n)
    decreases |ranges|
  {
    var front := ranges[..|ranges| - 1];
    if n <= EndOf(start, front) {
      i := RangeHolding(nums, start, front, n);
    } else {
      i := |ranges| - 1;
    }
  }

  /** A number of the log is in exactly one range if it lies between the cursors, else in none. */
  ghost predicate StagedOnce(start: nat, cursor: nat, ranges: seq<Range>, n: nat) {
    && (forall i, j | 0 <= i < |ranges| && 0 <= j < |ranges| && InRange(ranges[i], n) && InRange(ranges[j], n) :: i == j)
    && ((exists i | 0 <= i < |ranges| :: InRange(ranges[i], n)) <==> start < n <= cursor)
  }

  lemma {:induction false} TiledStagesOnce(nums: seq<nat>, start: nat, ranges: seq<Range>, n: nat)
    requires Tiled(nums, start, ranges) && n in nums
    ensures StagedOnce(start, EndOf(start, ranges), ranges, n)
  {
    forall i, j | 0 <= i < |ranges| && 0 <= j < |ranges| && InRange(ranges[i], n) && InRange(ranges[j], n)
      ensures i == j
    {
      if i < j {
        TiledAscends(nums, start, ranges, i, j);
      } else if j < i {
        TiledAscends(nums, start, ranges, j, i);
      }
    }
    if i: nat :| i < |ranges| && InRange(ranges[i], n) {
      TiledBounds(nums, start, ranges, i);
    } else if start < n <= EndOf(start, ranges) {
      var i := RangeHolding(nums, start, ranges, n);
    }
  }

  // -------------------------------------------------------------- machine

  /** `start` is the cursor the sink was created with; the program keeps only `cursor`. */
  datatype Sink = Sink(tenantId: Text, keyPrefix: Text, start: nat, cursor: nat, active: bool)

  datatype Message = Message(sinkId: nat, tenantId: Text, from: nat, to: nat)

  /** Where a transaction is inside stageNextBatch. */
  datatype Phase =
    | Began
    | Chosen(from: nat, to: nat)
    | Moved(from: nat, to: nat)

  datatype Streamer = Streamer(sinkId: nat, tenantId: Text, cursor: nat, phase: Phase)

  /** A sink being created: its starting cursor was read, its row not yet written. */
  datatype Creator = Creator(tenantId: Text, start: nat)

  /** `known` holds every sink there has been, by the prefix of its keys. */
  datatype Streams = Streams(
    sinks: map<nat, Sink>,
    known: map<nat, Text>,
    creators: map<nat, Creator>,
    streamers: map<nat, Streamer>,
    outbox: seq<Message>)

  const NO_STREAMS: Streams := Streams(map[], map[], map[], map[], [])

  datatype StreamEvent =
    | ReadStart(c: nat, tenantId: Text, backfill: bool)
    | Create(c: nat, id: nat, keyPrefix: Text, active: bool)
    | SetActive(id: nat, active: bool)
    | Remove(id: nat)
    | BeginBatch(w: nat, id: nat)
    | ReadEntries(w: nat)
    | Swap(w: nat)
    | CommitBatch(w: nat)
    | AbortBatch(w: nat)

  function NumbersOf(rows: Table, tenantId: Text): seq<nat> {
    Numbers(OfTenant(rows, tenantId))
  }

  /** The highest sequence of a tenant, 0 when it has no entry. */
  function MaxSequence(rows: Table): nat {
    if rows == [] then 0
    else
      var front, n := MaxSequence(rows[..|rows| - 1]), rows[|rows| - 1].sequence;
      if n > front then n else front
  }

  function RangesOf(outbox: seq<Message>, id: nat): seq<Range> {
    if outbox == [] then []
    else
      var front, m := RangesOf(outbox[..|outbox| - 1], id), outbox[|outbox| - 1];
      if m.sinkId == id then front + [(m.from, m.to)] else front
  }

  /** A row lock: an uncommitted cursor move keeps every other writer of the sink waiting. */
  ghost predicate Unlocked(s: Streams, id: nat) {
    forall w | w in s.streamers && s.streamers[w].phase.Moved? :: s.streamers[w].sinkId != id
  }

  function AfterReadEntries(rows: Table, s: Streams, w: nat): Streams
    requires w in s.streamers
  {
    var t := s.streamers[w];
    var page := Page(rows, t.tenantId, t.cursor, STREAM_BATCH_SIZE);
    if page == [] then s.(streamers := s.streamers - {w})
    else
      s.(streamers := s.streamers[w := t.(phase := Chosen(page[0].sequence, page[|page| - 1].sequence))])
  }

  function AfterSwap(s: Streams, w: nat): Streams
    requires w in s.streamers && s.streamers[w].phase.Chosen?
  {
    var t := s.streamers[w];
    if t.sinkId in s.sinks && s.sinks[t.sinkId].cursor == t.cursor then
      s.(streamers := s.streamers[w := t.(phase := Moved(t.phase.from, t.phase.to))])
    else
      s.(streamers := s.streamers - {w})
  }

  /** Cursor and outbox row appear together. */
  function AfterCommitBatch(s: Streams, w: nat): Streams
    requires w in s.streamers && s.streamers[w].phase.Moved? && s.streamers[w].sinkId in s.sinks
  {
    var t := s.streamers[w];
    s.(sinks := s.sinks[t.sinkId := s.sinks[t.sinkId].(cursor := t.phase.to)],
       outbox := s.outbox + [Message(t.sinkId, t.tenantId, t.phase.from, t.phase.to)],
       streamers := s.streamers - {w})
  }

  ghost predicate StreamStep(rows: Table, s: Streams, ev: StreamEvent, s': Streams) {
    match ev
    case ReadStart(c, tenantId, backfill) =>
      && c !in s.creators
      && var start := if backfill then 0 else MaxSequence(OfTenant(rows, tenantId));
         s' == s.(creators := s.creators[c := Creator(tenantId, start)])
    case Create(c, id, keyPrefix, active) =>
      && c in s.creators && id !in s.known
      && var sink := Sink(s.creators[c].tenantId, keyPrefix, s.creators[c].start, s.creators[c].start, active);
         s' == s.(sinks := s.sinks[id := sink], known := s.known[id := keyPrefix], creators := s.creators - {c})
    case SetActive(id, active) =>
      && id in s.sinks && Unlocked(s, id)
      && s' == s.(sinks := s.sinks[id := s.sinks[id].(active := active)])
    case Remove(id) =>
      && id in s.sinks && Unlocked(s, id)
      && s' == s.(sinks := s.sinks - {id})
    case BeginBatch(w, id) =>
      && w !in s.streamers && id in s.sinks && s.sinks[id].active
      && var t := Streamer(id, s.sinks[id].tenantId, s.sinks[id].cursor, Began);
         s' == s.(streamers := s.streamers[w := t])
    case ReadEntries(w) =>
      && w in s.streamers && s.streamers[w].phase.Began?
      && s' == AfterReadEntries(rows, s, w)
    case Swap(w) =>
      && w in s.streamers && s.streamers[w].phase.Chosen? && Unlocked(s, s.streamers[w].sinkId)
      && s' == AfterSwap(s, w)
    case CommitBatch(w) =>
      && w in s.streamers && s.streamers[w].phase.Moved? && s.streamers[w].sinkId in s.sinks
      && s' == AfterCommitBatch(s, w)
    case AbortBatch(w) =>
      && w in s.streamers
      && s' == s.(streamers := s.streamers - {w})
  }

  // ------------------------------------------------------------- invariant

  /** Every number of a sink's tenant between its cursors is staged once, in order. */
  ghost predicate SinkOk(rows: Table, s: Streams, id: nat)
    requires id in s.sinks
  {
    var sink, ranges := s.sinks[id], RangesOf(s.outbox, id);
    && id in s.known && s.known[id] == sink.keyPrefix
    && Tiled(NumbersOf(rows, sink.tenantId), sink.start, ranges)
    && sink.cursor == EndOf(sink.start, ranges)
  }

  ghost predicate StreamerOk(rows: Table, s: Streams, t: Streamer) {
    && t.sinkId in s.known
    && (t.sinkId in s.sinks ==> s.sinks[t.sinkId].tenantId == t.tenantId)
    && (!t.phase.Began? ==> Segment(NumbersOf(rows, t.tenantId), t.cursor, t.phase.from, t.phase.to))
    && (t.phase.Moved? ==> t.sinkId in s.sinks && s.sinks[t.sinkId].cursor == t.cursor)
  }

  ghost predicate LocksExclusive(s: Streams) {
    forall v, w | v in s.streamers && w in s.streamers && s.streamers[v].phase.Moved? && s.streamers[w].phase.Moved?
                  && s.streamers[v].sinkId == s.streamers[w].sinkId :: v == w
  }

  /** A staged range stays one of its tenant's log, even once its sink is gone. */
  ghost predicate MessageOk(rows: Table, s: Streams, m: Message) {
    && m.sinkId in s.known
    && (m.sinkId in s.sinks ==> s.sinks[m.sinkId].tenantId == m.tenantId)
    && 0 < m.from <= m.to
    && m.from in NumbersOf(rows, m.tenantId) && m.to in NumbersOf(rows, m.tenantId)
  }

  ghost predicate StreamsOk(rows: Table, s: Streams) {
    && (forall id | id in s.sinks :: SinkOk(rows, s, id))
    && (forall w | w in s.streamers :: StreamerOk(rows, s, s.streamers[w]))
    && LocksExclusive(s)
    && (forall i | 0 <= i < |s.outbox| :: MessageOk(rows, s, s.outbox[i]))
  }

  lemma {:induction false} NoStreamsOk(rows: Table)
    ensures StreamsOk(rows, NO_STREAMS)
  {
  }

  lemma {:induction false} NumbersRise(rows: Table, tenantId: Text)
    requires VisibleInOrder(rows)
    ensures Rising(NumbersOf(rows, tenantId))
  {
    OfTenantAscending(rows, tenantId);
  }

  /** Appends and redactions, whoever makes them, disturb no streamer and no sink. */
  lemma {:induction false} StreamsStay(H: Hashing, a: Table, b: Table, s: Streams)
    requires Evolves(H, a, b) && StreamsOk(a, s)
    ensures StreamsOk(b, s)
  {
    hide Tiled, Segment, VisibleInOrder, RowsStay, NumbersOf, Rising;
    forall id | id in s.sinks ensures SinkOk(b, s, id) {
      assert SinkOk(a, s, id);
      var tenantId := s.sinks[id].tenantId;
      LogGrows(H, a, b, tenantId);
      TiledStays(NumbersOf(a, tenantId), NumbersOf(b, tenantId), s.sinks[id].start, RangesOf(s.outbox, id));
    }
    forall w | w in s.streamers ensures StreamerOk(b, s, s.streamers[w]) {
      var t := s.streamers[w];
      assert StreamerOk(a, s, t);
      LogGrows(H, a, b, t.tenantId);
      if !t.phase.Began? {
        SegmentStays(NumbersOf(a, t.tenantId), NumbersOf(b, t.tenantId), t.cursor, t.phase.from, t.phase.to);
      }
    }
    forall i | 0 <= i < |s.outbox| ensures MessageOk(b, s, s.outbox[i]) {
      assert MessageOk(a, s, s.outbox[i]);
      LogGrows(H, a, b, s.outbox[i].tenantId);
    }
  }

  lemma {:induction false} LogGrows(H: Hashing, a: Table, b: Table, tenantId: Text)
    requires Evolves(H, a, b)
    ensures NumbersOf(a, tenantId) <= NumbersOf(b, tenantId) && Rising(NumbersOf(b, tenantId))
  {
    NumbersGrow(H, a, b, tenantId);
    NumbersRise(b, tenantId);
  }

  lemma {:induction false} RangesSnoc(outbox: seq<Message>, m: Message, id: nat)
    ensures RangesOf(outbox + [m], id)
         == (if m.sinkId == id then RangesOf(outbox, id) + [(m.from, m.to)] else RangesOf(outbox, id))
  {
    assert (outbox + [m])[..|outbox|] == outbox;
  }

  /** The messages a sink was sent, and where its ranges came from. */
  lemma {:induction false} RangeOfMessage(outbox: seq<Message>, id: nat, r: Range)
    ensures r in RangesOf(outbox, id) <==> exists i :: IsMessage(outbox, i, id, r)
  {
    if outbox != [] {
      var front, n := outbox[..|outbox| - 1], |outbox| - 1;
      RangeOfMessage(front, id, r);
      if i :| IsMessage(front, i, id, r) {
        assert IsMessage(outbox, i, id, r);
      }
      if i :| IsMessage(outbox, i, id, r) {
        assert i < n ==> IsMessage(front, i, id, r);
      }
      assert outbox[n].sinkId == id && (outbox[n].from, outbox[n].to) == r ==> IsMessage(outbox, n, id, r);
    }
  }

  ghost predicate IsMessage(outbox: seq<Message>, i: int, id: nat, r: Range) {
    0 <= i < |outbox| && outbox[i].sinkId == id && (outbox[i].from, outbox[i].to) == r
  }

  /** A sink that was never known has nothing staged. */
  lemma {:induction false} UnknownHasNoRanges(s: Streams, outbox: seq<Message>, id: nat)
    requires forall i | 0 <= i < |outbox| :: outbox[i].sinkId in s.known
    requires id !in s.known
    ensures RangesOf(outbox, id) == []
  {
    if outbox != [] {
      UnknownHasNoRanges(s, outbox[..|outbox| - 1], id);
    }
  }

  // ------------------------------------------------------------- each step

  lemma {:induction false} SplitAt(rows: Table, after: nat) returns (k: nat)
    requires Ascending(rows)
    ensures Passed(rows, after, k)
  {
    if rows == [] {
      k := 0;
    } else {
      k := SplitAt(rows[..|rows| - 1], after);
      if rows[|rows| - 1].sequence <= after {
        k := |rows|;
      }
    }
  }

  lemma {:induction false} PageOfAscending(rows: Table, after: nat, take: nat) returns (k: nat)
    requires Ascending(rows)
    ensures Passed(rows, after, k) && PageOf(rows, after, take) == Take(rows[k..], take)
  {
    k := SplitAt(rows, after);
    AboveOfAscending(rows, after, k);
    BySequenceOfAscending(rows[k..]);
  }

  lemma {:induction false} NumbersWithin(rows: Table, k: nat, n: nat)
    requires Ascending(rows) && 0 < n && k + n <= |rows|
    ensures |Within(Numbers(rows), rows[k].sequence, rows[k + n - 1].sequence)| <= n
    decreases |rows|
  {
    var front, last := rows[..|rows| - 1], rows[|rows| - 1];
    var nums := Numbers(rows);
    assert nums[..|nums| - 1] == Numbers(front);
    var lo, hi := rows[k].sequence, rows[k + n - 1].sequence;
    if k + n < |rows| {
      NumbersWithin(front, k, n);
    } else if n == 1 {
      WithinBelow(Numbers(front), lo, hi);
    } else {
      NumbersWithin(front, k, n - 1);
      WithinCaps(Numbers(front), lo, front[k + n - 2].sequence, hi);
    }
  }

  /** Above the highest number the bound no longer matters. */
  lemma {:induction false} WithinCaps(nums: seq<nat>, lo: nat, top: nat, hi: nat)
    requires top <= hi && forall i | 0 <= i < |nums| :: nums[i] <= top
    ensures Within(nums, lo, hi) == Within(nums, lo, top)
  {
    if nums != [] {
      WithinCaps(nums[..|nums| - 1], lo, top, hi);
    }
  }

  /** The page read above the cursor is a segment of the log. */
  lemma {:induction false} PageIsSegment(rows: Table, cursor: nat)
    requires Ascending(rows)
    ensures var page := PageOf(rows, cursor, STREAM_BATCH_SIZE);
            page != [] ==> Segment(Numbers(rows), cursor, page[0].sequence, page[|page| - 1].sequence)
  {
    var k := PageOfAscending(rows, cursor, STREAM_BATCH_SIZE);
    var page := PageOf(rows, cursor, STREAM_BATCH_SIZE);
    if page != [] {
      NumbersWithin(rows, k, |page|);
      assert page[0] == rows[k] && page[|page| - 1] == rows[k + |page| - 1];
      assert Numbers(rows)[k] in Numbers(rows) && Numbers(rows)[k + |page| - 1] in Numbers(rows);
    }
  }

  /** One streamer moves or ends, and takes or gives up no lock. */
  lemma {:induction false} StreamerMoves(rows: Table, s: Streams, w: nat, s': Streams)
    requires StreamsOk(rows, s) && w in s.streamers
    requires s' == s.(streamers := s'.streamers)
    requires s'.streamers == s.streamers - {w} || (w in s'.streamers && s'.streamers == s.streamers[w := s'.streamers[w]])
    requires w in s'.streamers ==> StreamerOk(rows, s, s'.streamers[w])
    requires w in s'.streamers && s'.streamers[w].phase.Moved? ==> Unlocked(s, s'.streamers[w].sinkId)
    ensures StreamsOk(rows, s')
  {
    hide Tiled, Segment, NumbersOf, RangesOf;
    forall id | id in s'.sinks ensures SinkOk(rows, s', id) {
      assert SinkOk(rows, s, id);
    }
    forall v | v in s'.streamers ensures StreamerOk(rows, s', s'.streamers[v]) {
      if v != w {
        assert StreamerOk(rows, s, s.streamers[v]);
      }
    }
    forall i | 0 <= i < |s'.outbox| ensures MessageOk(rows, s', s'.outbox[i]) {
      assert MessageOk(rows, s, s.outbox[i]);
    }
  }

  lemma {:induction false} ReadEntriesKeepsOk(rows: Table, s: Streams, w: nat, s': Streams)
    requires VisibleInOrder(rows) && StreamsOk(rows, s) && StreamStep(rows, s, ReadEntries(w), s')
    ensures StreamsOk(rows, s')
  {
    var t := s.streamers[w];
    OfTenantAscending(rows, t.tenantId);
    PageIsSegment(OfTenant(rows, t.tenantId), t.cursor);
    hide Tiled, Segment, VisibleInOrder, PageOf, Numbers, OfTenant, Ascending, RangesOf;
    assert StreamerOk(rows, s, t);
    assert AfterReadEntries(rows, s, w) == s';
    StreamerMoves(rows, s, w, s');
  }

  /**
   * The compare-and-swap. A batch goes on exactly if its sink still has the cursor it read,
   * and then holds the sink alone; a lost one is over, nothing moved and nothing staged.
   */
  lemma {:induction false} SwapKeepsOk(rows: Table, s: Streams, w: nat, s': Streams)
    requires StreamsOk(rows, s) && StreamStep(rows, s, Swap(w), s')
    ensures StreamsOk(rows, s') && s'.sinks == s.sinks && s'.outbox == s.outbox
    ensures w in s'.streamers <==>
              s.streamers[w].sinkId in s.sinks && s.sinks[s.streamers[w].sinkId].cursor == s.streamers[w].cursor
    ensures w in s'.streamers ==>
              forall v | v in s'.streamers && v != w && s'.streamers[v].phase.Moved? ::
                s'.streamers[v].sinkId != s'.streamers[w].sinkId
  {
    hide Tiled, Segment, NumbersOf, RangesOf;
    assert StreamerOk(rows, s, s.streamers[w]);
    StreamerMoves(rows, s, w, s');
  }

  lemma {:induction false} CommitSinkOk(rows: Table, s: Streams, w: nat, s': Streams, id: nat)
    requires StreamsOk(rows, s) && StreamStep(rows, s, CommitBatch(w), s') && id in s'.sinks
    ensures SinkOk(rows, s', id)
  {
    hide Tiled, Segment, NumbersOf, RangesOf;
    var t := s.streamers[w];
    var m := Message(t.sinkId, t.tenantId, t.phase.from, t.phase.to);
    assert StreamerOk(rows, s, t) && SinkOk(rows, s, id);
    RangesSnoc(s.outbox, m, id);
    if id == t.sinkId {
      TiledSnoc(NumbersOf(rows, t.tenantId), s.sinks[id].start, RangesOf(s.outbox, id), (m.from, m.to));
    }
  }

  lemma {:induction false} CommitBatchKeepsOk(rows: Table, s: Streams, w: nat, s': Streams)
    requires StreamsOk(rows, s) && StreamStep(rows, s, CommitBatch(w), s')
    ensures StreamsOk(rows, s')
  {
    hide Tiled, Segment, NumbersOf, RangesOf, SinkOk;
    var t := s.streamers[w];
    assert StreamerOk(rows, s, t);
    forall id | id in s'.sinks ensures SinkOk(rows, s', id) {
      CommitSinkOk(rows, s, w, s', id);
    }
    forall v | v in s'.streamers ensures StreamerOk(rows, s', s'.streamers[v]) {
      assert StreamerOk(rows, s, s.streamers[v]);
    }
    forall i | 0 <= i < |s'.outbox| ensures MessageOk(rows, s', s'.outbox[i]) {
      if i < |s.outbox| {
        assert MessageOk(rows, s, s.outbox[i]);
      } else {
        SegmentBounds(NumbersOf(rows, t.tenantId), t.cursor, t.phase.from, t.phase.to);
      }
    }
  }

  lemma {:induction false} SegmentBounds(nums: seq<nat>, cursor: nat, from: nat, to: nat)
    requires Segment(nums, cursor, from, to)
    ensures 0 < from <= to && from in nums && to in nums
  {
  }

  lemma {:induction false} CreateKeepsOk(rows: Table, s: Streams, ev: StreamEvent, s': Streams)
    requires StreamsOk(rows, s) && StreamStep(rows, s, ev, s') && ev.Create?
    ensures StreamsOk(rows, s')
  {
    hide Segment, NumbersOf, RangesOf;
    forall i | 0 <= i < |s.outbox| ensures s.outbox[i].sinkId in s.known {
      assert MessageOk(rows, s, s.outbox[i]);
    }
    UnknownHasNoRanges(s, s.outbox, ev.id);
    forall id | id in s'.sinks ensures SinkOk(rows, s', id) {
      assert id in s.sinks ==> SinkOk(rows, s, id);
    }
    forall v | v in s'.streamers ensures StreamerOk(rows, s', s'.streamers[v]) {
      assert StreamerOk(rows, s, s.streamers[v]);
    }
    forall i | 0 <= i < |s'.outbox| ensures MessageOk(rows, s', s'.outbox[i]) {
      assert MessageOk(rows, s, s.outbox[i]);
    }
  }

  /** The steps that move no cursor and stage nothing. */
  lemma {:induction false} OtherStepKeepsOk(rows: Table, s: Streams, ev: StreamEvent, s': Streams)
    requires StreamsOk(rows, s) && StreamStep(rows, s, ev, s')
    requires ev.ReadStart? || ev.SetActive? || ev.Remove? || ev.BeginBatch? || ev.AbortBatch?
    ensures StreamsOk(rows, s')
  {
    hide Tiled, Segment, NumbersOf, RangesOf;
    forall id | id in s'.sinks ensures SinkOk(rows, s', id) {
      assert SinkOk(rows, s, id);
    }
    forall v | v in s'.streamers ensures StreamerOk(rows, s', s'.streamers[v]) {
      assert v in s.streamers ==> StreamerOk(rows, s, s.streamers[v]);
      assert ev.BeginBatch? ==> SinkOk(rows, s, ev.id);
    }
    forall i | 0 <= i < |s'.outbox| ensures MessageOk(rows, s', s'.outbox[i]) {
      assert MessageOk(rows, s, s.outbox[i]);
    }
  }

  lemma {:induction false} StreamStepKeepsOk(rows: Table, s: Streams, ev: StreamEvent, s': Streams)
    requires VisibleInOrder(rows) && StreamsOk(rows, s) && StreamStep(rows, s, ev, s')
    ensures StreamsOk(rows, s')
  {
    hide StreamsOk, StreamStep, VisibleInOrder;
    match ev
    case ReadEntries(w) => ReadEntriesKeepsOk(rows, s, w, s');
    case Swap(w) => SwapKeepsOk(rows, s, w, s');
    case CommitBatch(w) => CommitBatchKeepsOk(rows, s, w, s');
    case Create(c, id, keyPrefix, active) => CreateKeepsOk(rows, s, ev, s');
    case _ => OtherStepKeepsOk(rows, s, ev, s');
  }

  // -------------------------------------------------------------- results

  /** A sink created without backfill starts between what was visible and what came later. */
  lemma {:induction false} StartSplits(H: Hashing, a: Table, b: Table, tenantId: Text)
    requires Evolves(H, a, b) && forall i | 0 <= i < |b| :: b[i].sequence > 0
    ensures var start, seen, nums := MaxSequence(OfTenant(a, tenantId)), NumbersOf(a, tenantId), NumbersOf(b, tenantId);
            |seen| <= |nums| && forall i | 0 <= i < |nums| :: nums[i] > start <==> i >= |seen|
  {
    hide RowsStay, VisibleInOrder;
    var mine := OfTenant(a, tenantId);
    var start, seen, nums := MaxSequence(mine), NumbersOf(a, tenantId), NumbersOf(b, tenantId);
    LogGrows(H, a, b, tenantId);
    MaxIsHighest(mine);
    forall i | 0 <= i < |nums| ensures nums[i] > start <==> i >= |seen| {
      if i < |seen| {
        assert nums[i] == seen[i] == mine[i].sequence;
      } else if seen == [] {
        OfTenantHolds(b, tenantId, OfTenant(b, tenantId)[i]);
      } else {
        var k :| 0 <= k < |mine| && mine[k].sequence == start;
        assert nums[k] == seen[k] == start;
      }
    }
  }

  lemma {:induction false} MaxIsHighest(rows: Table)
    ensures forall i | 0 <= i < |rows| :: rows[i].sequence <= MaxSequence(rows)
    ensures rows == [] ==> MaxSequence(rows) == 0
    ensures rows != [] ==> exists i :: 0 <= i < |rows| && rows[i].sequence == MaxSequence(rows)
  {
    if rows != [] {
      MaxIsHighest(rows[..|rows| - 1]);
      if MaxSequence(rows) == rows[|rows| - 1].sequence {
        assert rows[|rows| - 1].sequence == MaxSequence(rows);
      } else {
        var i :| 0 <= i < |rows| - 1 && rows[..|rows| - 1][i].sequence == MaxSequence(rows);
        assert rows[i].sequence == MaxSequence(rows);
      }
    }
  }

  /**
   * What a sink was handed: each entry of its tenant past the starting cursor and up to
   * the current one lies in exactly one staged range, no other entry lies in any, and the
   * ranges, end to end, are those entries in order.
   */
  ghost predicate ExactlyOnce(nums: seq<nat>, start: nat, cursor: nat, ranges: seq<Range>) {
    && (forall n | n in nums :: StagedOnce(start, cursor, ranges, n))
    && (forall i, j | 0 <= i < j < |ranges| :: ranges[i].1 < ranges[j].0)
    && (forall i | 0 <= i < |ranges| :: 1 <= |Within(nums, ranges[i].0, ranges[i].1)| <= STREAM_BATCH_SIZE)
    && Covered(nums, ranges) == Within(nums, start + 1, cursor)
  }

  lemma {:induction false} TiledIsExactlyOnce(nums: seq<nat>, start: nat, ranges: seq<Range>)
    requires Rising(nums) && Tiled(nums, start, ranges)
    ensures ExactlyOnce(nums, start, EndOf(start, ranges), ranges)
  {
    hide Tiled, Within, Rising;
    forall n | n in nums ensures StagedOnce(start, EndOf(start, ranges), ranges, n) {
      TiledStagesOnce(nums, start, ranges, n);
    }
    forall i, j | 0 <= i < j < |ranges| ensures ranges[i].1 < ranges[j].0 {
      TiledAscends(nums, start, ranges, i, j);
    }
    forall i | 0 <= i < |ranges| ensures 1 <= |Within(nums, ranges[i].0, ranges[i].1)| <= STREAM_BATCH_SIZE {
      TiledBounds(nums, start, ranges, i);
      WithinHolds(nums, ranges[i].0, ranges[i].1, ranges[i].0);
    }
    TiledCovers(nums, start, ranges);
  }

  lemma {:induction false} SinkExactlyOnce(rows: Table, s: Streams, id: nat)
    requires VisibleInOrder(rows) && StreamsOk(rows, s) && id in s.sinks
    ensures ExactlyOnce(NumbersOf(rows, s.sinks[id].tenantId), s.sinks[id].start, s.sinks[id].cursor,
                        RangesOf(s.outbox, id))
    ensures var ranges := RangesOf(s.outbox, id);
            forall i | 0 <= i < |ranges| ::
              1 <= |Within(NumbersOf(rows, s.sinks[id].tenantId), ranges[i].0, ranges[i].1)| <= 500
  {
    hide Tiled, VisibleInOrder, NumbersOf, StagedOnce, Covered, Within;
    var tenantId := s.sinks[id].tenantId;
    assert SinkOk(rows, s, id);
    NumbersRise(rows, tenantId);
    TiledIsExactlyOnce(NumbersOf(rows, tenantId), s.sinks[id].start, RangesOf(s.outbox, id));
  }

  /** While a sink is inactive and no batch of it under way, none begins and nothing is staged. */
  lemma {:induction false} InactiveStagesNothing(rows: Table, s: Streams, ev: StreamEvent, s': Streams, id: nat)
    requires StreamStep(rows, s, ev, s') && ev != SetActive(id, true)
    requires id in s.sinks && id in s.known && !s.sinks[id].active && NoneUnderWay(s, id)
    ensures NoneUnderWay(s', id) && RangesOf(s'.outbox, id) == RangesOf(s.outbox, id)
    ensures id in s'.sinks ==> !s'.sinks[id].active && s'.sinks[id].cursor == s.sinks[id].cursor
  {
    if ev.CommitBatch? {
      var t := s.streamers[ev.w];
      RangesSnoc(s.outbox, Message(t.sinkId, t.tenantId, t.phase.from, t.phase.to), id);
    }
    hide RangesOf, PageOf;
  }

  ghost predicate NoneUnderWay(s: Streams, id: nat) {
    forall w | w in s.streamers :: s.streamers[w].sinkId != id
  }
}
