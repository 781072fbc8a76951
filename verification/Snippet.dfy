/** Concurrent callers. */
module Snippet {
  /** Record versions, and a status that moves along declared edges. */

  import opened Common

  datatype Status = Draft | Published | Archived

  datatype Move = Publish | Archive | Reopen

  datatype Row = Row(title: Text, summary: Option<Text>, status: Status, version: nat, deletedAt: Option<int>)

  /** Fields a write sets; a summary can be set to nothing by a revert. */
  datatype Patch = Patch(title: Option<Text>, summary: Option<Option<Text>>)

  /** SNIPPET_TRANSITION_RULES */
  predicate LeavesFrom(m: Move, status: Status) {
    match m
    case Publish => status == Draft
    case Archive => status == Draft || status == Published
    case Reopen => status == Archived
  }

  function To(m: Move): Status {
    match m
    case Publish => Published
    case Archive => Archived
    case Reopen => Draft
  }

  predicate IsBlank(summary: Option<Text>) {
    summary.None? || Trim(summary.value) == []
  }

  predicate GuardHolds(m: Move, row: Row) {
    m.Publish? ==> !IsBlank(row.summary)
  }

  /** assertTransitionAllowed, on the record the caller holds. */
  predicate Allowed(m: Move, row: Row) {
    LeavesFrom(m, row.status) && GuardHolds(m, row)
  }

  function Patched(row: Row, patch: Patch): Row {
    row.(title := if patch.title.Some? then patch.title.value else row.title,
         summary := if patch.summary.Some? then patch.summary.value else row.summary,
         version := row.version + 1)
  }

  // ----------------------------------------------------------- the machine

  /** A record as some caller loaded it, perhaps long ago. */
  datatype Held = Held(id: nat, row: Row)

  /** A transition's transaction between its update and its commit: the row is locked. */
  datatype Moving = Moving(id: nat, move: Move, from: Status)

  /** The record a transition leaves in the audit log and the outbox. */
  datatype Moved = Moved(id: nat, move: Move, from: Status, to: Status)

  datatype Desk = Desk(
    rows: map<nat, Row>,
    known: set<nat>,
    held: map<nat, Held>,
    moving: map<nat, Moving>,
    log: seq<Moved>)

  const EMPTY: Desk := Desk(map[], {}, map[], map[], [])

  datatype Event =
    | Create(id: nat, title: Text, summary: Option<Text>)
    | Load(c: nat, id: nat)
    | Update(c: nat, patch: Patch, expected: nat)
    | BeginMove(c: nat, move: Move)
    | CommitMove(c: nat)
    | AbortMove(c: nat)
    | SoftDelete(c: nat, at: int)
    | Restore(c: nat, patch: Patch)
    | Remove(c: nat)

  predicate Locked(d: Desk, id: nat) {
    exists c | c in d.moving :: d.moving[c].id == id
  }

  /** A caller's statement finds its row, and no transition holds it. */
  predicate Reaches(d: Desk, c: nat) {
    c in d.held && d.held[c].id in d.rows && !Locked(d, d.held[c].id)
  }

  /** update: the version is checked against the held record, then again by the statement. */
  predicate UpdateLands(d: Desk, c: nat, expected: nat) {
    && Reaches(d, c)
    && expected == d.held[c].row.version
    && d.rows[d.held[c].id].version == expected
  }

  /** transition: legality on the held record, then the status again by the statement. */
  predicate MoveLands(d: Desk, c: nat, m: Move) {
    && Reaches(d, c) && c !in d.moving
    && Allowed(m, d.held[c].row)
    && d.rows[d.held[c].id].status == d.held[c].row.status
  }

  function WithRow(d: Desk, id: nat, row: Row): Desk {
    d.(rows := d.rows[id := row])
  }

  /** One atomic step; a refused, failed or waiting one changes nothing. */
  function After(d: Desk, ev: Event): Desk {
    match ev
    case Create(id, title, summary) =>
      if id in d.known then d
      else d.(rows := d.rows[id := Row(title, summary, Draft, 1, None)], known := d.known + {id})
    case Load(c, id) =>
      if id in d.rows && c !in d.moving then d.(held := d.held[c := Held(id, d.rows[id])]) else d
    case Update(c, patch, expected) =>
      if UpdateLands(d, c, expected) then
        WithRow(d, d.held[c].id, Patched(d.rows[d.held[c].id], patch))
      else d
    case BeginMove(c, m) =>
      if MoveLands(d, c, m) then
        d.(moving := d.moving[c := Moving(d.held[c].id, m, d.held[c].row.status)])
      else d
    case CommitMove(c) =>
      if c in d.moving && d.moving[c].id in d.rows then
        var t := d.moving[c];
        var row := d.rows[t.id];
        WithRow(d, t.id, row.(status := To(t.move), version := row.version + 1))
          .(moving := d.moving - {c}, log := d.log + [Moved(t.id, t.move, t.from, To(t.move))])
      else d
    case AbortMove(c) => d.(moving := d.moving - {c})
    case SoftDelete(c, at) =>
      if Reaches(d, c) then
        var row := d.rows[d.held[c].id];
        WithRow(d, d.held[c].id, row.(deletedAt := Some(at), version := row.version + 1))
      else d
    case Restore(c, patch) =>
      if Reaches(d, c) then
        WithRow(d, d.held[c].id, Patched(d.rows[d.held[c].id], patch).(deletedAt := None))
      else d
    case Remove(c) =>
      if Reaches(d, c) then d.(rows := d.rows - {d.held[c].id}) else d
  }

  function RunOf(events: seq<Event>): Desk {
    if events == [] then EMPTY else After(RunOf(events[..|events| - 1]), events[|events| - 1])
  }

  // ------------------------------------------------------------- invariant

  /** Where a snippet's recorded transitions lead, from draft. */
  function EndOf(log: seq<Moved>, id: nat): Status {
    if log == [] then Draft
    else if log[|log| - 1].id == id then log[|log| - 1].to
    else EndOf(log[..|log| - 1], id)
  }

  /** Every record starts where its snippet's last one ended, and follows an edge. */
  ghost predicate Walks(log: seq<Moved>) {
    log != [] ==>
      var front, m := log[..|log| - 1], log[|log| - 1];
      Walks(front) && m.from == EndOf(front, m.id) && LeavesFrom(m.move, m.from) && m.to == To(m.move)
  }

  ghost predicate HeldOk(d: Desk, h: Held) {
    && h.id in d.known
    && (h.id in d.rows ==> h.row.version <= d.rows[h.id].version)
    && (h.id in d.rows && h.row.version == d.rows[h.id].version ==> h.row == d.rows[h.id])
  }

  ghost predicate MovingOk(d: Desk, t: Moving) {
    t.id in d.rows && d.rows[t.id].status == t.from && LeavesFrom(t.move, t.from)
  }

  ghost predicate DeskOk(d: Desk) {
    && d.rows.Keys <= d.known
    && Walks(d.log)
    && (forall i | 0 <= i < |d.log| :: d.log[i].id in d.known)
    && (forall id | id in d.rows :: d.rows[id].version >= 1 && d.rows[id].status == EndOf(d.log, id))
    && (forall c | c in d.held :: HeldOk(d, d.held[c]))
    && (forall c | c in d.moving :: MovingOk(d, d.moving[c]))
    && (forall b, c | b in d.moving && c in d.moving && d.moving[b].id == d.moving[c].id :: b == c)
  }

  lemma {:induction false} UnknownIsDraft(log: seq<Moved>, id: nat)
    requires forall i | 0 <= i < |log| :: log[i].id != id
    ensures EndOf(log, id) == Draft
  {
    if log != [] {
      UnknownIsDraft(log[..|log| - 1], id);
    }
  }

  /** A write that leaves the status alone and counts one version on. */
  lemma {:induction false} WriteKeepsOk(d: Desk, id: nat, row: Row)
    requires DeskOk(d) && id in d.rows && !Locked(d, id)
    requires row.version == d.rows[id].version + 1 && row.status == d.rows[id].status
    ensures DeskOk(WithRow(d, id, row))
  {
    hide Walks, EndOf;
    var after := WithRow(d, id, row);
    forall c | c in after.held ensures HeldOk(after, after.held[c]) {
      assert HeldOk(d, d.held[c]);
    }
    forall c | c in after.moving ensures MovingOk(after, after.moving[c]) {
      assert MovingOk(d, d.moving[c]);
    }
  }

  /** A record of a move along an edge, from where its snippet's records ended. */
  lemma {:induction false} RecordKeepsWalk(log: seq<Moved>, m: Moved)
    requires Walks(log) && m.from == EndOf(log, m.id) && LeavesFrom(m.move, m.from) && m.to == To(m.move)
    ensures Walks(log + [m])
  {
    assert (log + [m])[..|log|] == log;
  }

  lemma {:induction false} EndAfterRecord(log: seq<Moved>, m: Moved, id: nat)
    ensures EndOf(log + [m], id) == if id == m.id then m.to else EndOf(log, id)
  {
    assert (log + [m])[..|log|] == log;
  }

  lemma {:induction false} CommitKeepsOk(d: Desk, c: nat)
    requires DeskOk(d) && c in d.moving && d.moving[c].id in d.rows
    ensures DeskOk(After(d, CommitMove(c)))
  {
    hide Walks, EndOf;
    var t, after := d.moving[c], After(d, CommitMove(c));
    var m := Moved(t.id, t.move, t.from, To(t.move));
    assert MovingOk(d, t);
    RecordKeepsWalk(d.log, m);
    forall id | id in after.rows
      ensures after.rows[id].version >= 1 && after.rows[id].status == EndOf(after.log, id)
    {
      EndAfterRecord(d.log, m, id);
    }
    forall b | b in after.held ensures HeldOk(after, after.held[b]) {
      assert HeldOk(d, d.held[b]);
    }
    forall b | b in after.moving ensures MovingOk(after, after.moving[b]) {
      assert MovingOk(d, d.moving[b]);
    }
  }

  lemma {:induction false} CreateKeepsOk(d: Desk, id: nat, title: Text, summary: Option<Text>)
    requires DeskOk(d)
    ensures DeskOk(After(d, Create(id, title, summary)))
  {
    var after := After(d, Create(id, title, summary));
    if id !in d.known {
      UnknownIsDraft(d.log, id);
      hide Walks, EndOf;
      forall c | c in after.held ensures HeldOk(after, after.held[c]) {
        assert HeldOk(d, d.held[c]);
      }
      forall c | c in after.moving ensures MovingOk(after, after.moving[c]) {
        assert MovingOk(d, d.moving[c]);
      }
    }
  }

  /** The steps that write no row: a load, a transition's start or end without commit, a removal. */
  lemma {:induction false} OtherKeepsOk(d: Desk, ev: Event)
    requires DeskOk(d) && (ev.Load? || ev.BeginMove? || ev.AbortMove? || ev.Remove?)
    ensures DeskOk(After(d, ev))
  {
    hide Walks, EndOf, GuardHolds;
    var after := After(d, ev);
    forall c | c in after.held ensures HeldOk(after, after.held[c]) {
      assert c in d.held ==> HeldOk(d, d.held[c]);
    }
    forall c | c in after.moving ensures MovingOk(after, after.moving[c]) {
      assert c in d.moving ==> MovingOk(d, d.moving[c]);
    }
  }

  lemma {:induction false} StepKeepsOk(d: Desk, ev: Event)
    requires DeskOk(d)
    ensures DeskOk(After(d, ev))
  {
    hide DeskOk;
    match ev
    case Create(id, title, summary) => CreateKeepsOk(d, id, title, summary);
    case Update(c, patch, expected) =>
      if UpdateLands(d, c, expected) {
        WriteKeepsOk(d, d.held[c].id, Patched(d.rows[d.held[c].id], patch));
      }
    case CommitMove(c) =>
      if c in d.moving && d.moving[c].id in d.rows {
        CommitKeepsOk(d, c);
      }
    case SoftDelete(c, at) =>
      if Reaches(d, c) {
        var row := d.rows[d.held[c].id];
        WriteKeepsOk(d, d.held[c].id, row.(deletedAt := Some(at), version := row.version + 1));
      }
    case Restore(c, patch) =>
      if Reaches(d, c) {
        WriteKeepsOk(d, d.held[c].id, Patched(d.rows[d.held[c].id], patch).(deletedAt := None));
      }
    case _ => OtherKeepsOk(d, ev);
  }

  // --------------------------------------------------------------- results

  /** Statuses walk the declared edges from draft, in every run of any number of callers. */
  lemma {:induction false} EveryRunIsOk(events: seq<Event>)
    ensures DeskOk(RunOf(events))
  {
    hide DeskOk, After;
    if events == [] {
      EmptyIsOk();
    } else {
      EveryRunIsOk(events[..|events| - 1]);
      StepKeepsOk(RunOf(events[..|events| - 1]), events[|events| - 1]);
    }
  }

  lemma {:induction false} EmptyIsOk()
    ensures DeskOk(EMPTY)
  {
  }

  /**
   * Statuses and transition records move together: a step leaves both alone, or adds one
   * record and changes the one status it names, from its `from` to its `to`.
   */
  lemma {:induction false} OneRecordPerStatusChange(events: seq<Event>, ev: Event)
    ensures var d, after := RunOf(events), RunOf(events + [ev]);
            || (after.log == d.log && forall id | id in d.rows && id in after.rows :: after.rows[id].status == d.rows[id].status)
            || (exists m :: RecordedMove(d, after, m))
    ensures var d, after := RunOf(events), RunOf(events + [ev]);
            forall id | id in after.rows && id !in d.rows :: after.rows[id].status == Draft && after.rows[id].version == 1
  {
    var d := RunOf(events);
    assert (events + [ev])[..|events|] == events;
    EveryRunIsOk(events);
    if ev.CommitMove? && ev.c in d.moving {
      var t := d.moving[ev.c];
      assert MovingOk(d, t);
      assert RecordedMove(d, After(d, ev), Moved(t.id, t.move, t.from, To(t.move)));
    }
  }

  ghost predicate RecordedMove(d: Desk, after: Desk, m: Moved) {
    && after.log == d.log + [m] && after.rows.Keys == d.rows.Keys && m.id in d.rows
    && LeavesFrom(m.move, m.from) && m.to == To(m.move)
    && d.rows[m.id].status == m.from && after.rows[m.id].status == m.to
    && forall id | id in d.rows && id != m.id :: after.rows[id] == d.rows[id]
  }

  /** While a row lives, a step leaves it exactly as it is or counts its version one up. */
  lemma {:induction false} VersionRisesByOne(d: Desk, ev: Event, id: nat)
    requires id in d.rows && id in After(d, ev).rows && id in d.known
    ensures var row, now := d.rows[id], After(d, ev).rows[id];
            now == row || now.version == row.version + 1
  {
  }

  /**
   * No update, nor a revert, silently overwrites another: when one lands, the row still is
   * what the caller read, whatever other callers did since it was loaded.
   */
  lemma {:induction false} UpdateSeesWhatItOverwrites(events: seq<Event>, c: nat, patch: Patch, expected: nat)
    requires UpdateLands(RunOf(events), c, expected)
    ensures var d := RunOf(events);
            && d.held[c].id in d.rows && d.rows[d.held[c].id] == d.held[c].row
            && d.held[c].row.version == expected
            && After(d, Update(c, patch, expected)).rows == d.rows[d.held[c].id := Patched(d.held[c].row, patch)]
  {
    var d := RunOf(events);
    EveryRunIsOk(events);
    assert HeldOk(d, d.held[c]);
  }

  /** A write without a version check overwrites nothing unseen exactly when versions agree. */
  lemma {:induction false} SeenExactlyAtSameVersion(events: seq<Event>, c: nat)
    requires Reaches(RunOf(events), c)
    ensures var d := RunOf(events);
            d.rows[d.held[c].id] == d.held[c].row <==> d.rows[d.held[c].id].version == d.held[c].row.version
  {
    var d := RunOf(events);
    EveryRunIsOk(events);
    assert HeldOk(d, d.held[c]);
  }

  const SAMPLE: Patch := Patch(Some([65]), None)
  const OTHER: Patch := Patch(Some([66]), None)

  /** restore has no such check: here it wipes out an update its caller never saw. */
  lemma {:induction false} RestoreOverwritesUnseen()
    ensures var before := RunOf([Create(0, [64], None), Load(1, 0), Load(2, 0), Update(1, SAMPLE, 1)]);
            var after := After(before, Restore(2, OTHER));
            && 0 in before.rows && 2 in before.held && 0 in after.rows
            && before.rows[0].title == [65] && before.held[2].row.title == [64] && after.rows[0].title == [66]
  {
    var e := [Create(0, [64], None), Load(1, 0), Load(2, 0), Update(1, SAMPLE, 1)];
    assert e[..3] == [Create(0, [64], None), Load(1, 0), Load(2, 0)];
    assert e[..3][..2] == [Create(0, [64], None), Load(1, 0)];
    assert e[..3][..2][..1] == [Create(0, [64], None)];
    assert [Create(0, [64], None)][..0] == [];
    assert RunOf([Create(0, [64], None)]).rows == map[0 := Row([64], None, Draft, 1, None)];
    assert RunOf(e[..3][..2]).held[1].row.version == 1;
    assert RunOf(e[..3]).held[2].row.title == [64];
  }

  /** A transition lands on the status its caller read, and its guard held on that read. */
  lemma {:induction false} MoveLandsOnReadStatus(events: seq<Event>, c: nat, m: Move)
    requires MoveLands(RunOf(events), c, m)
    ensures var d := RunOf(events);
            && LeavesFrom(m, d.rows[d.held[c].id].status)
            && GuardHolds(m, d.held[c].row)
            && (d.rows[d.held[c].id].version == d.held[c].row.version ==> GuardHolds(m, d.rows[d.held[c].id]))
  {
    var d := RunOf(events);
    EveryRunIsOk(events);
    assert HeldOk(d, d.held[c]);
  }

  const BLANKED: Patch := Patch(None, Some(None))

  /** By example: a publish is let through on a row whose summary was emptied since it was read. */
  lemma {:induction false} PublishLandsUnguarded()
    ensures var d := RunOf([Create(0, [64], Some([65])), Load(1, 0), Load(2, 0), Update(2, BLANKED, 1)]);
            MoveLands(d, 1, Publish) && d.held[1].id == 0 && !GuardHolds(Publish, d.rows[0])
  {
    var row := Row([64], Some([65]), Draft, 1, None);
    var loaded := Desk(map[0 := row], {0}, map[1 := Held(0, row), 2 := Held(0, row)], map[], []);
    assert RunOf([Create(0, [64], Some([65])), Load(1, 0), Load(2, 0)]) == loaded by { LoadedTwice([64], Some([65])); }
    RunSnoc([Create(0, [64], Some([65])), Load(1, 0), Load(2, 0)], Update(2, BLANKED, 1));
    assert [Create(0, [64], Some([65])), Load(1, 0), Load(2, 0)] + [Update(2, BLANKED, 1)]
        == [Create(0, [64], Some([65])), Load(1, 0), Load(2, 0), Update(2, BLANKED, 1)];
    hide RunOf;
    assert Trim([65]) == [65];
  }

  /** A snippet made and loaded by two callers. */
  lemma {:induction false} LoadedTwice(title: Text, summary: Option<Text>)
    ensures var row := Row(title, summary, Draft, 1, None);
            && RunOf([Create(0, title, summary), Load(1, 0), Load(2, 0)])
            == Desk(map[0 := row], {0}, map[1 := Held(0, row), 2 := Held(0, row)], map[], [])
  {
    var e := [Create(0, title, summary), Load(1, 0), Load(2, 0)];
    RunSnoc([], e[0]);
    RunSnoc([e[0]], e[1]);
    RunSnoc([e[0], e[1]], e[2]);
    assert [] + [e[0]] == [e[0]] && [e[0]] + [e[1]] == [e[0], e[1]] && [e[0], e[1]] + [e[2]] == e;
  }

  lemma {:induction false} RunSnoc(events: seq<Event>, ev: Event)
    ensures RunOf(events + [ev]) == After(RunOf(events), ev)
  {
    assert (events + [ev])[..|events|] == events;
  }

  /** There is always one more caller. */
  lemma {:induction false} SomeoneElse(callers: set<nat>) returns (b: nat)
    ensures forall c | c in callers :: c < b
    decreases callers
  {
    if callers == {} {
      b := 0;
    } else {
      var c :| c in callers;
      var rest := SomeoneElse(callers - {c});
      b := if c < rest then rest else c + 1;
      assert forall k | k in callers :: k == c || k in callers - {c};
    }
  }

  /**
   * The version read is the only one to vouch for the guard: wherever a publish would land,
   * others can bring the row to any later version with the publish still landing there,
   * unguarded.
   */
  lemma {:induction false} LaterVersionsMayBeUnguarded(events: seq<Event>, c: nat, version: nat) returns (more: seq<Event>)
    requires MoveLands(RunOf(events), c, Publish)
    requires var d := RunOf(events); version > d.rows[d.held[c].id].version
    ensures var d, later := RunOf(events), RunOf(events + more);
            && MoveLands(later, c, Publish) && later.held[c] == d.held[c]
            && later.rows[d.held[c].id].version == version
            && !GuardHolds(Publish, later.rows[d.held[c].id])
    decreases var d := RunOf(events); version - d.rows[d.held[c].id].version
  {
    hide RunOf;
    var d := RunOf(events);
    var b := SomeoneElse(d.moving.Keys + {c});
    var id := d.held[c].id;
    var load, blank := Load(b, id), Update(b, BLANKED, d.rows[id].version);
    RunSnoc(events, load);
    RunSnoc(events + [load], blank);
    var all := events + [load] + [blank];
    BlankingLands(d, c, b);
    assert all == events + [load, blank];
    more := [load, blank];
    if d.rows[id].version + 1 < version {
      var rest := LaterVersionsMayBeUnguarded(all, c, version);
      more := [load, blank] + rest;
      assert events + more == all + rest;
    }
  }

  lemma {:induction false} BlankingLands(d: Desk, c: nat, b: nat)
    requires MoveLands(d, c, Publish) && b != c && b !in d.moving
    ensures var id := d.held[c].id;
            var after := After(After(d, Load(b, id)), Update(b, BLANKED, d.rows[id].version));
            && MoveLands(after, c, Publish) && after.held[c] == d.held[c]
            && after.rows[id].version == d.rows[id].version + 1 && !GuardHolds(Publish, after.rows[id])
  {
    hide Trim;
    var id := d.held[c].id;
    var loaded := After(d, Load(b, id));
    assert loaded.held[b] == Held(id, d.rows[id]);
    assert loaded.moving == d.moving && loaded.rows == d.rows;
    var after := After(loaded, Update(b, BLANKED, d.rows[id].version));
    assert after.moving == d.moving;
    assert Locked(after, id) == Locked(d, id);
  }

  // --------------------------------------------- what a later write left behind

  /** What a step puts into a snippet's summary, if it sets it. */
  function SummarySet(d: Desk, ev: Event, id: nat): Option<Option<Text>> {
    match ev
    case Update(c, patch, expected) =>
      if UpdateLands(d, c, expected) && d.held[c].id == id then patch.summary else None
    case Restore(c, patch) => if Reaches(d, c) && d.held[c].id == id then patch.summary else None
    case _ => None
  }

  /** The n-th step is the last of a run to have set a snippet's summary. */
  ghost predicate SetLast(events: seq<Event>, n: nat, id: nat) {
    && n < |events| && SummarySet(RunOf(events[..n]), events[n], id).Some?
    && forall k | n < k < |events| :: SummarySet(RunOf(events[..k]), events[k], id).None?
  }

  /** From `from` on, the last step to set a summary, if there is one, left it blank. */
  ghost predicate BlankedSince(events: seq<Event>, from: nat, id: nat) {
    exists n :: from <= n < |events| && SetLast(events, n, id)
      && IsBlank(SummarySet(RunOf(events[..n]), events[n], id).value)
  }

  ghost predicate UnsetSince(events: seq<Event>, from: nat, id: nat) {
    forall k | from <= k < |events| :: SummarySet(RunOf(events[..k]), events[k], id).None?
  }

  lemma {:induction false} StepSetsSummary(d: Desk, ev: Event, id: nat)
    requires id in d.rows && id in d.known && id in After(d, ev).rows
    ensures After(d, ev).rows[id].summary
         == match SummarySet(d, ev, id) case None => d.rows[id].summary case Some(summary) => summary
  {
  }

  lemma {:induction false} RowWasThere(d: Desk, ev: Event, id: nat)
    requires id in d.known && id in After(d, ev).rows
    ensures id in d.rows
  {
  }

  lemma {:induction false} SetLastEarlier(events: seq<Event>, ev: Event, n: nat, id: nat)
    requires n < |events| && SummarySet(RunOf(events), ev, id).None?
    ensures SetLast(events + [ev], n, id) <==> SetLast(events, n, id)
  {
    hide RunOf, SummarySet;
    var all := events + [ev];
    assert all[..|events|] == events;
    forall k | 0 <= k < |events| ensures all[..k] == events[..k] && all[k] == events[k] {
    }
  }

  lemma {:induction false} SetsSnoc(events: seq<Event>, ev: Event, from: nat, id: nat)
    requires from <= |events|
    ensures UnsetSince(events + [ev], from, id)
        <==> UnsetSince(events, from, id) && SummarySet(RunOf(events), ev, id).None?
    ensures BlankedSince(events + [ev], from, id)
        <==> match SummarySet(RunOf(events), ev, id)
             case None => BlankedSince(events, from, id)
             case Some(summary) => IsBlank(summary)
  {
    hide RunOf, SummarySet, IsBlank;
    var all := events + [ev];
    assert all[..|events|] == events;
    forall k | 0 <= k < |events| ensures all[..k] == events[..k] && all[k] == events[k] {
    }
    if SummarySet(RunOf(events), ev, id).Some? {
      assert SetLast(all, |events|, id);
      assert forall n | SetLast(all, n, id) :: n == |events|;
    } else {
      assert !SetLast(all, |events|, id);
      forall n: nat | n < |events| ensures SetLast(all, n, id) <==> SetLast(events, n, id) {
        SetLastEarlier(events, ev, n, id);
      }
    }
  }

  /** A row keeps the summary it had until a step sets it. */
  lemma {:induction false} SummaryIsLastSet(events: seq<Event>, more: seq<Event>, id: nat)
    requires id in RunOf(events).rows && id in RunOf(events + more).rows
    ensures IsBlank(RunOf(events + more).rows[id].summary)
        <==> || BlankedSince(events + more, |events|, id)
             || (UnsetSince(events + more, |events|, id) && IsBlank(RunOf(events).rows[id].summary))
    decreases |more|
  {
    EveryRunIsOk(events);
    if more == [] {
      assert events + more == events;
    } else {
      var front, ev := more[..|more| - 1], more[|more| - 1];
      var before := events + front;
      assert events + more == before + [ev];
      RunGoesOn(events, front);
      RunSnoc(before, ev);
      RowWasThere(RunOf(before), ev, id);
      SummaryIsLastSet(events, front, id);
      StepSetsSummary(RunOf(before), ev, id);
      SetsSnoc(before, ev, |events|, id);
    }
  }

  /** No step forgets a snippet or a record, and only a load changes what its caller holds. */
  ghost predicate GoesOn(d: Desk, after: Desk) {
    d.known <= after.known && d.log <= after.log && d.held.Keys <= after.held.Keys
  }

  lemma {:induction false} StepGoesOn(d: Desk, ev: Event)
    ensures GoesOn(d, After(d, ev))
    ensures forall c | c in d.held && !(ev.Load? && ev.c == c) :: After(d, ev).held[c] == d.held[c]
  {
    hide UpdateLands, MoveLands, Reaches, Patched;
  }

  lemma {:induction false} RunGoesOn(events: seq<Event>, more: seq<Event>)
    ensures GoesOn(RunOf(events), RunOf(events + more))
    decreases |more|
  {
    hide RunOf, After;
    if more == [] {
      assert events + more == events;
    } else {
      var front, ev := more[..|more| - 1], more[|more| - 1];
      RunGoesOn(events, front);
      assert events + more == events + front + [ev];
      RunSnoc(events + front, ev);
      StepGoesOn(RunOf(events + front), ev);
    }
  }

  /** Nothing a caller holds changes but by its own loads. */
  lemma {:induction false} HeldStays(events: seq<Event>, more: seq<Event>, c: nat)
    requires c in RunOf(events).held && forall k | 0 <= k < |more| :: !(more[k].Load? && more[k].c == c)
    ensures c in RunOf(events + more).held && RunOf(events + more).held[c] == RunOf(events).held[c]
    decreases |more|
  {
    hide RunOf, After;
    if more == [] {
      assert events + more == events;
    } else {
      var front, ev := more[..|more| - 1], more[|more| - 1];
      HeldStays(events, front, c);
      assert events + more == events + front + [ev];
      RunSnoc(events + front, ev);
      StepGoesOn(RunOf(events + front), ev);
    }
  }

  /** A run in which a caller loads a snippet, and then does not load again. */
  ghost predicate LoadedThen(before: seq<Event>, c: nat, id: nat, since: seq<Event>) {
    && id in RunOf(before).rows && c !in RunOf(before).moving
    && forall k | 0 <= k < |since| :: !(since[k].Load? && since[k].c == c)
  }

  lemma {:induction false} LoadedIsRead(before: seq<Event>, c: nat, id: nat, since: seq<Event>)
    requires LoadedThen(before, c, id, since)
    ensures var d := RunOf(before + [Load(c, id)] + since);
            c in d.held && d.held[c] == Held(id, RunOf(before).rows[id])
    ensures RunOf(before + [Load(c, id)]).rows == RunOf(before).rows && RunOf(before + [Load(c, id)]).log == RunOf(before).log
  {
    RunSnoc(before, Load(c, id));
    HeldStays(before + [Load(c, id)], since, c);
  }

  /**
   * A publish that lands breaks its guard exactly when, of the writes since its caller's
   * load, the last to set the summary set it blank.
   */
  lemma {:induction false} UnguardedExactly(before: seq<Event>, c: nat, id: nat, since: seq<Event>)
    requires LoadedThen(before, c, id, since)
    requires MoveLands(RunOf(before + [Load(c, id)] + since), c, Publish)
    ensures var d := RunOf(before + [Load(c, id)] + since);
            && d.held[c].id == id && id in d.rows
            && (!GuardHolds(Publish, d.rows[id]) <==> BlankedSince(before + [Load(c, id)] + since, |before| + 1, id))
  {
    LoadedIsRead(before, c, id, since);
    hide RunOf, BlankedSince, UnsetSince, IsBlank;
    SummaryIsLastSet(before + [Load(c, id)], since, id);
  }

  // ------------------------------------------------------------- removed for good

  ghost predicate IsGone(d: Desk, id: nat) {
    id in d.known && id !in d.rows
  }

  lemma {:induction false} GoneStays(d: Desk, ev: Event, id: nat)
    requires IsGone(d, id)
    ensures IsGone(After(d, ev), id)
  {
    hide MoveLands, Patched, Locked;
  }

  /** A removed snippet is gone, and no later step of anyone brings it back. */
  lemma {:induction false} RemovedStaysGone(events: seq<Event>, c: nat, more: seq<Event>)
    requires Reaches(RunOf(events), c)
    ensures RunOf(events).held[c].id !in RunOf(events + [Remove(c)] + more).rows
    ensures IsGone(RunOf(events + [Remove(c)] + more), RunOf(events).held[c].id)
    decreases |more|
  {
    var id := RunOf(events).held[c].id;
    if more == [] {
      EveryRunIsOk(events);
      RunSnoc(events, Remove(c));
      assert events + [Remove(c)] + more == events + [Remove(c)];
      hide RunOf;
    } else {
      var front, ev := more[..|more| - 1], more[|more| - 1];
      hide RunOf, After;
      RemovedStaysGone(events, c, front);
      assert events + [Remove(c)] + more == events + [Remove(c)] + front + [ev];
      RunSnoc(events + [Remove(c)] + front, ev);
      GoneStays(RunOf(events + [Remove(c)] + front), ev, id);
    }
  }

  // ------------------------------------------------- what a write leaves alone

  /** Blank is without a summary, or one of whitespace alone. */
  lemma {:induction false} BlankIs(summary: Option<Text>)
    ensures IsBlank(summary) <==> summary.None? || forall i | 0 <= i < |summary.value| :: IsSpace(summary.value[i])
  {
    if summary.Some? {
      TrimmedIs(summary.value);
    }
  }

  /** An edit or a revert writes the fields it is given and counts the version, no more. */
  lemma {:induction false} PatchedExactly(row: Row, patch: Patch)
    ensures var now := Patched(row, patch);
            && now.title == (match patch.title case None => row.title case Some(title) => title)
            && now.summary == (match patch.summary case None => row.summary case Some(summary) => summary)
            && now == row.(title := now.title, summary := now.summary, version := row.version + 1)
    ensures Patched(Patched(row, patch), patch) == Patched(row, patch).(version := row.version + 2)
  {
  }

  // -------------------------------------------------------- the edges, named

  /** The walk a snippet may take: out of draft, published or straight to the archive, and back. */
  ghost predicate IsEdge(from: Status, to: Status) {
    || (from == Draft && to == Published)
    || (from == Draft && to == Archived)
    || (from == Published && to == Archived)
    || (from == Archived && to == Draft)
  }

  /** The declared moves are those edges, all of them and no more; only one leads to each. */
  lemma {:induction false} EdgesAre(from: Status, to: Status)
    ensures IsEdge(from, to) <==> exists m :: LeavesFrom(m, from) && To(m) == to
    ensures forall m, n | LeavesFrom(m, from) && To(m) == to && LeavesFrom(n, from) && To(n) == to :: m == n
  {
    var m := if to == Published then Publish else if to == Archived then Archive else Reopen;
    assert IsEdge(from, to) ==> LeavesFrom(m, from) && To(m) == to;
  }

  /** In every run every recorded move goes along one of the edges. */
  lemma {:induction false} RecordsFollowEdges(events: seq<Event>, i: nat)
    requires i < |RunOf(events).log|
    ensures var m := RunOf(events).log[i]; IsEdge(m.from, m.to)
  {
    EveryRunIsOk(events);
    WalkAt(RunOf(events).log, i);
    var m := RunOf(events).log[i];
    EdgesAre(m.from, m.to);
  }

  /** And in one run all four are taken. */
  lemma {:induction false} EveryEdgeIsTaken() returns (events: seq<Event>)
    ensures RunOf(events).log
         == [Moved(0, Publish, Draft, Published), Moved(0, Archive, Published, Archived),
             Moved(0, Reopen, Archived, Draft), Moved(0, Archive, Draft, Archived)]
  {
    events := FirstHolds();
    hide RunOf, HoldsCurrent, IsBlank;
    events := MoveAndLoad(events, Publish);
    events := MoveAndLoad(events, Archive);
    events := MoveAndLoad(events, Reopen);
    events := MoveAndLoad(events, Archive);
  }

  lemma {:induction false} FirstHolds() returns (events: seq<Event>)
    ensures HoldsCurrent(RunOf(events)) && RunOf(events).log == []
    ensures RunOf(events).rows[0].status == Draft && !IsBlank(RunOf(events).rows[0].summary)
  {
    events := [Create(0, [64], Some([65])), Load(1, 0), Load(2, 0)];
    LoadedTwice([64], Some([65]));
    hide RunOf;
    assert Trim([65]) == [65];
  }

  /** Caller 1, who holds the row as it is, moves it and loads it again. */
  lemma {:induction false} MoveAndLoad(events: seq<Event>, m: Move) returns (more: seq<Event>)
    requires HoldsCurrent(RunOf(events)) && Allowed(m, RunOf(events).rows[0])
    ensures 0 in RunOf(more).rows
    ensures more == events + [BeginMove(1, m), CommitMove(1)] + [Load(1, 0)] && HoldsCurrent(RunOf(more))
    ensures var row := RunOf(events).rows[0];
            && RunOf(more).rows[0] == row.(status := To(m), version := row.version + 1)
            && RunOf(more).log == RunOf(events).log + [Moved(0, m, row.status, To(m))]
  {
    hide RunOf, Allowed;
    more := events + [BeginMove(1, m), CommitMove(1)] + [Load(1, 0)];
    MoveRuns(events, 1, m);
    RunSnoc(events + [BeginMove(1, m), CommitMove(1)], Load(1, 0));
  }

  ghost predicate HoldsCurrent(d: Desk) {
    0 in d.rows && d.moving == map[] && 1 in d.held && d.held[1] == Held(0, d.rows[0])
  }

  // ------------------------------------------------ what stands behind a record

  /** The n-th step began a transition: its caller held the row with that status, guard and all. */
  ghost predicate Began(events: seq<Event>, n: nat, c: nat, t: Moving) {
    && n < |events| && events[n] == BeginMove(c, t.move)
    && var d := RunOf(events[..n]);
       && MoveLands(d, c, t.move) && d.held[c].id == t.id && d.held[c].row.status == t.from
  }

  ghost predicate Behind(events: seq<Event>, t: Moving) {
    exists n: nat, c: nat :: Began(events, n, c, t)
  }

  lemma {:induction false} BehindStays(events: seq<Event>, ev: Event, t: Moving)
    requires Behind(events, t)
    ensures Behind(events + [ev], t)
  {
    var n: nat, c: nat :| Began(events, n, c, t);
    assert (events + [ev])[..n] == events[..n];
    hide MoveLands, RunOf;
    assert Began(events + [ev], n, c, t);
  }

  ghost predicate AllBehind(events: seq<Event>, d: Desk) {
    && (forall c | c in d.moving :: Behind(events, d.moving[c]))
    && (forall i | 0 <= i < |d.log| :: Behind(events, Moving(d.log[i].id, d.log[i].move, d.log[i].from)))
  }

  /** A step puts at most one transition under way, and records at most one that was. */
  lemma {:induction false} StepBegins(d: Desk, ev: Event)
    ensures forall c | c in After(d, ev).moving ::
              || (c in d.moving && After(d, ev).moving[c] == d.moving[c])
              || (ev.BeginMove? && ev.c == c && MoveLands(d, c, ev.move)
                  && After(d, ev).moving[c] == Moving(d.held[c].id, ev.move, d.held[c].row.status))
    ensures || After(d, ev).log == d.log
            || (ev.CommitMove? && ev.c in d.moving
                && var t := d.moving[ev.c]; After(d, ev).log == d.log + [Moved(t.id, t.move, t.from, To(t.move))])
  {
    hide MoveLands, UpdateLands, Reaches;
  }

  lemma {:induction false} JustBegan(events: seq<Event>, c: nat, m: Move)
    requires MoveLands(RunOf(events), c, m)
    ensures var d := RunOf(events);
            c in d.held && Behind(events + [BeginMove(c, m)], Moving(d.held[c].id, m, d.held[c].row.status))
  {
    var d := RunOf(events);
    assert (events + [BeginMove(c, m)])[..|events|] == events;
    assert Began(events + [BeginMove(c, m)], |events|, c, Moving(d.held[c].id, m, d.held[c].row.status));
  }

  lemma {:induction false} EverythingBegan(events: seq<Event>)
    ensures AllBehind(events, RunOf(events))
  {
    if events == [] {
      NothingBegan();
    } else {
      var front, ev := events[..|events| - 1], events[|events| - 1];
      assert events == front + [ev];
      hide RunOf, After, MoveLands, Behind;
      EverythingBegan(front);
      RunSnoc(front, ev);
      var d, after := RunOf(front), RunOf(events);
      StepBegins(d, ev);
      forall c | c in after.moving ensures Behind(events, after.moving[c]) {
        if c in d.moving && after.moving[c] == d.moving[c] {
          BehindStays(front, ev, d.moving[c]);
        } else {
          JustBegan(front, c, ev.move);
        }
      }
      forall i | 0 <= i < |after.log| ensures Behind(events, Moving(after.log[i].id, after.log[i].move, after.log[i].from)) {
        BehindStays(front, ev, if i < |d.log| then Moving(d.log[i].id, d.log[i].move, d.log[i].from) else d.moving[ev.c]);
      }
    }
  }

  lemma {:induction false} NothingBegan()
    ensures AllBehind([], RunOf([]))
  {
  }

  /**
   * In every run a snippet is published exactly if the last of its records leads from draft to
   * published, and whoever made that record began with a draft in hand whose summary was not blank.
   */
  lemma {:induction false} PublishedExactly(events: seq<Event>, id: nat)
    requires id in RunOf(events).rows
    ensures RunOf(events).rows[id].status == Published <==> LedBack(RunOf(events).log, 0, id, Published)
    ensures forall i | 0 <= i < |RunOf(events).log| && RunOf(events).log[i].to == Published ::
              PublishedByHand(events, RunOf(events).log[i])
  {
    EveryRunIsOk(events);
    EverythingBegan(events);
    var log := RunOf(events).log;
    EndIsLastRecord(log, 0, id, Published);
    assert EndOf(log[..0], id) == Draft;
    forall i | 0 <= i < |log| && log[i].to == Published ensures PublishedByHand(events, log[i]) {
      WalkAt(log, i);
      var n: nat, c: nat :| Began(events, n, c, Moving(log[i].id, log[i].move, log[i].from));
      assert HandedIn(events, n, c, log[i]);
    }
  }

  ghost predicate HandedIn(events: seq<Event>, n: nat, c: nat, m: Moved) {
    && n < |events| && events[n] == BeginMove(c, Publish) && c in RunOf(events[..n]).held
    && var held := RunOf(events[..n]).held[c];
       held.id == m.id && held.row.status == Draft && m.from == Draft && !IsBlank(held.row.summary)
  }

  ghost predicate PublishedByHand(events: seq<Event>, m: Moved) {
    exists n: nat, c: nat :: HandedIn(events, n, c, m)
  }

  // ------------------------------------------------------ one status, two moves

  /** Two transitions of one snippet are never under way together. */
  lemma {:induction false} OneMoverAtATime(events: seq<Event>, b: nat, c: nat)
    requires var d := RunOf(events); b in d.moving && c in d.moving && d.moving[b].id == d.moving[c].id
    ensures b == c
    ensures var d := RunOf(events); d.moving[c].id in d.rows && d.rows[d.moving[c].id].status == d.moving[c].from
  {
    var d := RunOf(events);
    EveryRunIsOk(events);
    assert MovingOk(d, d.moving[c]);
  }

  /** The last of a snippet's records since `from`, if there is one, leads to a status. */
  ghost predicate LedBack(log: seq<Moved>, from: nat, id: nat, status: Status) {
    exists k :: from <= k < |log| && log[k].id == id && log[k].to == status
      && forall l | k < l < |log| :: log[l].id != id
  }

  ghost predicate Unmoved(log: seq<Moved>, from: nat, id: nat) {
    forall l | from <= l < |log| :: log[l].id != id
  }

  lemma {:induction false} LedBackSnoc(log: seq<Moved>, m: Moved, from: nat, id: nat, status: Status)
    requires from <= |log|
    ensures LedBack(log + [m], from, id, status)
        <==> if m.id == id then m.to == status else LedBack(log, from, id, status)
    ensures Unmoved(log + [m], from, id) <==> m.id != id && Unmoved(log, from, id)
  {
    var all := log + [m];
    assert all[|log|] == m && forall k | 0 <= k < |log| :: all[k] == log[k];
    if m.id != id && LedBack(log, from, id, status) {
      var k :| from <= k < |log| && log[k].id == id && log[k].to == status
        && forall l | k < l < |log| :: log[l].id != id;
      assert all[k] == log[k] && forall l | k < l < |all| :: all[l].id != id;
    }
    if m.id != id && LedBack(all, from, id, status) {
      var k :| from <= k < |all| && all[k].id == id && all[k].to == status
        && forall l | k < l < |all| :: all[l].id != id;
      assert k < |log| && log[k] == all[k] && forall l | k < l < |log| :: log[l] == all[l];
    }
  }

  lemma {:induction false} EndIsLastRecord(log: seq<Moved>, from: nat, id: nat, status: Status)
    requires from <= |log|
    ensures EndOf(log, id) == status
        <==> LedBack(log, from, id, status) || (Unmoved(log, from, id) && EndOf(log[..from], id) == status)
    decreases |log|
  {
    hide LedBack, Unmoved;
    if |log| == from {
      assert log[..from] == log;
      NothingSince(log, id, status);
    } else {
      var front, m := log[..|log| - 1], log[|log| - 1];
      assert log == front + [m] && front[..from] == log[..from];
      EndIsLastRecord(front, from, id, status);
      LedBackSnoc(front, m, from, id, status);
    }
  }

  lemma {:induction false} NothingSince(log: seq<Moved>, id: nat, status: Status)
    ensures Unmoved(log, |log|, id) && !LedBack(log, |log|, id, status)
  {
  }

  /**
   * Two recorded moves of one snippet from one status, by the same caller or by two that
   * both read it there: a move recorded between them led back to that status.
   */
  lemma {:induction false} SecondMoveNeedsReturn(events: seq<Event>, i: nat, j: nat)
    requires var log := RunOf(events).log;
             i < j < |log| && log[i].id == log[j].id && log[i].from == log[j].from
    ensures var log := RunOf(events).log;
            exists k :: i < k < j && log[k].id == log[i].id && log[k].to == log[i].from
  {
    EveryRunIsOk(events);
    var log := RunOf(events).log;
    WalkAt(log, i);
    WalkAt(log, j);
    var front := log[..j];
    EndIsLastRecord(front, i, log[i].id, log[i].from);
    assert front[i] == log[i];
    var k :| i <= k < j && front[k].id == log[i].id && front[k].to == log[i].from;
    assert log[k] == front[k] && log[i].to != log[i].from;
  }

  lemma {:induction false} WalkAt(log: seq<Moved>, i: nat)
    requires Walks(log) && i < |log|
    ensures log[i].from == EndOf(log[..i], log[i].id) && log[i].to == To(log[i].move) && LeavesFrom(log[i].move, log[i].from)
    decreases |log|
  {
    if i < |log| - 1 {
      WalkAt(log[..|log| - 1], i);
      assert log[..|log| - 1][..i] == log[..i];
    }
  }

  /**
   * What a caller read lets it move the row exactly when no move was recorded since, or the
   * last one led back to the status it read.
   */
  lemma {:induction false} LandsExactly(before: seq<Event>, c: nat, id: nat, since: seq<Event>, m: Move)
    requires LoadedThen(before, c, id, since) && Allowed(m, RunOf(before).rows[id])
    requires var d := RunOf(before + [Load(c, id)] + since); Reaches(d, c) && c !in d.moving
    ensures var d, n, status := RunOf(before + [Load(c, id)] + since), |RunOf(before).log|, RunOf(before).rows[id].status;
            MoveLands(d, c, m) <==> LedBack(d.log, n, id, status) || Unmoved(d.log, n, id)
  {
    LoadedIsRead(before, c, id, since);
    var d, was := RunOf(before + [Load(c, id)] + since), RunOf(before);
    EveryRunIsOk(before);
    EveryRunIsOk(before + [Load(c, id)] + since);
    RunGoesOn(before + [Load(c, id)], since);
    hide RunOf, LedBack, Unmoved, EndOf, Walks, GuardHolds, LeavesFrom;
    assert d.log[..|was.log|] == was.log;
    assert was.rows[id].status == EndOf(was.log, id) && d.rows[id].status == EndOf(d.log, id);
    EndIsLastRecord(d.log, |was.log|, id, was.rows[id].status);
  }

  /** A transition that no one disturbs. */
  lemma {:induction false} MoveRuns(events: seq<Event>, c: nat, m: Move)
    requires RunOf(events).moving == map[] && MoveLands(RunOf(events), c, m)
    ensures var d := RunOf(events);
            var id := d.held[c].id;
            var row := d.rows[id];
            RunOf(events + [BeginMove(c, m), CommitMove(c)])
            == d.(rows := d.rows[id := row.(status := To(m), version := row.version + 1)],
                  log := d.log + [Moved(id, m, row.status, To(m))])
  {
    hide RunOf, Reaches, Allowed;
    var d := RunOf(events);
    RunSnoc(events, BeginMove(c, m));
    RunSnoc(events + [BeginMove(c, m)], CommitMove(c));
    assert events + [BeginMove(c, m)] + [CommitMove(c)] == events + [BeginMove(c, m), CommitMove(c)];
    assert d.held[c].id in d.rows by { LandsOnRow(d, c, m); }
    assert After(d, BeginMove(c, m)).moving == map[c := Moving(d.held[c].id, m, d.held[c].row.status)];
    assert RunOf(events + [BeginMove(c, m), CommitMove(c)]).moving == map[];
  }

  lemma {:induction false} LandsOnRow(d: Desk, c: nat, m: Move)
    requires MoveLands(d, c, m)
    ensures c in d.held && d.held[c].id in d.rows
  {
  }

  const TWO_READERS: seq<Event> := [Create(0, [64], None), Load(1, 0), Load(2, 0)]
  const ARCHIVED: seq<Event> := TWO_READERS + [BeginMove(1, Archive), CommitMove(1)] + [Load(1, 0)]
  const REOPENED: seq<Event> := ARCHIVED + [BeginMove(1, Reopen), CommitMove(1)]
  const SAMPLE_ROW: Row := Row([64], None, Draft, 1, None)

  lemma {:induction false} FirstArchives()
    ensures RunOf(ARCHIVED)
         == Desk(map[0 := SAMPLE_ROW.(status := Archived, version := 2)], {0},
                 map[1 := Held(0, SAMPLE_ROW.(status := Archived, version := 2)), 2 := Held(0, SAMPLE_ROW)],
                 map[], [Moved(0, Archive, Draft, Archived)])
  {
    LoadedTwice([64], None);
    MoveRuns(TWO_READERS, 1, Archive);
    RunSnoc(TWO_READERS + [BeginMove(1, Archive), CommitMove(1)], Load(1, 0));
    hide RunOf;
  }

  lemma {:induction false} FirstReopens()
    ensures RunOf(REOPENED)
         == Desk(map[0 := SAMPLE_ROW.(version := 3)], {0},
                 map[1 := Held(0, SAMPLE_ROW.(status := Archived, version := 2)), 2 := Held(0, SAMPLE_ROW)],
                 map[], [Moved(0, Archive, Draft, Archived), Moved(0, Reopen, Archived, Draft)])
  {
    FirstArchives();
    hide RunOf;
    MoveRuns(ARCHIVED, 1, Reopen);
  }

  /** By example: two callers read one draft, and both archive it, the first having reopened it. */
  lemma {:induction false} BothReadersMove()
    ensures RunOf(REOPENED + [BeginMove(2, Archive), CommitMove(2)]).log
         == [Moved(0, Archive, Draft, Archived), Moved(0, Reopen, Archived, Draft), Moved(0, Archive, Draft, Archived)]
  {
    FirstReopens();
    hide RunOf;
    MoveRuns(REOPENED, 2, Archive);
  }

  // -------------------------------------------------------------- the class

  datatype Outcome =
    | Written(row: Row)
    | VersionConflict(current: Option<nat>)
    | IllegalTransition
    | GuardFailed
    | NotFound

  class SnippetService {
    var rows: map<nat, Row>
    var log: seq<Moved>
    ghost var known: set<nat>

    /** The desk as one caller finds it, holding one record. */
    ghost function DeskWith(record: Held): Desk
      reads this
    {
      Desk(rows, known, map[0 := record], map[], log)
    }

    ghost predicate Valid()
      reads this
    {
      DeskOk(Desk(rows, known, map[], map[], log))
    }

    constructor ()
      ensures Valid() && rows == map[] && log == []
    {
      rows, log, known := map[], [], {};
    }

    method Create(id: nat, title: Text, summary: Option<Text>) returns (row: Row)
      requires Valid() && id !in known
      modifies this
      ensures Valid() && known == old(known) + {id} && log == old(log)
      ensures rows == old(rows)[id := row] && row == Row(title, summary, Draft, 1, None)
    {
      CreateKeepsOk(Desk(rows, known, map[], map[], log), id, title, summary);
      row := Row(title, summary, Draft, 1, None);
      rows := rows[id := row];
      known := known + {id};
    }

    method Update(record: Held, patch: Patch, expected: nat) returns (outcome: Outcome)
      requires Valid() && HeldOk(DeskWith(record), record)
      modifies `rows
      ensures Valid()
      ensures rows == After(old(DeskWith(record)), Event.Update(0, patch, expected)).rows
      ensures outcome.Written? <==> expected == record.row.version && record.id in old(rows) && old(rows)[record.id] == record.row
      ensures outcome.Written? ==> outcome.row == Patched(record.row, patch)
      ensures !outcome.Written? ==> outcome.VersionConflict? && rows == old(rows)
    {
      if expected != record.row.version {
        return VersionConflict(Some(record.row.version));
      }
      if record.id !in rows || rows[record.id].version != expected {
        return VersionConflict(None);
      }
      var updated := Patched(rows[record.id], patch);
      WriteKeepsOk(Desk(rows, known, map[], map[], log), record.id, updated);
      rows := rows[record.id := updated];
      return Written(updated);
    }

    method Transition(record: Held, m: Move) returns (outcome: Outcome)
      requires Valid() && HeldOk(DeskWith(record), record)
      modifies `rows, `log
      ensures Valid()
      ensures outcome.Written? <==>
                Allowed(m, record.row) && record.id in old(rows) && old(rows)[record.id].status == record.row.status
      ensures outcome.Written? ==>
                var was := old(rows)[record.id];
                && outcome.row == was.(status := To(m), version := was.version + 1)
                && rows == old(rows)[record.id := outcome.row]
                && log == old(log) + [Moved(record.id, m, was.status, To(m))]
      ensures !outcome.Written? ==> rows == old(rows) && log == old(log)
      ensures outcome.GuardFailed? <==> LeavesFrom(m, record.row.status) && !GuardHolds(m, record.row)
    {
      hide GuardHolds, LeavesFrom, Walks, EndOf;
      var current := record.row.status;
      if !LeavesFrom(m, current) {
        return IllegalTransition;
      }
      if !GuardHolds(m, record.row) {
        return GuardFailed;
      }
      if record.id !in rows || rows[record.id].status != current {
        return IllegalTransition;
      }
      var written := rows[record.id].(status := To(m), version := rows[record.id].version + 1);
      ghost var d := Desk(rows, known, map[], map[0 := Moving(record.id, m, current)], log);
      assert DeskOk(d);
      CommitKeepsOk(d, 0);
      assert After(d, CommitMove(0)).moving == map[];
      rows := rows[record.id := written];
      log := log + [Moved(record.id, m, current, To(m))];
      return Written(written);
    }

    method SoftDelete(record: Held, at: int) returns (outcome: Outcome)
      requires Valid()
      modifies `rows
      ensures Valid()
      ensures rows == After(old(DeskWith(record)), Event.SoftDelete(0, at)).rows
      ensures outcome.Written? <==> record.id in old(rows)
      ensures outcome.Written? ==> outcome.row.deletedAt == Some(at) && outcome.row.version == old(rows)[record.id].version + 1
    {
      if record.id !in rows {
        return NotFound;
      }
      var updated := rows[record.id].(deletedAt := Some(at), version := rows[record.id].version + 1);
      WriteKeepsOk(Desk(rows, known, map[], map[], log), record.id, updated);
      rows := rows[record.id := updated];
      return Written(updated);
    }

    method Restore(record: Held, patch: Patch) returns (outcome: Outcome)
      requires Valid()
      modifies `rows
      ensures Valid()
      ensures rows == After(old(DeskWith(record)), Event.Restore(0, patch)).rows
      ensures outcome.Written? <==> record.id in old(rows)
      ensures outcome.Written? ==> outcome.row.deletedAt == None && outcome.row.version == old(rows)[record.id].version + 1
    {
      if record.id !in rows {
        return NotFound;
      }
      var updated := Patched(rows[record.id], patch).(deletedAt := None);
      WriteKeepsOk(Desk(rows, known, map[], map[], log), record.id, updated);
      rows := rows[record.id := updated];
      return Written(updated);
    }

    method HardDelete(record: Held) returns (removed: bool)
      requires Valid()
      modifies `rows
      ensures Valid() && removed == (record.id in old(rows)) && rows == old(rows) - {record.id}
    {
      removed := record.id in rows;
      rows := rows - {record.id};
    }
  }
}
