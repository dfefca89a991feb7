/** Why a transparent restart needs an ordered stream: one late change after which it is not. */
module LateChanges {
  import opened Basics
  import opened Facts
  import opened Tracking
  import opened Storage
  import opened History
  import opened Restarting
  import opened Transparency

  /** The cell produces from 10 on; INVENTED has it produce with a fault code, from 30 on. */
  const RUNNING := Memory(Some(LastCell(10, CellRow(1, 0, 0))), map[], None, None, None)
  const INVENTED := Memory(Some(LastCell(30, CellRow(1, 7, 0))), map[], None, None, None)

  /** At 10 the cell produces; at 30 its state is written again; then a fault code of 10 comes late. */
  ghost predicate LateStream(gs: seq<Group>) {
    && |gs| == 3
    && gs[0] == Group(10, map[CellState := I(1), CellFault := I(0), CellOrigin := I(0)], false)
    && gs[1] == Group(30, map[CellState := I(1)], false)
    && gs[2] == Group(10, map[CellFault := I(7)], true)
  }

  /** What is known of the cell, its origin being 0 since 10. */
  ghost predicate Shows(latest: Latest, stateTs: int, fault: int) {
    && latest.Keys == CELL_TAGS
    && latest[CellState] == Known(stateTs, I(1))
    && latest[CellFault] == Known(10, I(fault))
    && latest[CellOrigin] == Known(10, I(0))
  }

  // ------------------------------------------------------------ groups of cell tags

  lemma NothingElse(mem: Memory, latest: Latest, g: Group)
    requires Changed(g) <= CELL_TAGS
    ensures StationParts(mem, latest, g.ts, Changed(g), 3) == Outcome(mem, [])
    ensures CounterPart(mem, latest, g.ts, Changed(g)) == Outcome(mem, [])
    ensures WeldPart(mem, latest, g.ts, Changed(g)) == Outcome(mem, [])
  {
    StationPartsSilent(mem, latest, g.ts, Changed(g));
    assert Changed(g) * {Good, Scrap} == {};
  }

  lemma CellOnly(t: Tracker, g: Group, latest: Latest, mem: Memory, ops: seq<Op>)
    requires Changed(g) <= CELL_TAGS && latest == Learn(t.latest, g)
    requires CellPart(t.mem, latest, g.ts, Changed(g)) == Success(Outcome(mem, ops))
    ensures Apply(t, g) == Success(Step(Tracker(mem, latest), ops))
  {
    NothingElse(mem, latest, g);
    assert ops + [] + [] + [] == ops;
  }

  /** While no stop is open, a new state of PRODUCING is just an event. */
  lemma NewEvent(mem: Memory, latest: Latest, ts: int, changed: set<Tag>, row: CellRow)
    requires changed * CELL_TAGS != {} && CellKnown(latest) && row == CellValues(latest)
    requires row.state == PRODUCING && mem.openStop.None?
    requires mem.lastCell.Some? ==> mem.lastCell.value.row != row && mem.lastCell.value.ts < ts
    ensures CellPart(mem, latest, ts, changed)
            == Success(Outcome(mem.(lastCell := Some(LastCell(ts, row))), [CellEvent(ts, row)]))
  {
    assert [CellEvent(ts, row)] + [] == [CellEvent(ts, row)];
  }

  lemma TwoGroups(t: Tracker, gs: seq<Group>, first: Step, second: Step)
    requires |gs| == 2 && Apply(t, gs[0]) == Success(first) && Apply(first.tracker, gs[1]) == Success(second)
    ensures ApplyAll(t, gs) == Success(Step(second.tracker, first.ops + second.ops))
  {
    assert gs[1..][0] == gs[1] && gs[1..][1..] == [];
    assert ApplyAll(second.tracker, []) == Success(Step(second.tracker, []));
    assert second.ops + [] == second.ops;
    assert ApplyAll(first.tracker, gs[1..]) == Success(second);
  }

  lemma ThreeGroups(t: Tracker, gs: seq<Group>, first: Step, second: Step, third: Step)
    requires |gs| == 3 && Apply(t, gs[0]) == Success(first) && Apply(first.tracker, gs[1]) == Success(second)
    requires Apply(second.tracker, gs[2]) == Success(third)
    ensures ApplyAll(t, gs) == Success(Step(third.tracker, first.ops + (second.ops + third.ops)))
  {
    TwoGroups(first.tracker, gs[1..], second, third);
  }

  // ------------------------------------------------------------ the collector that never stops

  lemma FirstGroup(t: Tracker, g: Group, latest: Latest)
    requires t == Tracker(NO_MEMORY, map[]) && latest == Learn(t.latest, g)
    requires g == Group(10, map[CellState := I(1), CellFault := I(0), CellOrigin := I(0)], false)
    ensures Shows(latest, 10, 0)
    ensures Apply(t, g) == Success(Step(Tracker(RUNNING, latest), [CellEvent(10, CellRow(1, 0, 0))]))
  {
    assert latest.Keys == CELL_TAGS;
    assert CellState in Changed(g) * CELL_TAGS;
    NewEvent(t.mem, latest, 10, Changed(g), CellRow(1, 0, 0));
    CellOnly(t, g, latest, RUNNING, [CellEvent(10, CellRow(1, 0, 0))]);
  }

  lemma SecondGroup(t: Tracker, g: Group, latest: Latest)
    requires t.mem == RUNNING && Shows(t.latest, 10, 0) && latest == Learn(t.latest, g)
    requires g == Group(30, map[CellState := I(1)], false)
    ensures Shows(latest, 30, 0)
    ensures Apply(t, g) == Success(Step(Tracker(RUNNING, latest), []))
  {
    assert Changed(g) == {CellState};
    assert latest.Keys == CELL_TAGS;
    CellOnly(t, g, latest, RUNNING, []);
  }

  lemma ThirdGroup(t: Tracker, g: Group, latest: Latest)
    requires t.mem == RUNNING && Shows(t.latest, 30, 0) && latest == Learn(t.latest, g)
    requires g == Group(10, map[CellFault := I(7)], true)
    ensures Shows(latest, 30, 7)
    ensures Apply(t, g) == Success(Step(Tracker(RUNNING, latest), []))
  {
    assert Changed(g) == {CellFault};
    assert latest.Keys == CELL_TAGS;
    CellOnly(t, g, latest, RUNNING, []);
  }

  lemma ImageStep(known: Latest, gs: seq<Group>)
    requires gs != [] && forall tag :: tag in Changed(gs[0]) && tag in known ==> known[tag].ts <= gs[0].ts
    ensures Image(known, gs) == Image(Learn(known, gs[0]), gs[1..])
  {
    var g := gs[0];
    assert Learn(known, g) == known + (map tag | tag in Changed(g) :: Known(g.ts, g.values[tag]));
  }

  lemma StreamImage(gs: seq<Group>, known1: Latest, known2: Latest, latest: Latest)
    requires LateStream(gs) && Shows(known1, 10, 0) && Shows(known2, 30, 0)
    requires known1 == Learn(map[], gs[0]) && known2 == Learn(known1, gs[1]) && latest == Learn(known2, gs[2])
    ensures Image(map[], gs) == latest
  {
    var tail, last := gs[1..], gs[2..];
    assert tail[0] == gs[1] && tail[1..] == last && last[0] == gs[2] && last[1..] == [];
    ImageStep(map[], gs);
    ImageStep(known1, tail);
    ImageStep(known2, last);
  }

  lemma Uninterrupted(t: Tracker, gs: seq<Group>) returns (latest: Latest)
    requires LateStream(gs) && t == Tracker(NO_MEMORY, map[])
    ensures Shows(latest, 30, 7) && latest == Image(map[], gs)
    ensures ApplyAll(t, gs) == Success(Step(Tracker(RUNNING, latest), [CellEvent(10, CellRow(1, 0, 0))]))
  {
    var first := Step(Tracker(RUNNING, Learn(t.latest, gs[0])), [CellEvent(10, CellRow(1, 0, 0))]);
    var second := Step(Tracker(RUNNING, Learn(first.tracker.latest, gs[1])), []);
    latest := Learn(second.tracker.latest, gs[2]);
    FirstGroup(t, gs[0], first.tracker.latest);
    SecondGroup(first.tracker, gs[1], second.tracker.latest);
    ThirdGroup(second.tracker, gs[2], latest);
    StreamImage(gs, first.tracker.latest, second.tracker.latest, latest);
    ThreeGroups(t, gs, first, second, Step(Tracker(RUNNING, latest), []));
    assert first.ops + ([] + []) == first.ops;
  }

  // ------------------------------------------------------------ the restart

  lemma ImageTimes(latest: Latest, times: set<int>)
    requires Shows(latest, 30, 7) && times == Times(latest)
    ensures times == {10, 30}
  {
    assert latest[CellState].ts == 30 && latest[CellFault].ts == 10;
    forall ts ensures ts in times <==> ts == 10 || ts == 30 {
      if ts in times {
        var tag :| tag in latest && latest[tag].ts == ts;
        assert tag in CELL_TAGS;
      }
    }
  }

  lemma InOrder(a: int, b: int, times: set<int>)
    requires a < b && times == {a, b}
    ensures Sorted(times) == [a, b]
  {
    SortedIsUnique(Sorted(times), [a, b]);
  }

  /** The server replays the fault code at 10 and the state at 30. */
  lemma ReplayedGroups(latest: Latest, gs: seq<Group>)
    requires Shows(latest, 30, 7) && gs == Replay(latest)
    ensures |gs| == 2 && gs[0] == ReplayGroup(latest, 10) && gs[1] == ReplayGroup(latest, 30)
  {
    ImageTimes(latest, Times(latest));
    InOrder(10, 30, Times(latest));
  }

  /** At 10 the state is not known yet. */
  lemma FirstReplayed(latest: Latest, t: Tracker, g: Group, half: Latest)
    requires Shows(latest, 30, 7) && t == Tracker(RUNNING, map[])
    requires g == ReplayGroup(latest, 10) && half == UpTo(latest, 10)
    ensures Apply(t, g) == Success(Step(Tracker(t.mem, half), []))
  {
    assert Before(latest, 10) == map[];
    ReplayLearns(latest, 10);
    assert CellState !in half;
    CellOnly(t, g, half, t.mem, []);
  }

  lemma SecondReplayed(latest: Latest, t: Tracker, g: Group)
    requires Shows(latest, 30, 7) && t == Tracker(RUNNING, UpTo(latest, 10)) && g == ReplayGroup(latest, 30)
    ensures Apply(t, g) == Success(Step(Tracker(INVENTED, latest), [CellEvent(30, CellRow(1, 7, 0))]))
  {
    assert Before(latest, 30) == UpTo(latest, 10);
    ReplayLearns(latest, 30);
    assert UpTo(latest, 30) == latest;
    assert CellState in Changed(g) * CELL_TAGS;
    NewEvent(t.mem, latest, 30, Changed(g), CellRow(1, 7, 0));
    CellOnly(t, g, latest, INVENTED, [CellEvent(30, CellRow(1, 7, 0))]);
  }

  lemma BothReplayed(latest: Latest, t: Tracker, a: Group, b: Group, mid: Step, after: Step)
    requires Shows(latest, 30, 7) && t == Tracker(RUNNING, map[])
    requires a == ReplayGroup(latest, 10) && b == ReplayGroup(latest, 30)
    requires mid == Step(Tracker(t.mem, UpTo(latest, 10)), [])
    requires after == Step(Tracker(INVENTED, latest), [CellEvent(30, CellRow(1, 7, 0))])
    ensures Apply(t, a) == Success(mid) && Apply(mid.tracker, b) == Success(after)
  {
    FirstReplayed(latest, t, a, mid.tracker.latest);
    SecondReplayed(latest, mid.tracker, b);
  }

  lemma ReplayInvents(latest: Latest, t: Tracker, gs: seq<Group>, mid: Step, after: Step)
    requires Shows(latest, 30, 7) && t == Tracker(RUNNING, map[])
    requires |gs| == 2 && gs[0] == ReplayGroup(latest, 10) && gs[1] == ReplayGroup(latest, 30)
    requires mid == Step(Tracker(t.mem, UpTo(latest, 10)), [])
    requires after == Step(Tracker(INVENTED, latest), [CellEvent(30, CellRow(1, 7, 0))])
    ensures ApplyAll(t, gs) == Success(after)
  {
    BothReplayed(latest, t, gs[0], gs[1], mid, after);
    TwoGroups(t, gs, mid, after);
    assert mid.ops + after.ops == after.ops;
  }

  // ------------------------------------------------------------ the tables

  lemma FreshCollector(l: Live)
    requires l == Restart(EMPTY_DB)
    ensures l == Live(Tracker(NO_MEMORY, map[]), EMPTY_DB)
  {
    assert MemoryOf(EMPTY_DB).lastStation == map[];
    assert OpenStarts(EMPTY_DB.stops) == {};
  }

  lemma RestartedCollector(db: Db)
    requires db == EMPTY_DB.(cell := map[10 := CellRow(1, 0, 0)])
    ensures Restart(db) == Live(Tracker(RUNNING, map[]), db)
  {
    assert MemoryOf(db).lastStation == map[];
    assert OpenStarts(db.stops) == {};
    assert db.cell.Keys == {10};
  }

  lemma OneEvent(db: Db, ts: int, row: CellRow)
    requires ts !in db.cell
    ensures ApplyOps(db, [CellEvent(ts, row)]) == db.(cell := db.cell[ts := row])
  {
    assert [CellEvent(ts, row)][1..] == [];
  }

  /** One crash, right after the whole stream. */
  lemma CrashAtEnd(l: Live, gs: seq<Group>, done: Live, back: Live)
    requires Commit(l, gs) == Success(done) && Resubscribe(done.db, Image(map[], gs)) == Success(back)
    ensures Interrupted(l, map[], [gs]) == Success(back)
  {
    assert [gs][0] == gs && [gs][1..] == [];
    assert Interrupted(back, Image(map[], gs), []) == Success(back);
  }

  /** A collector that stays up stores one event. One that crashes after the late change and comes back
      stores a second one, at 30, with a fault code that came too late to be stored before. */
  lemma LateChangesBreakTransparency(gs: seq<Group>, l: Live)
    requires LateStream(gs) && l == Restart(EMPTY_DB)
    ensures Commit(l, gs).Success? && Interrupted(l, map[], [gs]).Success?
    ensures Commit(l, gs).value.db == EMPTY_DB.(cell := map[10 := CellRow(1, 0, 0)])
    ensures Interrupted(l, map[], [gs]).value.db
            == EMPTY_DB.(cell := map[10 := CellRow(1, 0, 0), 30 := CellRow(1, 7, 0)])
  {
    FreshCollector(l);
    var latest := Uninterrupted(l.tracker, gs);
    OneEvent(EMPTY_DB, 10, CellRow(1, 0, 0));
    var done := Live(Tracker(RUNNING, latest), EMPTY_DB.(cell := map[10 := CellRow(1, 0, 0)]));
    RestartedCollector(done.db);
    var again := Step(Tracker(INVENTED, latest), [CellEvent(30, CellRow(1, 7, 0))]);
    ReplayedGroups(latest, Replay(latest));
    ReplayInvents(latest, Tracker(RUNNING, map[]), Replay(latest), Step(Tracker(RUNNING, UpTo(latest, 10)), []), again);
    OneEvent(done.db, 30, CellRow(1, 7, 0));
    CrashAtEnd(l, gs, done, Live(Tracker(INVENTED, latest), done.db.(cell := done.db.cell[30 := CellRow(1, 7, 0)])));
  }
}
