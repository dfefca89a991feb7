/** The stops table is a function of the event table, over every run of the collector. */
module History {
  import opened Basics
  import opened Facts
  import opened Tracking
  import opened Storage

  // ------------------------------------------------------------ what the stops table must be

  function Later(cell: map<int, CellRow>, t: int): set<int> { set u | u in cell && t < u }

  function NextEvent(cell: map<int, CellRow>, t: int): Option<int> { MinOf(Later(cell, t)) }

  function CauseOf(row: CellRow): Option<Cause> {
    match SuggestCause(row.state, row.fault)
    case Success(c) => c
    case Failure(_) => None
  }

  /** One stop per non-producing event, lasting until the next event. */
  function StopsOf(cell: map<int, CellRow>): map<int, StopRow> {
    map t | t in cell && cell[t].state != PRODUCING ::
      StopRow(NextEvent(cell, t), cell[t].state, StationOfOrigin(cell[t].origin), cell[t].fault, CauseOf(cell[t]))
  }

  /** Consecutive events differ. */
  ghost predicate NoRepeat(cell: map<int, CellRow>) {
    forall t :: t in cell && NextEvent(cell, t).Some? ==> cell[NextEvent(cell, t).value] != cell[t]
  }

  ghost predicate Consistent(db: Db) {
    db.stops == StopsOf(db.cell) && NoRepeat(db.cell)
  }

  /** What a consistent table says about stops: half-open, non-empty, disjoint, one open at most. */
  lemma StopsAreDisjoint(db: Db)
    requires Consistent(db)
    ensures forall s :: s in db.stops && db.stops[s].end.Some? ==> s < db.stops[s].end.value
    ensures forall s, r :: s in db.stops && r in db.stops && s < r ==>
                             db.stops[s].end.Some? && db.stops[s].end.value <= r
    ensures forall s :: s in db.stops && db.stops[s].end.None? ==>
                          LatestCell(db.cell).Some? && LatestCell(db.cell).value.ts == s
  {
    forall s, r | s in db.stops && r in db.stops && s < r
      ensures db.stops[s].end.Some? && db.stops[s].end.value <= r
    {
      assert r in Later(db.cell, s);
    }
    forall s | s in db.stops && db.stops[s].end.None?
      ensures LatestCell(db.cell).Some? && LatestCell(db.cell).value.ts == s
    {
      assert s in db.cell.Keys;
      var last := MaxOf(db.cell.Keys).value;
      assert last != s ==> last in Later(db.cell, s);
    }
  }

  // ------------------------------------------------------------ appending one event

  ghost predicate After(cell: map<int, CellRow>, ts: int) { forall t :: t in cell ==> t < ts }

  lemma NextAfterAppend(cell: map<int, CellRow>, ts: int, row: CellRow, t: int)
    requires After(cell, ts) && t in cell
    ensures NextEvent(cell[ts := row], t) == if NextEvent(cell, t).Some? then NextEvent(cell, t) else Some(ts)
  {
    var before, after := Later(cell, t), Later(cell[ts := row], t);
    assert after == before + {ts};
  }

  /** Closing the open stop and opening the next one follows the appended event. */
  lemma AppendedStops(cell: map<int, CellRow>, ts: int, row: CellRow)
    requires After(cell, ts)
    ensures forall t :: t in cell ==> (t in StopsOf(cell[ts := row]) <==> t in StopsOf(cell))
    ensures forall t :: t in StopsOf(cell) ==>
                          StopsOf(cell[ts := row])[t] ==
                          if StopsOf(cell)[t].end.None? then StopsOf(cell)[t].(end := Some(ts)) else StopsOf(cell)[t]
    ensures ts in StopsOf(cell[ts := row]) <==> row.state != PRODUCING
    ensures row.state != PRODUCING ==>
              StopsOf(cell[ts := row])[ts] ==
              StopRow(None, row.state, StationOfOrigin(row.origin), row.fault, CauseOf(row))
  {
    forall t | t in cell
      ensures NextEvent(cell[ts := row], t) == if NextEvent(cell, t).Some? then NextEvent(cell, t) else Some(ts)
    {
      NextAfterAppend(cell, ts, row, t);
    }
    assert Later(cell[ts := row], ts) == {};
  }

  lemma OpenIsLatest(db: Db)
    requires Consistent(db)
    ensures LatestCell(db.cell).None? ==> OpenStarts(db.stops) == {}
    ensures LatestCell(db.cell).Some? ==>
              OpenStarts(db.stops) == if LatestCell(db.cell).value.row.state == PRODUCING then {}
                  else {LatestCell(db.cell).value.ts}
    ensures OpenStart(db.stops) == if LatestCell(db.cell).Some? && LatestCell(db.cell).value.row.state != PRODUCING
                             then Some(LatestCell(db.cell).value.ts) else None
  {
    StopsAreDisjoint(db);
    if LatestCell(db.cell).Some? {
      var ts := LatestCell(db.cell).value.ts;
      assert Later(db.cell, ts) == {};
      assert db.cell[ts].state != PRODUCING ==> ts in OpenStarts(db.stops);
    }
  }

  lemma MaxAfterInsert(s: set<int>, ts: int)
    requires forall t :: t in s ==> t < ts
    ensures MaxOf(s + {ts}) == Some(ts)
  {
    assert ts in s + {ts};
  }

  // ------------------------------------------------------------ each part of apply

  /** The tracker's memory is what the database would give back. */
  ghost predicate InStep(mem: Memory, db: Db) { Consistent(db) && mem == MemoryOf(db) }

  lemma AppendKeepsDiffering(cell: map<int, CellRow>, ts: int, row: CellRow)
    requires After(cell, ts) && NoRepeat(cell)
    requires cell != map[] ==> cell[MaxOf(cell.Keys).value] != row
    ensures NoRepeat(cell[ts := row])
  {
    var grown := cell[ts := row];
    forall t | t in grown && NextEvent(grown, t).Some? ensures grown[NextEvent(grown, t).value] != grown[t] {
      assert Later(grown, ts) == {};
      if t != ts {
        NextAfterAppend(cell, ts, row, t);
        if NextEvent(cell, t).None? {
          assert Later(cell, t) == {};
          assert MaxOf(cell.Keys).value !in Later(cell, t);
        }
      }
    }
  }

  /** The stops table after a transition, as a function of the one before. */
  function Closed(stops: map<int, StopRow>, open: Option<int>, ts: int): map<int, StopRow> {
    if open.Some? && open.value in stops && stops[open.value].end.None? && open.value < ts
    then stops[open.value := stops[open.value].(end := Some(ts))] else stops
  }

  function Switched(stops: map<int, StopRow>, open: Option<int>, ts: int, row: CellRow): map<int, StopRow> {
    var closed := Closed(stops, open, ts);
    if row.state == PRODUCING then closed
    else Insert(closed, ts, StopRow(None, row.state, StationOfOrigin(row.origin), row.fault, CauseOf(row)))
  }

  lemma TransitionTables(mem: Memory, db: Db, ts: int, row: CellRow)
    requires Transition(mem, ts, row).Success?
    ensures var out := Transition(mem, ts, row).value;
            && ApplyOps(db, out.ops) ==
               db.(cell := Insert(db.cell, ts, row), stops := Switched(db.stops, mem.openStop, ts, row))
            && out.mem == mem.(lastCell := Some(LastCell(ts, row)),
                               openStop := if row.state == PRODUCING then None else Some(ts))
  {
    var event := [CellEvent(ts, row)];
    var close := if mem.openStop.Some? then [CloseStop(mem.openStop.value, ts)] else [];
    var opening := OpenStop(ts, row.state, StationOfOrigin(row.origin), row.fault, CauseOf(row));
    var open := if row.state == PRODUCING then [] else [opening];
    assert Transition(mem, ts, row).value.ops == event + close + open;
    TablesAfter(db, ts, row, mem.openStop, event, close, open);
  }

  lemma TablesAfter(db: Db, ts: int, row: CellRow, was: Option<int>, event: seq<Op>, close: seq<Op>, open: seq<Op>)
    requires event == [CellEvent(ts, row)] && close == (if was.Some? then [CloseStop(was.value, ts)] else [])
    requires open == if row.state == PRODUCING then []
                     else [OpenStop(ts, row.state, StationOfOrigin(row.origin), row.fault, CauseOf(row))]
    ensures ApplyOps(db, event + close + open)
            == db.(cell := Insert(db.cell, ts, row), stops := Switched(db.stops, was, ts, row))
  {
    var db1 := ApplyOps(db, event);
    ApplyOpsAppend(db, event, close);
    ApplyOpsAppend(db, event + close, open);
    ApplyOne(db, event[0]);
    AfterClose(db1, was, ts, close);
    if row.state != PRODUCING { ApplyOne(ApplyOps(db1, close), open[0]); }
  }

  lemma AfterClose(db: Db, was: Option<int>, ts: int, close: seq<Op>)
    requires close == if was.Some? then [CloseStop(was.value, ts)] else []
    ensures ApplyOps(db, close) == db.(stops := Closed(db.stops, was, ts))
  {
    if was.Some? { ApplyOne(db, close[0]); }
  }

  lemma SwitchedIsStopsOf(cell: map<int, CellRow>, ts: int, row: CellRow)
    requires After(cell, ts)
    ensures Switched(StopsOf(cell), OpenStart(StopsOf(cell)), ts, row) == StopsOf(cell[ts := row])
  {
    var stops, expected := StopsOf(cell), StopsOf(cell[ts := row]);
    AppendedStops(cell, ts, row);
    OneOpenStop(cell);
    SwitchedRows(stops, OpenStart(stops), ts, row, expected);
  }

  lemma SwitchedRows(stops: map<int, StopRow>, open: Option<int>, ts: int, row: CellRow,
                     expected: map<int, StopRow>)
    requires forall t :: t in stops ==> t < ts
    requires open == OpenStart(stops) && forall t :: t in OpenStarts(stops) ==> open == Some(t)
    requires expected.Keys == if row.state == PRODUCING then stops.Keys else stops.Keys + {ts}
    requires forall t :: t in stops ==>
               expected[t] == if stops[t].end.None? then stops[t].(end := Some(ts)) else stops[t]
    requires row.state != PRODUCING ==>
               expected[ts] == StopRow(None, row.state, StationOfOrigin(row.origin), row.fault, CauseOf(row))
    ensures Switched(stops, open, ts, row) == expected
  {
    var after := Switched(stops, open, ts, row);
    assert after.Keys == expected.Keys;
    forall t | t in expected ensures after[t] == expected[t] {
      if t != ts { assert stops[t].end.None? ==> t in OpenStarts(stops); }
    }
  }

  lemma OneOpenStop(cell: map<int, CellRow>)
    ensures forall t :: t in OpenStarts(StopsOf(cell)) ==> OpenStart(StopsOf(cell)) == Some(t)
  {
    forall t, u | t in OpenStarts(StopsOf(cell)) && u in OpenStarts(StopsOf(cell)) ensures t == u {
      assert t < u ==> u in Later(cell, t);
      assert u < t ==> t in Later(cell, u);
    }
  }

  lemma TransitionInStep(mem: Memory, db: Db, ts: int, row: CellRow)
    requires InStep(mem, db)
    requires mem.lastCell.Some? ==> mem.lastCell.value.row != row && mem.lastCell.value.ts < ts
    requires Transition(mem, ts, row).Success?
    ensures var out := Transition(mem, ts, row).value;
            var after := ApplyOps(db, out.ops);
            && InStep(out.mem, after)
            && after == db.(cell := db.cell[ts := row], stops := after.stops)
  {
    assert After(db.cell, ts);
    TransitionTables(mem, db, ts, row);
    SwitchedIsStopsOf(db.cell, ts, row);
    AppendKeepsDiffering(db.cell, ts, row);
    var after := ApplyOps(db, Transition(mem, ts, row).value.ops);
    assert after.cell == db.cell[ts := row];
    assert after.cell.Keys == db.cell.Keys + {ts};
    MaxAfterInsert(db.cell.Keys, ts);
    OpenIsLatest(after);
  }

  lemma CellInStep(mem: Memory, db: Db, latest: Latest, ts: int, changed: set<Tag>)
    requires InStep(mem, db)
    requires CellPart(mem, latest, ts, changed).Success?
    ensures var out := CellPart(mem, latest, ts, changed).value;
            var after := ApplyOps(db, out.ops);
            && InStep(out.mem, after)
            && after == db.(cell := after.cell, stops := after.stops)
  {
    var out := CellPart(mem, latest, ts, changed).value;
    if out.ops != [] {
      TransitionInStep(mem, db, ts, CellValues(latest));
    }
  }

  lemma LatestAfterInsert(stations: map<Station, map<int, StationRow>>, st: Station, ts: int, row: StationRow)
    requires forall t :: t in StationRows(stations, st) ==> t < ts
    ensures LatestStations(stations[st := Insert(StationRows(stations, st), ts, row)])
            == LatestStations(stations)[st := LastStation(ts, row)]
  {
    var rows := StationRows(stations, st);
    var after := stations[st := Insert(rows, ts, row)];
    assert StationRows(after, st) == rows[ts := row];
    assert rows[ts := row].Keys == rows.Keys + {ts};
    MaxAfterInsert(rows.Keys, ts);
    forall other: Station | other != st ensures StationRows(after, other) == StationRows(stations, other) {}
    var l, r := LatestStations(after), LatestStations(stations)[st := LastStation(ts, row)];
    forall s: Station ensures s in l <==> s in r { assert s == OP10 || s == OP20 || s == OP30; }
  }

  lemma StationInStep(mem: Memory, db: Db, latest: Latest, ts: int, changed: set<Tag>, st: Station)
    requires InStep(mem, db)
    ensures var out := StationPart(mem, latest, ts, changed, st);
            var after := ApplyOps(db, out.ops);
            InStep(out.mem, after) && after == db.(stations := after.stations)
  {
    var out := StationPart(mem, latest, ts, changed, st);
    if out.ops != [] {
      var op := StationEvent(st, ts, StationValues(latest, st));
      ApplyOne(db, op);
      var rows := StationRows(db.stations, st);
      assert st == OP10 || st == OP20 || st == OP30;
      forall t | t in rows ensures t < ts {
        assert t in rows.Keys;
        assert LatestStation(rows).Some? && st in mem.lastStation;
      }
      LatestAfterInsert(db.stations, st, ts, StationValues(latest, st));
    }
  }

  lemma {:induction false} StationsInStep(mem: Memory, db: Db, latest: Latest, ts: int, changed: set<Tag>, n: nat)
    requires InStep(mem, db) && n <= 3
    ensures var out := StationParts(mem, latest, ts, changed, n);
            var after := ApplyOps(db, out.ops);
            InStep(out.mem, after) && after == db.(stations := after.stations)
  {
    if n > 0 {
      StationsInStep(mem, db, latest, ts, changed, n - 1);
      var before := StationParts(mem, latest, ts, changed, n - 1);
      var here := StationPart(before.mem, latest, ts, changed, STATIONS[n - 1]);
      StationInStep(before.mem, ApplyOps(db, before.ops), latest, ts, changed, STATIONS[n - 1]);
      ApplyOpsAppend(db, before.ops, here.ops);
    }
  }

  lemma CounterInStep(mem: Memory, db: Db, latest: Latest, ts: int, changed: set<Tag>)
    requires InStep(mem, db)
    ensures var out := CounterPart(mem, latest, ts, changed);
            var after := ApplyOps(db, out.ops);
            InStep(out.mem, after) && after == db.(counters := after.counters)
  {
    var counter := CounterPart(mem, latest, ts, changed);
    if counter.ops != [] {
      var after := ApplyOp(db, counter.ops[0]);
      assert ApplyOps(db, counter.ops) == after;
      assert after.counters.Keys == db.counters.Keys + {ts};
      MaxAfterInsert(db.counters.Keys, ts);
      assert LatestStations(after.stations) == LatestStations(db.stations);
    }
  }

  lemma WeldInStep(mem: Memory, db: Db, latest: Latest, ts: int, changed: set<Tag>)
    requires InStep(mem, db)
    ensures var out := WeldPart(mem, latest, ts, changed);
            var after := ApplyOps(db, out.ops);
            InStep(out.mem, after) && after == db.(welds := after.welds)
  {
    var weld := WeldPart(mem, latest, ts, changed);
    if weld.ops != [] {
      var after := ApplyOp(db, weld.ops[0]);
      assert ApplyOps(db, weld.ops) == after;
      assert after.welds.Keys == db.welds.Keys + {ts};
      MaxAfterInsert(db.welds.Keys, ts);
      assert LatestStations(after.stations) == LatestStations(db.stations);
    }
  }

  /** `resume` would return the tracker's own memory after every committed group, whatever the group. */
  lemma ApplyInStep(t: Tracker, db: Db, g: Group)
    requires InStep(t.mem, db)
    requires Apply(t, g).Success?
    ensures var step := Apply(t, g).value;
            var after := ApplyOps(db, step.ops);
            InStep(step.tracker.mem, after) && after.gaps == db.gaps && after.lastSeen == db.lastSeen
  {
    var changed, latest := Changed(g), Learn(t.latest, g);
    var cell := CellPart(t.mem, latest, g.ts, changed).value;
    CellInStep(t.mem, db, latest, g.ts, changed);
    var db1 := ApplyOps(db, cell.ops);
    var stations := StationParts(cell.mem, latest, g.ts, changed, 3);
    StationsInStep(cell.mem, db1, latest, g.ts, changed, 3);
    var db2 := ApplyOps(db1, stations.ops);
    var counter := CounterPart(stations.mem, latest, g.ts, changed);
    CounterInStep(stations.mem, db2, latest, g.ts, changed);
    var db3 := ApplyOps(db2, counter.ops);
    var weld := WeldPart(counter.mem, latest, g.ts, changed);
    WeldInStep(counter.mem, db3, latest, g.ts, changed);
    ApplyOpsAppend(db, cell.ops, stations.ops);
    ApplyOpsAppend(db, cell.ops + stations.ops, counter.ops);
    ApplyOpsAppend(db, cell.ops + stations.ops + counter.ops, weld.ops);
  }

  lemma {:induction false} ApplyAllInStep(t: Tracker, db: Db, gs: seq<Group>)
    requires InStep(t.mem, db)
    requires ApplyAll(t, gs).Success?
    ensures var step := ApplyAll(t, gs).value;
            var after := ApplyOps(db, step.ops);
            InStep(step.tracker.mem, after) && after.gaps == db.gaps && after.lastSeen == db.lastSeen
    decreases |gs|
  {
    if gs != [] {
      ApplyInStep(t, db, gs[0]);
      var first := Apply(t, gs[0]).value;
      ApplyAllInStep(first.tracker, ApplyOps(db, first.ops), gs[1..]);
      ApplyOpsAppend(db, first.ops, ApplyAll(first.tracker, gs[1..]).value.ops);
    }
  }

  // ------------------------------------------------------------ whole runs

  /** A process and its database. */
  datatype Live = Live(tracker: Tracker, db: Db)

  /** A batch delivered and committed, or a crash between two transactions followed by a restart. */
  datatype Event = Deliver(groups: seq<Group>) | Crash

  function Restart(db: Db): Live {
    match Repair(db)
    case Success(fixed) => Live(Tracker(MemoryOf(fixed), map[]), fixed)
    case Failure(_) => Live(Tracker(MemoryOf(db), map[]), db)
  }

  /** An exception in `apply` ends the process before its batch is committed: it is a crash too. */
  function Next(l: Live, e: Event): Live {
    match e
    case Crash => Restart(l.db)
    case Deliver(gs) =>
      match ApplyAll(l.tracker, gs)
      case Failure(_) => Restart(l.db)
      case Success(step) => Live(step.tracker, ApplyOps(l.db, step.ops))
  }

  function Run(l: Live, es: seq<Event>): Live
    decreases |es|
  {
    if es == [] then l else Run(Next(l, es[0]), es[1..])
  }

  ghost predicate Sound(l: Live) { InStep(l.tracker.mem, l.db) }

  /** The safety net changes nothing on the tables the collector itself writes. */
  lemma RepairIsIdle(db: Db)
    requires Consistent(db)
    ensures Repair(db) == Success(db)
  {
    OpenIsLatest(db);
  }

  /** What the repair does where the stops of the latest event were not all written: as a transition would. */
  lemma RepairSwitches(db: Db, ts: int, row: CellRow, open: Option<int>)
    requires LatestCell(db.cell) == Some(LastCell(ts, row)) && open == OpenStart(db.stops)
    requires (forall t :: t in db.stops ==> t < ts) && Repair(db).Success?
    ensures Repair(db) == Success(db.(stops := Switched(db.stops, open, ts, row)))
  {
    if open.Some? { assert open.value in OpenStarts(db.stops); }
  }

  /** The repair restores exactly the stops table of the events where the latest event was stored but not its own
      stop, whether or not the one before was closed: the row it reopens is that of the event. */
  lemma RepairRestores(db: Db, ts: int, row: CellRow, before: map<int, CellRow>, wasOpen: Option<int>)
    requires After(before, ts) && db.cell == before[ts := row] && Repair(db).Success?
    requires wasOpen == OpenStart(StopsOf(before))
    requires db.stops == StopsOf(before) || db.stops == Closed(StopsOf(before), wasOpen, ts)
    ensures Repair(db) == Success(db.(stops := StopsOf(db.cell)))
  {
    assert db.cell.Keys == before.Keys + {ts};
    MaxAfterInsert(before.Keys, ts);
    SwitchedIsStopsOf(before, ts, row);
    RepairSwitches(db, ts, row, OpenStart(db.stops));
    if db.stops != StopsOf(before) {
      OneOpenStop(before);
      ClosedOnce(StopsOf(before), wasOpen, ts);
    }
  }

  lemma ClosedOnce(stops: map<int, StopRow>, open: Option<int>, ts: int)
    requires open == OpenStart(stops) && (forall t :: t in OpenStarts(stops) ==> open == Some(t))
    requires forall t :: t in stops ==> t < ts
    ensures OpenStart(Closed(stops, open, ts)) == None
  {
    if open.Some? { assert open.value in OpenStarts(stops); }
    forall t ensures t !in OpenStarts(Closed(stops, open, ts)) {
      assert t in OpenStarts(Closed(stops, open, ts)) ==> t in OpenStarts(stops);
    }
  }

  lemma NextKeepsSound(l: Live, e: Event)
    requires Sound(l)
    ensures Sound(Next(l, e))
  {
    RepairIsIdle(l.db);
    if e.Deliver? && ApplyAll(l.tracker, e.groups).Success? {
      ApplyAllInStep(l.tracker, l.db, e.groups);
    }
  }

  /** Over every run with late, reordered or repeated groups and crashes anywhere, the stops stored
      are exactly those of the events stored, and no event repeats its predecessor. */
  lemma {:induction false} StopsMirrorEvents(l: Live, es: seq<Event>)
    requires Sound(l)
    ensures Sound(Run(l, es))
    ensures Run(l, es).db.stops == StopsOf(Run(l, es).db.cell) && NoRepeat(Run(l, es).db.cell)
    decreases |es|
  {
    if es != [] {
      NextKeepsSound(l, es[0]);
      StopsMirrorEvents(Next(l, es[0]), es[1..]);
    }
  }

  /** A new installation: the empty database, and any run from there. */
  lemma FromScratch(es: seq<Event>)
    ensures Sound(Run(Restart(EMPTY_DB), es))
    ensures var db := Run(Restart(EMPTY_DB), es).db;
            && db.stops == StopsOf(db.cell) && NoRepeat(db.cell)
            && (forall s, r :: s in db.stops && r in db.stops && s < r ==>
                  db.stops[s].end.Some? && s < db.stops[s].end.value <= r)
  {
    assert Consistent(EMPTY_DB);
    RepairIsIdle(EMPTY_DB);
    StopsMirrorEvents(Restart(EMPTY_DB), es);
    StopsAreDisjoint(Run(Restart(EMPTY_DB), es).db);
  }

  // ------------------------------------------------------------ history is append-only

  /** Stored events and closed stops are never rewritten; new events are newer than all stored ones. */
  ghost predicate Extends(old_: Db, new_: Db) {
    && (forall t :: t in old_.cell ==> t in new_.cell && new_.cell[t] == old_.cell[t])
    && (forall t, u :: t in old_.cell && u in new_.cell && u !in old_.cell ==> t < u)
    && (forall t :: t in old_.stops && old_.stops[t].end.Some? ==> t in new_.stops && new_.stops[t] == old_.stops[t])
  }

  lemma ExtendsCell(db: Db, after: Db)
    requires Consistent(db) && Consistent(after)
    requires forall t :: t in db.cell ==> t in after.cell && after.cell[t] == db.cell[t]
    requires forall t, u :: t in db.cell && u in after.cell && u !in db.cell ==> t < u
    ensures Extends(db, after)
  {
    forall t | t in db.stops && db.stops[t].end.Some?
      ensures t in after.stops && after.stops[t] == db.stops[t]
    {
      NextIsKept(db.cell, after.cell, t);
    }
  }

  lemma NextIsKept(cell: map<int, CellRow>, grown: map<int, CellRow>, t: int)
    requires forall u :: u in cell ==> u in grown
    requires forall u, v :: u in cell && v in grown && v !in cell ==> u < v
    requires t in cell && NextEvent(cell, t).Some?
    ensures NextEvent(grown, t) == NextEvent(cell, t)
  {
    var n := NextEvent(cell, t).value;
    assert n in Later(grown, t);
    var m := NextEvent(grown, t).value;
    assert m in cell ==> m in Later(cell, t);
    assert m !in cell ==> n < m;
  }

  /** What `apply` emits after the cell's operations. */
  function OtherOps(mem: Memory, latest: Latest, ts: int, changed: set<Tag>): seq<Op> {
    var stations := StationParts(mem, latest, ts, changed, 3);
    var counter := CounterPart(stations.mem, latest, ts, changed);
    stations.ops + counter.ops + WeldPart(counter.mem, latest, ts, changed).ops
  }

  /** The parts of `apply` after the cell's leave events and stops alone. */
  lemma OthersKeepCell(mem: Memory, db: Db, latest: Latest, ts: int, changed: set<Tag>, ops: seq<Op>)
    requires InStep(mem, db)
    requires ops == OtherOps(mem, latest, ts, changed)
    ensures ApplyOps(db, ops).cell == db.cell && ApplyOps(db, ops).stops == db.stops
  {
    var stations := StationParts(mem, latest, ts, changed, 3);
    StationsInStep(mem, db, latest, ts, changed, 3);
    var db1 := ApplyOps(db, stations.ops);
    var counter := CounterPart(stations.mem, latest, ts, changed);
    CounterInStep(stations.mem, db1, latest, ts, changed);
    WeldInStep(counter.mem, ApplyOps(db1, counter.ops), latest, ts, changed);
    ApplyOpsAppend(db, stations.ops, counter.ops);
    ApplyOpsAppend(db, stations.ops + counter.ops, WeldPart(counter.mem, latest, ts, changed).ops);
  }

  lemma CellExtends(mem: Memory, db: Db, latest: Latest, ts: int, changed: set<Tag>, after: Db)
    requires InStep(mem, db) && CellPart(mem, latest, ts, changed).Success?
    requires after == ApplyOps(db, CellPart(mem, latest, ts, changed).value.ops)
    ensures Extends(db, after)
  {
    CellInStep(mem, db, latest, ts, changed);
    if CellPart(mem, latest, ts, changed).value.ops != [] {
      TransitionInStep(mem, db, ts, CellValues(latest));
      ExtendsCell(db, after);
    }
  }

  lemma OpsInParts(t: Tracker, g: Group, changed: set<Tag>, latest: Latest, cell: Outcome)
    requires Apply(t, g).Success? && changed == Changed(g) && latest == Learn(t.latest, g)
    requires cell == CellPart(t.mem, latest, g.ts, changed).value
    ensures Apply(t, g).value.ops == cell.ops + OtherOps(cell.mem, latest, g.ts, changed)
  {
  }

  lemma ApplyExtends(t: Tracker, db: Db, g: Group)
    requires InStep(t.mem, db)
    requires Apply(t, g).Success?
    ensures Extends(db, ApplyOps(db, Apply(t, g).value.ops))
  {
    var changed, latest := Changed(g), Learn(t.latest, g);
    var cell := CellPart(t.mem, latest, g.ts, changed).value;
    var others := OtherOps(cell.mem, latest, g.ts, changed);
    CellExtends(t.mem, db, latest, g.ts, changed, ApplyOps(db, cell.ops));
    CellInStep(t.mem, db, latest, g.ts, changed);
    OthersKeepCell(cell.mem, ApplyOps(db, cell.ops), latest, g.ts, changed, others);
    OpsInParts(t, g, changed, latest, cell);
    ApplyOpsAppend(db, cell.ops, others);
  }

  lemma {:induction false} ApplyAllExtends(t: Tracker, db: Db, gs: seq<Group>)
    requires InStep(t.mem, db)
    requires ApplyAll(t, gs).Success?
    ensures Extends(db, ApplyOps(db, ApplyAll(t, gs).value.ops))
    decreases |gs|
  {
    if gs != [] {
      ApplyInStep(t, db, gs[0]);
      ApplyExtends(t, db, gs[0]);
      var first := Apply(t, gs[0]).value;
      var db1 := ApplyOps(db, first.ops);
      ApplyAllExtends(first.tracker, db1, gs[1..]);
      ApplyOpsAppend(db, first.ops, ApplyAll(first.tracker, gs[1..]).value.ops);
    }
  }

  lemma {:induction false} HistoryIsAppendOnly(l: Live, es: seq<Event>)
    requires Sound(l)
    ensures Extends(l.db, Run(l, es).db)
    decreases |es|
  {
    if es != [] {
      var e := es[0];
      NextKeepsSound(l, e);
      RepairIsIdle(l.db);
      if e.Deliver? && ApplyAll(l.tracker, e.groups).Success? {
        ApplyAllExtends(l.tracker, l.db, e.groups);
      }
      HistoryIsAppendOnly(Next(l, e), es[1..]);
    }
  }
}
