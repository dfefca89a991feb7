/** backend/app/collector/store.py: the row meaning of each statement, the atomic batch, and resume. */
module Storage {
  import opened Basics
  import opened Facts
  import opened Tracking

  function StationRows(stations: map<Station, map<int, StationRow>>, st: Station): map<int, StationRow> {
    if st in stations then stations[st] else map[]
  }

  /** INSERT .. ON CONFLICT DO NOTHING. */
  function Insert<V>(table: map<int, V>, key: int, row: V): map<int, V> {
    if key in table then table else table[key := row]
  }

  function ApplyOp(db: Db, op: Op): Db {
    match op
    case CellEvent(ts, row) => db.(cell := Insert(db.cell, ts, row))
    case StationEvent(st, ts, row) =>
      db.(stations := db.stations[st := Insert(StationRows(db.stations, st), ts, row)])
    case OpenStop(start, state, station, fault, cause) =>
      db.(stops := Insert(db.stops, start, StopRow(None, state, station, fault, cause)))
    case CloseStop(start, end) =>
      if start in db.stops && db.stops[start].end.None? && start < end
      then db.(stops := db.stops[start := db.stops[start].(end := Some(end))]) else db
    case CounterSample(ts, row) => db.(counters := Insert(db.counters, ts, row))
    case WeldSample(ts, row) => db.(welds := Insert(db.welds, ts, row))
    case OpenGap(start) => db.(gaps := Insert(db.gaps, start, None))
    case CloseGap(start, end) =>
      if start in db.gaps && db.gaps[start].None? && start < end
      then db.(gaps := db.gaps[start := Some(end)]) else db
    case ClosedGap(start, end) => db.(gaps := Insert(db.gaps, start, Some(end)))
  }

  function ApplyOps(db: Db, ops: seq<Op>): Db
    decreases |ops|
  {
    if ops == [] then db else ApplyOps(ApplyOp(db, ops[0]), ops[1..])
  }

  lemma {:induction false} ApplyOpsAppend(db: Db, a: seq<Op>, b: seq<Op>)
    ensures ApplyOps(db, a + b) == ApplyOps(ApplyOps(db, a), b)
    decreases |a|
  {
    if a == [] {
      assert a + b == b;
    } else {
      assert (a + b)[1..] == a[1..] + b;
      ApplyOpsAppend(ApplyOp(db, a[0]), a[1..], b);
    }
  }

  lemma ApplyOne(db: Db, a: Op)
    ensures ApplyOps(db, [a]) == ApplyOp(db, a)
  {
    assert [a][1..] == [];
    assert ApplyOps(ApplyOp(db, a), []) == ApplyOp(db, a);
  }

  /** last_seen_ts = GREATEST(stored, new). */
  function SeenUpTo(db: Db, seen: Option<int>): Db {
    if seen.None? then db
    else db.(lastSeen := Some(if db.lastSeen.Some? then Max(db.lastSeen.value, seen.value) else seen.value))
  }

  // ------------------------------------------------------------ resume

  function OpenStarts(stops: map<int, StopRow>): set<int> { set t | t in stops && stops[t].end.None? }

  /** The start of the open stop; the schema allows one open stop at most. */
  function OpenStart(stops: map<int, StopRow>): Option<int> { MaxOf(OpenStarts(stops)) }

  function LatestCell(cell: map<int, CellRow>): Option<LastCell> {
    var ts := MaxOf(cell.Keys);
    if ts.None? then None else Some(LastCell(ts.value, cell[ts.value]))
  }

  function LatestStation(rows: map<int, StationRow>): Option<LastStation> {
    var ts := MaxOf(rows.Keys);
    if ts.None? then None else Some(LastStation(ts.value, rows[ts.value]))
  }

  function LatestStations(stations: map<Station, map<int, StationRow>>): map<Station, LastStation> {
    map st: Station | st in {OP10, OP20, OP30} && LatestStation(StationRows(stations, st)).Some? ::
      LatestStation(StationRows(stations, st)).value
  }

  /** The state a restarted tracker begins with. */
  function MemoryOf(db: Db): Memory {
    Memory(LatestCell(db.cell), LatestStations(db.stations), OpenStart(db.stops), MaxOf(db.counters.Keys),
        MaxOf(db.welds.Keys))
  }

  // ------------------------------------------------------------ repair

  function CloseStray(db: Db): Db {
    var event, open := LatestCell(db.cell), OpenStart(db.stops);
    if event.Some? && open.Some? && (event.value.row.state == PRODUCING || open.value != event.value.ts)
    then ApplyOp(db, CloseStop(open.value, Max(event.value.ts, open.value))) else db
  }

  /** `_repair_open_stop`; it fails where `suggest_cause` raises. */
  function Repair(db: Db): Result<Db> {
    var event, open := LatestCell(db.cell), OpenStart(db.stops);
    if event.None? then Success(db)
    else
      var ts, row := event.value.ts, event.value.row;
      var closed := CloseStray(db);
      var stillOpen := open.Some? && !((row.state == PRODUCING || open.value != ts) && open.value < ts);
      if row.state != PRODUCING && !stillOpen && ts !in closed.stops then
        match SuggestCause(row.state, row.fault)
        case Failure(e) => Failure(e)
        case Success(cause) =>
          Success(ApplyOp(closed, OpenStop(ts, row.state, StationOfOrigin(row.origin), row.fault, cause)))
      else Success(closed)
  }

  /** The stops table agrees with the latest cell event about which stop is open. */
  ghost predicate OpenStopAgrees(db: Db) {
    LatestCell(db.cell).Some? ==>
      OpenStarts(db.stops) == if LatestCell(db.cell).value.row.state == PRODUCING then {}
          else {LatestCell(db.cell).value.ts}
  }

  /** What must hold before the repair: no open stop at or past the event it should give way to,
      and no closed row in the place of the stop to reopen. */
  predicate Repairable(db: Db) {
    var event, open := LatestCell(db.cell), OpenStart(db.stops);
    event.Some? ==>
      var ts, producing := event.value.ts, event.value.row.state == PRODUCING;
      && (open.Some? ==> open.value < ts || (open.value == ts && !producing))
      && (!producing && open != Some(ts) ==> ts !in db.stops)
  }

  lemma OneOpen(db: Db)
    requires |OpenStarts(db.stops)| <= 1
    ensures OpenStart(db.stops).Some? ==> OpenStarts(db.stops) == {OpenStart(db.stops).value}
    ensures OpenStart(db.stops).None? ==> OpenStarts(db.stops) == {}
  {
    var open := OpenStart(db.stops);
    if open.Some? {
      var rest := OpenStarts(db.stops) - {open.value};
      assert |rest| == 0;
      assert OpenStarts(db.stops) == rest + {open.value};
    }
  }

  /** The repair makes the open stop agree with the latest event exactly on the repairable tables. */
  lemma RepairExact(db: Db)
    requires |OpenStarts(db.stops)| <= 1
    requires Repair(db).Success?
    ensures OpenStopAgrees(Repair(db).value) <==> Repairable(db)
  {
    OneOpen(db);
    if LatestCell(db.cell).Some? {
      var ts, row := LatestCell(db.cell).value.ts, LatestCell(db.cell).value.row;
      var fixed, closed := Repair(db).value, CloseStray(db);
      assert LatestCell(fixed.cell) == LatestCell(db.cell);
      StrayClosed(db);
      if row.state != PRODUCING && ts !in closed.stops && OpenStarts(closed.stops) == {} {
        Reopened(closed.stops, fixed.stops, ts);
      }
    }
  }

  lemma Reopened(closed: map<int, StopRow>, fixed: map<int, StopRow>, ts: int)
    requires OpenStarts(closed) == {} && ts in fixed && fixed[ts].end.None? && fixed == closed[ts := fixed[ts]]
    ensures OpenStarts(fixed) == {ts}
  {
    forall t ensures t in OpenStarts(fixed) <==> t == ts {
      assert t in fixed && fixed[t].end.None? ==> t == ts || t in OpenStarts(closed);
    }
  }

  /** The latest event says PRODUCING at 10, a stop is open since 20: the repair leaves it open. */
  lemma RepairMissesLaterStop(db: Db)
    requires db.cell == map[10 := CellRow(PRODUCING, 0, 0)]
    requires db.stops == map[20 := StopRow(None, FAULT, AtCell, 0, None)]
    ensures Repair(db) == Success(db) && !OpenStopAgrees(db)
  {
    assert db.cell.Keys == {10};
    assert OpenStarts(db.stops) == {20};
  }

  /** The stray stop is closed exactly when it starts before the event. */
  lemma StrayClosed(db: Db)
    requires |OpenStarts(db.stops)| <= 1 && LatestCell(db.cell).Some?
    ensures var event, open := LatestCell(db.cell).value, OpenStart(db.stops);
            OpenStarts(CloseStray(db).stops) == if open.Some? && open.value < event.ts then {} else OpenStarts(db.stops)
    ensures CloseStray(db).stops.Keys == db.stops.Keys
  {
    OneOpen(db);
    var closed := CloseStray(db);
    forall t
      ensures t in OpenStarts(closed.stops) ==>
                t in OpenStarts(db.stops) && t in closed.stops && closed.stops[t].end.None?
    {
    }
  }

  // ------------------------------------------------------------ the class

  /** The operations done are in the tables, the run that follows them is of one type. */
  ghost predicate Batched(start: Db, done: seq<Op>, run: seq<Op>, db: Db) {
    db == ApplyOps(start, done) && forall k :: 0 <= k < |run| ==> SameType(run[k], run[0])
  }

  lemma BatchStarts(start: Db, done: seq<Op>, run: seq<Op>, db: Db)
    requires Batched(start, done, run, db)
    ensures Batched(start, done + run, [], ApplyOps(db, run))
  {
    ApplyOpsAppend(start, done, run);
  }

  lemma BatchGrows(ops: seq<Op>, i: nat, done: seq<Op>, run: seq<Op>)
    requires i < |ops| && done + run == ops[..i]
    ensures done + (run + [ops[i]]) == ops[..i + 1]
  {
    assert ops[..i + 1] == ops[..i] + [ops[i]];
  }

  class CollectorStore {
    var db: Db

    constructor (initial: Db)
      ensures db == initial
    {
      db := initial;
    }

    /** One transaction: runs of operations of one type are sent together, in order. */
    method Apply(ops: seq<Op>, seen: Option<int>)
      modifies this
      ensures db == SeenUpTo(ApplyOps(old(db), ops), seen)
    {
      if ops == [] && seen.None? { return; }
      var run: seq<Op> := [];
      ghost var start, done := db, [];
      for i := 0 to |ops|
        invariant done + run == ops[..i] && Batched(start, done, run, db)
      {
        if run != [] && !SameType(ops[i], run[0]) {
          BatchStarts(start, done, run, db);
          Flush(run);
          done, run := done + run, [];
        }
        BatchGrows(ops, i, done, run);
        run := run + [ops[i]];
      }
      BatchStarts(start, done, run, db);
      assert ops[..|ops|] == ops;
      Flush(run);
      db := SeenUpTo(db, seen);
    }

    method Flush(rows: seq<Op>)
      requires forall k :: 0 <= k < |rows| ==> SameType(rows[k], rows[0])
      modifies this
      ensures db == ApplyOps(old(db), rows)
    {
      for i := 0 to |rows|
        invariant db == ApplyOps(old(db), rows[..i])
      {
        assert rows[..i + 1] == rows[..i] + [rows[i]];
        ApplyOpsAppend(old(db), rows[..i], [rows[i]]);
        db := ApplyOp(db, rows[i]);
      }
      assert rows[..|rows|] == rows;
    }

    /** Closes a stray open stop, then reopens the stop of the latest event; an exception rolls back. */
    method RepairOpenStop() returns (r: Result<bool>)
      modifies this
      ensures r.Failure? <==> Repair(old(db)).Failure?
      ensures if r.Failure? then db == old(db) && r.error == Repair(db).error else Repair(old(db)) == Success(db)
    {
      var saved, event, open := db, LatestCell(db.cell), OpenStart(db.stops);
      if event.None? { return Success(true); }
      var ts, row := event.value.ts, event.value.row;
      var producing := row.state == PRODUCING;
      if open.Some? && (producing || open.value != ts) {
        db := ApplyOp(db, CloseStop(open.value, Max(ts, open.value)));
        if ts > open.value { open := None; }
      }
      if !producing && open.None? && ts !in db.stops {
        var cause := SuggestCause(row.state, row.fault);
        if cause.Failure? {
          db := saved;
          return Failure(cause.error);
        }
        db := ApplyOp(db, OpenStop(ts, row.state, StationOfOrigin(row.origin), row.fault, cause.value));
      }
      r := Success(true);
    }

    /** Repair, then read the state to resume from. */
    method Resume() returns (r: Result<(Memory, Option<int>, Option<int>)>)
      modifies this
      ensures r.Failure? <==> Repair(old(db)).Failure?
      ensures r.Failure? ==> db == old(db)
      ensures r.Success? ==> Repair(old(db)) == Success(db)
      ensures r.Success? ==> r.value.0 == MemoryOf(db) && r.value.1 == db.lastSeen
      ensures r.Success? ==> r.value.2 == MaxOf(set t | t in db.gaps && db.gaps[t].None?)
    {
      var repaired := RepairOpenStop();
      if repaired.Failure? { return Failure(repaired.error); }
      var lastStation := ReadStations();
      var mem := Memory(LatestCell(db.cell), lastStation, OpenStart(db.stops), MaxOf(db.counters.Keys),
          MaxOf(db.welds.Keys));
      r := Success((mem, db.lastSeen, MaxOf(set t | t in db.gaps && db.gaps[t].None?)));
    }

    method ReadStations() returns (lastStation: map<Station, LastStation>)
      ensures lastStation == LatestStations(db.stations)
    {
      lastStation := map[];
      for n := 0 to 3
        invariant forall st :: st in lastStation
                               <==> st in STATIONS[..n] && LatestStation(StationRows(db.stations, st)).Some?
        invariant forall st :: st in lastStation
                               ==> lastStation[st] == LatestStation(StationRows(db.stations, st)).value
      {
        var row := LatestStation(StationRows(db.stations, STATIONS[n]));
        assert STATIONS[..n + 1] == STATIONS[..n] + [STATIONS[n]];
        if row.Some? { lastStation := lastStation[STATIONS[n] := row.value]; }
      }
      assert STATIONS[..3] == STATIONS;
    }
  }

  predicate SameType(a: Op, b: Op) {
    match a
    case CellEvent(_, _) => b.CellEvent? || b.StationEvent?
    case StationEvent(_, _, _) => b.CellEvent? || b.StationEvent?
    case OpenStop(_, _, _, _, _) => b.OpenStop?
    case CloseStop(_, _) => b.CloseStop?
    case CounterSample(_, _) => b.CounterSample?
    case WeldSample(_, _) => b.WeldSample?
    case OpenGap(_) => b.OpenGap?
    case CloseGap(_, _) => b.CloseGap?
    case ClosedGap(_, _) => b.ClosedGap?
  }
}
