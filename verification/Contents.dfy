/** What the tables hold, told from the stream of groups alone: which rows there are, and every value in them. */
module Contents {
  import opened Basics
  import opened Facts
  import opened Tracking
  import opened Storage
  import opened History
  import opened Restarting
  import opened Transparency

  // ------------------------------------------------------------ what a stream says

  function AllBut(gs: seq<Group>): seq<Group>
    requires gs != []
  {
    gs[..|gs| - 1]
  }

  function Newest(gs: seq<Group>): Group
    requires gs != []
  {
    gs[|gs| - 1]
  }

  /** The value of a tag after a stream: the last one any group brought. */
  function LastValue(gs: seq<Group>, tag: Tag): Option<TagValue>
    decreases |gs|
  {
    if gs == [] then None
    else if tag in Newest(gs).values then Some(Newest(gs).values[tag])
    else LastValue(AllBut(gs), tag)
  }

  function CellTold(gs: seq<Group>): Option<CellRow> {
    var state, fault, origin := LastValue(gs, CellState), LastValue(gs, CellFault), LastValue(gs, CellOrigin);
    if state.None? || fault.None? || origin.None? then None
    else Some(CellRow(state.value.ToInt(), fault.value.ToInt(), origin.value.ToInt()))
  }

  function StationTold(gs: seq<Group>, st: Station): Option<StationRow> {
    var state, fault := LastValue(gs, StationState(st)), LastValue(gs, StationFault(st));
    if state.None? || fault.None? then None else Some(StationRow(state.value.ToInt(), fault.value.ToInt()))
  }

  function CountsTold(gs: seq<Group>): Option<CounterRow> {
    var good, scrap := LastValue(gs, Good), LastValue(gs, Scrap);
    var cycle, last := LastValue(gs, CycleTime), LastValue(gs, LastCycle);
    if good.None? || scrap.None? || cycle.None? || last.None? then None
    else Some(CounterRow(good.value.ToInt(), scrap.value.ToInt(), cycle.value.ToReal(), last.value.ToReal()))
  }

  function WeldTold(gs: seq<Group>): Option<WeldRow> {
    var current, points, ok := LastValue(gs, WeldCurrent), LastValue(gs, WeldPoints), LastValue(gs, WeldOk);
    if current.None? || points.None? || ok.None? then None
    else Some(WeldRow(current.value.ToReal(), points.value.ToInt(), ok.value.ToBool()))
  }

  /** The row the i-th group leaves in each table, if it leaves one: an event where the values of the cell
      (or of a station) become known or change, a sample where a counter (or a weld current) is brought and
      the rest is known. */
  function CellRowAt(gs: seq<Group>, i: nat): Option<CellRow>
    requires i < |gs|
  {
    if CellTold(gs[..i + 1]) == CellTold(gs[..i]) then None else CellTold(gs[..i + 1])
  }

  function StationRowAt(gs: seq<Group>, st: Station, i: nat): Option<StationRow>
    requires i < |gs|
  {
    if StationTold(gs[..i + 1], st) == StationTold(gs[..i], st) then None else StationTold(gs[..i + 1], st)
  }

  function CounterRowAt(gs: seq<Group>, i: nat): Option<CounterRow>
    requires i < |gs|
  {
    if Good in gs[i].values || Scrap in gs[i].values then CountsTold(gs[..i + 1]) else None
  }

  function WeldRowAt(gs: seq<Group>, i: nat): Option<WeldRow>
    requires i < |gs|
  {
    if WeldCurrent in gs[i].values then WeldTold(gs[..i + 1]) else None
  }

  /** The rows of a table are those left by the groups, at their timestamps, and no others. */
  ghost predicate Holds<V>(table: map<int, V>, gs: seq<Group>, rows: seq<Option<V>>) {
    && |rows| == |gs|
    && (forall ts :: ts in table ==> exists i :: 0 <= i < |gs| && gs[i].ts == ts)
    && (forall i :: 0 <= i < |gs| ==> (gs[i].ts in table <==> rows[i].Some?))
    && (forall i :: 0 <= i < |gs| && rows[i].Some? ==> table[gs[i].ts] == rows[i].value)
  }

  function CellRows(gs: seq<Group>): seq<Option<CellRow>> {
    seq(|gs|, i requires 0 <= i < |gs| => CellRowAt(gs, i))
  }

  function StationRowsTold(gs: seq<Group>, st: Station): seq<Option<StationRow>> {
    seq(|gs|, i requires 0 <= i < |gs| => StationRowAt(gs, st, i))
  }

  function CounterRows(gs: seq<Group>): seq<Option<CounterRow>> {
    seq(|gs|, i requires 0 <= i < |gs| => CounterRowAt(gs, i))
  }

  function WeldRows(gs: seq<Group>): seq<Option<WeldRow>> {
    seq(|gs|, i requires 0 <= i < |gs| => WeldRowAt(gs, i))
  }

  /** Every row of every table the tracker fills. */
  ghost predicate Told(db: Db, gs: seq<Group>) {
    && Holds(db.cell, gs, CellRows(gs))
    && (forall st :: Holds(StationRows(db.stations, st), gs, StationRowsTold(gs, st)))
    && Holds(db.counters, gs, CounterRows(gs))
    && Holds(db.welds, gs, WeldRows(gs))
  }

  // ------------------------------------------------------------ one more group

  function Put<V>(table: map<int, V>, ts: int, row: Option<V>): map<int, V> {
    if row.Some? then table[ts := row.value] else table
  }

  ghost predicate NewestOf(gs: seq<Group>, front: seq<Group>, g: Group) { gs == front + [g] && Ordered(gs) }

  lemma PutHolds<V>(table: map<int, V>, front: seq<Group>, g: Group, gs: seq<Group>, rows: seq<Option<V>>,
                    row: Option<V>)
    requires NewestOf(gs, front, g) && Holds(table, front, rows)
    ensures Holds(Put(table, g.ts, row), gs, rows + [row])
  {
    var after := Put(table, g.ts, row);
    assert gs[|front|] == g;
    assert forall i :: 0 <= i < |front| ==> gs[i] == front[i] && front[i].ts < g.ts;
    assert g.ts !in table;
  }

  lemma RowsGrow(gs: seq<Group>, front: seq<Group>, g: Group)
    requires gs == front + [g]
    ensures CellRows(gs) == CellRows(front) + [CellRowAt(gs, |front|)]
    ensures forall st :: StationRowsTold(gs, st) == StationRowsTold(front, st) + [StationRowAt(gs, st, |front|)]
    ensures CounterRows(gs) == CounterRows(front) + [CounterRowAt(gs, |front|)]
    ensures WeldRows(gs) == WeldRows(front) + [WeldRowAt(gs, |front|)]
  {
    assert forall i :: 0 <= i <= |front| ==> gs[..i] == front[..i];
    assert forall i :: 0 <= i < |front| ==> gs[i] == front[i];
  }

  /** The memory of the last events is what the stream told so far. */
  ghost predicate RecallsCell(mem: Memory, gs: seq<Group>) {
    CellTold(gs) == if mem.lastCell.Some? then Some(mem.lastCell.value.row) else None
  }

  ghost predicate RecallsStation(mem: Memory, gs: seq<Group>, st: Station) {
    StationTold(gs, st) == if st in mem.lastStation then Some(mem.lastStation[st].row) else None
  }

  /** What the tracker knows are the last values of the stream. */
  ghost predicate Knows(latest: Latest, gs: seq<Group>) {
    && (forall tag :: tag in latest <==> tag != Heartbeat && LastValue(gs, tag).Some?)
    && (forall tag :: tag in latest ==> latest[tag].value == LastValue(gs, tag).value)
    && (gs != [] ==> OlderThan(latest, Newest(gs).ts + 1))
  }

  lemma LearnKnows(latest: Latest, front: seq<Group>, g: Group, gs: seq<Group>)
    requires NewestOf(gs, front, g) && Knows(latest, front) && OlderThan(latest, g.ts)
    ensures Knows(Learn(latest, g), gs)
  {
    assert Newest(gs) == g && AllBut(gs) == front;
  }

  lemma KnownIsTold(latest: Latest, gs: seq<Group>)
    requires Knows(latest, gs)
    ensures CellTold(gs) == if CellKnown(latest) then Some(CellValues(latest)) else None
    ensures forall st :: StationTold(gs, st)
                         == if StationKnown(latest, st) then Some(StationValues(latest, st)) else None
  {
  }

  /** A group that brings none of the tags leaves their last values alone. */
  lemma Untouched(front: seq<Group>, g: Group, gs: seq<Group>, tag: Tag)
    requires gs == front + [g] && tag !in Changed(g) && tag != Heartbeat
    ensures LastValue(gs, tag) == LastValue(front, tag)
  {
    assert Newest(gs) == g && AllBut(gs) == front;
  }

  lemma CellUntouched(front: seq<Group>, g: Group, gs: seq<Group>)
    requires gs == front + [g] && Changed(g) * CELL_TAGS == {}
    ensures CellTold(gs) == CellTold(front)
  {
    assert forall tag :: tag in CELL_TAGS ==> tag !in Changed(g);
    Untouched(front, g, gs, CellState);
    Untouched(front, g, gs, CellFault);
    Untouched(front, g, gs, CellOrigin);
  }

  lemma PrefixOf(gs: seq<Group>, front: seq<Group>, g: Group)
    requires gs == front + [g]
    ensures gs[..|front|] == front && gs[..|front| + 1] == gs && gs[|front|] == g
  {
  }

  /** Nothing is stored at or past a new instant. */
  lemma CellIsBefore(mem: Memory, db: Db, front: seq<Group>, g: Group, gs: seq<Group>)
    requires InStep(mem, db) && NewestOf(gs, front, g) && Holds(db.cell, front, CellRows(front))
    ensures mem.lastCell.Some? ==> mem.lastCell.value.ts < g.ts
  {
    if mem.lastCell.Some? {
      assert mem.lastCell.value.ts in db.cell.Keys;
      var i :| 0 <= i < |front| && front[i].ts == mem.lastCell.value.ts;
      assert gs[i] == front[i] && gs[|front|] == g;
    }
  }

  /** The cell's part of `apply` moves exactly when what is told of the cell moves. */
  lemma CellMoves(mem: Memory, latest: Latest, ts: int, changed: set<Tag>, before: Option<CellRow>,
                  now: Option<CellRow>, out: Outcome)
    requires CellPart(mem, latest, ts, changed) == Success(out)
    requires mem.lastCell.Some? ==> mem.lastCell.value.ts < ts
    requires before == (if mem.lastCell.Some? then Some(mem.lastCell.value.row) else None)
    requires now == (if CellKnown(latest) then Some(CellValues(latest)) else None)
    requires before.Some? ==> now.Some?
    requires changed * CELL_TAGS == {} ==> now == before
    ensures if now == before then out == Outcome(mem, [])
            else now.Some? && Transition(mem, ts, now.value) == Success(out)
    ensures out.mem.lastStation == mem.lastStation
    ensures now == if out.mem.lastCell.Some? then Some(out.mem.lastCell.value.row) else None
  {
  }

  lemma ToldStays(front: seq<Group>, g: Group, gs: seq<Group>)
    requires gs == front + [g]
    ensures CellTold(front).Some? ==> CellTold(gs).Some?
    ensures forall st :: StationTold(front, st).Some? ==> StationTold(gs, st).Some?
  {
    assert Newest(gs) == g && AllBut(gs) == front;
  }

  /** The events table after the cell's part. */
  lemma CellTable(mem: Memory, db: Db, latest: Latest, ts: int, changed: set<Tag>, before: Option<CellRow>,
                  now: Option<CellRow>, out: Outcome)
    requires InStep(mem, db) && CellPart(mem, latest, ts, changed) == Success(out)
    requires mem.lastCell.Some? ==> mem.lastCell.value.ts < ts
    requires if now == before then out == Outcome(mem, [])
             else now.Some? && Transition(mem, ts, now.value) == Success(out)
    requires before == (if mem.lastCell.Some? then Some(mem.lastCell.value.row) else None)
    ensures ApplyOps(db, out.ops).cell == Put(db.cell, ts, if now == before then None else now)
  {
    if now != before { TransitionInStep(mem, db, ts, now.value); }
  }

  lemma CellStep(mem: Memory, db: Db, latest: Latest, front: seq<Group>, g: Group, gs: seq<Group>, out: Outcome)
    requires InStep(mem, db) && NewestOf(gs, front, g) && Knows(latest, gs) && RecallsCell(mem, front)
    requires Holds(db.cell, front, CellRows(front)) && CellPart(mem, latest, g.ts, Changed(g)) == Success(out)
    ensures Holds(ApplyOps(db, out.ops).cell, gs, CellRows(gs)) && RecallsCell(out.mem, gs)
    ensures out.mem.lastStation == mem.lastStation
  {
    var before, now := CellTold(front), CellTold(gs);
    var row := if now == before then None else now;
    CellIsBefore(mem, db, front, g, gs);
    KnownIsTold(latest, gs);
    ToldStays(front, g, gs);
    if Changed(g) * CELL_TAGS == {} { CellUntouched(front, g, gs); }
    CellMoves(mem, latest, g.ts, Changed(g), before, now, out);
    CellTable(mem, db, latest, g.ts, Changed(g), before, now, out);
    PrefixOf(gs, front, g);
    RowsGrow(gs, front, g);
    PutHolds(db.cell, front, g, gs, CellRows(front), row);
  }

  // ------------------------------------------------------------ stations

  /** The rows and the memory of one station are what the stream told of it. */
  ghost predicate StationDone(mem: Memory, db: Db, gs: seq<Group>, st: Station) {
    Holds(StationRows(db.stations, st), gs, StationRowsTold(gs, st)) && RecallsStation(mem, gs, st)
  }

  ghost predicate SameStation(mem: Memory, db: Db, after: Memory, grown: Db, st: Station) {
    && StationRows(grown.stations, st) == StationRows(db.stations, st)
    && (st in after.lastStation <==> st in mem.lastStation)
    && (st in mem.lastStation ==> after.lastStation[st] == mem.lastStation[st])
  }

  lemma StationUntouched(front: seq<Group>, g: Group, gs: seq<Group>, st: Station)
    requires gs == front + [g] && Changed(g) * {StationState(st), StationFault(st)} == {}
    ensures StationTold(gs, st) == StationTold(front, st)
  {
    assert StationState(st) in {StationState(st), StationFault(st)};
    assert StationFault(st) in {StationState(st), StationFault(st)};
    Untouched(front, g, gs, StationState(st));
    Untouched(front, g, gs, StationFault(st));
  }

  lemma StationIsBefore(mem: Memory, db: Db, front: seq<Group>, g: Group, gs: seq<Group>, st: Station)
    requires InStep(mem, db) && NewestOf(gs, front, g)
    requires Holds(StationRows(db.stations, st), front, StationRowsTold(front, st))
    ensures st in mem.lastStation ==> mem.lastStation[st].ts < g.ts
    ensures forall t :: t in StationRows(db.stations, st) ==> t < g.ts
  {
    var rows := StationRows(db.stations, st);
    forall t | t in rows ensures t < g.ts {
      var i :| 0 <= i < |front| && front[i].ts == t;
      assert gs[i] == front[i] && gs[|front|] == g;
    }
    if st in mem.lastStation { assert MaxOf(rows.Keys).value in rows.Keys; }
  }

  lemma StationMoves(mem: Memory, latest: Latest, ts: int, changed: set<Tag>, st: Station,
                     before: Option<StationRow>, now: Option<StationRow>, out: Outcome)
    requires StationPart(mem, latest, ts, changed, st) == out
    requires st in mem.lastStation ==> mem.lastStation[st].ts < ts
    requires before == (if st in mem.lastStation then Some(mem.lastStation[st].row) else None)
    requires now == (if StationKnown(latest, st) then Some(StationValues(latest, st)) else None)
    requires before.Some? ==> now.Some?
    requires changed * {StationState(st), StationFault(st)} == {} ==> now == before
    ensures if now == before then out == Outcome(mem, [])
            else now.Some? && out.ops == [StationEvent(st, ts, now.value)]
                 && out.mem == mem.(lastStation := mem.lastStation[st := LastStation(ts, now.value)])
  {
  }

  lemma StationTable(db: Db, ts: int, st: Station, row: Option<StationRow>, ops: seq<Op>)
    requires ops == (if row.Some? then [StationEvent(st, ts, row.value)] else [])
    requires forall t :: t in StationRows(db.stations, st) ==> t < ts
    ensures StationRows(ApplyOps(db, ops).stations, st) == Put(StationRows(db.stations, st), ts, row)
    ensures forall other :: other != st ==>
              StationRows(ApplyOps(db, ops).stations, other) == StationRows(db.stations, other)
  {
    if row.Some? { ApplyOne(db, ops[0]); }
  }

  lemma StationFollows(mem: Memory, latest: Latest, front: seq<Group>, g: Group, gs: seq<Group>, st: Station)
    requires NewestOf(gs, front, g) && Knows(latest, gs) && RecallsStation(mem, front, st)
    requires st in mem.lastStation ==> mem.lastStation[st].ts < g.ts
    ensures var out := StationPart(mem, latest, g.ts, Changed(g), st);
            var row := if StationTold(gs, st) == StationTold(front, st) then None else StationTold(gs, st);
            && out.ops == (if row.Some? then [StationEvent(st, g.ts, row.value)] else [])
            && RecallsStation(out.mem, gs, st)
  {
    KnownIsTold(latest, gs);
    ToldStays(front, g, gs);
    if Changed(g) * {StationState(st), StationFault(st)} == {} { StationUntouched(front, g, gs, st); }
    StationMoves(mem, latest, g.ts, Changed(g), st, StationTold(front, st), StationTold(gs, st),
                 StationPart(mem, latest, g.ts, Changed(g), st));
  }

  lemma StationStep(mem: Memory, db: Db, latest: Latest, front: seq<Group>, g: Group, gs: seq<Group>, st: Station,
                    out: Outcome, grown: Db)
    requires InStep(mem, db) && NewestOf(gs, front, g) && Knows(latest, gs) && StationDone(mem, db, front, st)
    requires out == StationPart(mem, latest, g.ts, Changed(g), st) && grown == ApplyOps(db, out.ops)
    ensures StationDone(out.mem, grown, gs, st)
    ensures forall other :: other != st ==> SameStation(mem, db, out.mem, grown, other)
  {
    var row := StationRowAt(gs, st, |front|);
    PrefixOf(gs, front, g);
    StationIsBefore(mem, db, front, g, gs, st);
    StationFollows(mem, latest, front, g, gs, st);
    StationTable(db, g.ts, st, row, out.ops);
    RowsGrow(gs, front, g);
    PutHolds(StationRows(db.stations, st), front, g, gs, StationRowsTold(front, st), row);
    forall other | other != st ensures SameStation(mem, db, out.mem, grown, other) {}
  }

  /** The first n stations have taken the new group in, the others are as they were. */
  ghost predicate StationsDone(mem: Memory, db: Db, front: seq<Group>, gs: seq<Group>, n: nat)
    requires n <= 3
  {
    forall k :: 0 <= k < 3 ==> StationDone(mem, db, if k < n then gs else front, STATIONS[k])
  }

  lemma {:induction false} StationsStep(mem: Memory, db: Db, latest: Latest, front: seq<Group>, g: Group,
                                        gs: seq<Group>, n: nat, out: Outcome)
    requires InStep(mem, db) && NewestOf(gs, front, g) && Knows(latest, gs) && n <= 3
    requires StationsDone(mem, db, front, gs, 0)
    requires out == StationParts(mem, latest, g.ts, Changed(g), n)
    ensures StationsDone(out.mem, ApplyOps(db, out.ops), front, gs, n)
  {
    if n > 0 {
      var before := StationParts(mem, latest, g.ts, Changed(g), n - 1);
      StationsStep(mem, db, latest, front, g, gs, n - 1, before);
      StationAfter(mem, db, latest, front, g, gs, n, before, ApplyOps(db, before.ops), out);
    }
  }

  lemma StationAfter(mem: Memory, db: Db, latest: Latest, front: seq<Group>, g: Group, gs: seq<Group>, n: nat,
                     before: Outcome, mid: Db, out: Outcome)
    requires InStep(mem, db) && NewestOf(gs, front, g) && Knows(latest, gs) && 0 < n <= 3
    requires before == StationParts(mem, latest, g.ts, Changed(g), n - 1) && mid == ApplyOps(db, before.ops)
    requires StationsDone(before.mem, mid, front, gs, n - 1)
    requires out == StationParts(mem, latest, g.ts, Changed(g), n)
    ensures StationsDone(out.mem, ApplyOps(db, out.ops), front, gs, n)
  {
    var here := StationPart(before.mem, latest, g.ts, Changed(g), STATIONS[n - 1]);
    var grown := ApplyOps(mid, here.ops);
    StationsInStep(mem, db, latest, g.ts, Changed(g), n - 1);
    ApplyOpsAppend(db, before.ops, here.ops);
    StationStep(before.mem, mid, latest, front, g, gs, STATIONS[n - 1], here, grown);
    NextStation(before.mem, mid, here.mem, grown, front, gs, n);
  }

  lemma NextStation(mem: Memory, db: Db, after: Memory, grown: Db, front: seq<Group>, gs: seq<Group>, n: nat)
    requires 0 < n <= 3 && StationsDone(mem, db, front, gs, n - 1)
    requires StationDone(after, grown, gs, STATIONS[n - 1])
    requires forall other :: other != STATIONS[n - 1] ==> SameStation(mem, db, after, grown, other)
    ensures StationsDone(after, grown, front, gs, n)
  {
    forall k | 0 <= k < 3 ensures StationDone(after, grown, if k < n then gs else front, STATIONS[k]) {
      if k != n - 1 {
        assert STATIONS[k] != STATIONS[n - 1];
        assert StationDone(mem, db, if k < n - 1 then gs else front, STATIONS[k]);
        assert SameStation(mem, db, after, grown, STATIONS[k]);
      }
    }
  }

  // ------------------------------------------------------------ samples

  lemma SampleIsBefore<V>(table: map<int, V>, front: seq<Group>, g: Group, gs: seq<Group>, rows: seq<Option<V>>)
    requires NewestOf(gs, front, g) && Holds(table, front, rows)
    ensures MaxOf(table.Keys).Some? ==> MaxOf(table.Keys).value < g.ts
    ensures g.ts !in table
  {
    forall t | t in table ensures t < g.ts {
      var i :| 0 <= i < |front| && front[i].ts == t;
      assert gs[i] == front[i] && gs[|front|] == g;
    }
    var newest := MaxOf(table.Keys);
    if newest.Some? { assert newest.value in table; }
  }

  lemma CounterTold(latest: Latest, gs: seq<Group>, g: Group)
    requires Knows(latest, gs) && gs != [] && Newest(gs) == g
    ensures CounterRowAt(gs, |gs| - 1)
            == if Changed(g) * {Good, Scrap} != {} && CounterKnown(latest)
               then Some(CounterRow(latest[Good].value.ToInt(), latest[Scrap].value.ToInt(),
                                    latest[CycleTime].value.ToReal(), latest[LastCycle].value.ToReal()))
               else None
  {
    assert gs[..|gs|] == gs;
    assert Good in Changed(g) * {Good, Scrap} <==> Good in g.values;
    assert Scrap in Changed(g) * {Good, Scrap} <==> Scrap in g.values;
  }

  lemma CounterTable(db: Db, ts: int, row: Option<CounterRow>, ops: seq<Op>)
    requires ops == (if row.Some? then [CounterSample(ts, row.value)] else []) && ts !in db.counters
    ensures ApplyOps(db, ops).counters == Put(db.counters, ts, row)
  {
    if row.Some? { ApplyOne(db, ops[0]); }
  }

  lemma CounterStep(mem: Memory, db: Db, latest: Latest, front: seq<Group>, g: Group, gs: seq<Group>, out: Outcome)
    requires InStep(mem, db) && NewestOf(gs, front, g) && Knows(latest, gs)
    requires Holds(db.counters, front, CounterRows(front)) && out == CounterPart(mem, latest, g.ts, Changed(g))
    ensures Holds(ApplyOps(db, out.ops).counters, gs, CounterRows(gs))
  {
    var row := CounterRowAt(gs, |front|);
    PrefixOf(gs, front, g);
    RowsGrow(gs, front, g);
    SampleIsBefore(db.counters, front, g, gs, CounterRows(front));
    CounterTold(latest, gs, g);
    CounterTable(db, g.ts, row, out.ops);
    PutHolds(db.counters, front, g, gs, CounterRows(front), row);
  }

  lemma WeldTable(db: Db, ts: int, row: Option<WeldRow>, ops: seq<Op>)
    requires ops == (if row.Some? then [WeldSample(ts, row.value)] else []) && ts !in db.welds
    ensures ApplyOps(db, ops).welds == Put(db.welds, ts, row)
  {
    if row.Some? { ApplyOne(db, ops[0]); }
  }

  lemma WeldIsTold(latest: Latest, gs: seq<Group>, g: Group)
    requires Knows(latest, gs) && gs != [] && Newest(gs) == g
    ensures WeldRowAt(gs, |gs| - 1)
            == if WeldCurrent in Changed(g) && WeldKnown(latest)
               then Some(WeldRow(latest[WeldCurrent].value.ToReal(), latest[WeldPoints].value.ToInt(),
                                 latest[WeldOk].value.ToBool()))
               else None
  {
    assert gs[..|gs|] == gs;
  }

  lemma WeldStep(mem: Memory, db: Db, latest: Latest, front: seq<Group>, g: Group, gs: seq<Group>, out: Outcome)
    requires InStep(mem, db) && NewestOf(gs, front, g) && Knows(latest, gs)
    requires Holds(db.welds, front, WeldRows(front)) && out == WeldPart(mem, latest, g.ts, Changed(g))
    ensures Holds(ApplyOps(db, out.ops).welds, gs, WeldRows(gs))
  {
    var row := WeldRowAt(gs, |front|);
    PrefixOf(gs, front, g);
    RowsGrow(gs, front, g);
    SampleIsBefore(db.welds, front, g, gs, WeldRows(front));
    WeldIsTold(latest, gs, g);
    WeldTable(db, g.ts, row, out.ops);
    PutHolds(db.welds, front, g, gs, WeldRows(front), row);
  }

  // ------------------------------------------------------------ whole streams

  /** A tracker that has taken in a stream, with the database it wrote. */
  ghost predicate Follows(t: Tracker, db: Db, gs: seq<Group>) {
    && InStep(t.mem, db) && Told(db, gs) && Knows(t.latest, gs)
    && RecallsCell(t.mem, gs) && forall st :: RecallsStation(t.mem, gs, st)
  }

  lemma StartsEmpty()
    ensures Follows(Tracker(NO_MEMORY, map[]), EMPTY_DB, [])
  {
    assert EMPTY_DB.cell.Keys == {} && EMPTY_DB.counters.Keys == {} && EMPTY_DB.welds.Keys == {};
    assert OpenStarts(EMPTY_DB.stops) == {};
    assert MemoryOf(EMPTY_DB) == NO_MEMORY;
  }

  lemma StillAhead(latest: Latest, front: seq<Group>, g: Group, gs: seq<Group>)
    requires Knows(latest, front) && NewestOf(gs, front, g)
    ensures OlderThan(latest, g.ts)
  {
    if front != [] {
      assert gs[|front|] == g && gs[|front| - 1] == Newest(front);
    }
  }

  lemma CellFirst(t: Tracker, db: Db, latest: Latest, front: seq<Group>, g: Group, gs: seq<Group>, cell: Outcome,
                  mid: Db)
    requires Follows(t, db, front) && NewestOf(gs, front, g) && Knows(latest, gs)
    requires CellPart(t.mem, latest, g.ts, Changed(g)) == Success(cell) && mid == ApplyOps(db, cell.ops)
    ensures InStep(cell.mem, mid) && Holds(mid.cell, gs, CellRows(gs)) && RecallsCell(cell.mem, gs)
    ensures StationsDone(cell.mem, mid, front, gs, 0) && mid == db.(cell := mid.cell, stops := mid.stops)
  {
    CellInStep(t.mem, db, latest, g.ts, Changed(g));
    CellStep(t.mem, db, latest, front, g, gs, cell);
    forall k | 0 <= k < 3 ensures StationDone(cell.mem, mid, front, STATIONS[k]) {
      assert RecallsStation(t.mem, front, STATIONS[k]);
    }
  }

  /** The cell's part of `apply`, then the stations' on what it left. */
  lemma CellThenStations(t: Tracker, db: Db, latest: Latest, front: seq<Group>, g: Group, gs: seq<Group>,
                         cell: Outcome, stations: Outcome, mid: Db, grown: Db)
    requires Follows(t, db, front) && NewestOf(gs, front, g) && Knows(latest, gs)
    requires CellPart(t.mem, latest, g.ts, Changed(g)) == Success(cell) && mid == ApplyOps(db, cell.ops)
    requires stations == StationParts(cell.mem, latest, g.ts, Changed(g), 3) && grown == ApplyOps(mid, stations.ops)
    ensures InStep(stations.mem, grown) && Holds(grown.cell, gs, CellRows(gs)) && RecallsCell(stations.mem, gs)
    ensures StationsDone(stations.mem, grown, front, gs, 3)
    ensures grown.counters == db.counters && grown.welds == db.welds
  {
    CellFirst(t, db, latest, front, g, gs, cell, mid);
    StationsInStep(cell.mem, mid, latest, g.ts, Changed(g), 3);
    StationsStep(cell.mem, mid, latest, front, g, gs, 3, stations);
    StationsKeepCell(cell.mem, latest, g.ts, Changed(g), 3);
  }

  lemma AllStations(mem: Memory, db: Db, front: seq<Group>, gs: seq<Group>, st: Station)
    requires StationsDone(mem, db, front, gs, 3)
    ensures StationDone(mem, db, gs, st)
  {
    var k := match st case OP10 => 0 case OP20 => 1 case OP30 => 2;
    assert STATIONS[k] == st;
  }

  lemma {:induction false} StationsKeepCell(mem: Memory, latest: Latest, ts: int, changed: set<Tag>, n: nat)
    requires n <= 3
    ensures StationParts(mem, latest, ts, changed, n).mem.lastCell == mem.lastCell
  {
    if n > 0 { StationsKeepCell(mem, latest, ts, changed, n - 1); }
  }

  lemma CounterThenWeld(mem: Memory, db: Db, latest: Latest, front: seq<Group>, g: Group, gs: seq<Group>,
                        counter: Outcome, weld: Outcome, mid: Db, grown: Db)
    requires InStep(mem, db) && NewestOf(gs, front, g) && Knows(latest, gs)
    requires Holds(db.counters, front, CounterRows(front)) && Holds(db.welds, front, WeldRows(front))
    requires counter == CounterPart(mem, latest, g.ts, Changed(g)) && mid == ApplyOps(db, counter.ops)
    requires weld == WeldPart(counter.mem, latest, g.ts, Changed(g)) && grown == ApplyOps(mid, weld.ops)
    ensures Holds(grown.counters, gs, CounterRows(gs)) && Holds(grown.welds, gs, WeldRows(gs))
    ensures grown == db.(counters := grown.counters, welds := grown.welds) && InStep(weld.mem, grown)
    ensures weld.mem.lastCell == mem.lastCell && weld.mem.lastStation == mem.lastStation
  {
    CounterInStep(mem, db, latest, g.ts, Changed(g));
    CounterStep(mem, db, latest, front, g, gs, counter);
    WeldInStep(counter.mem, mid, latest, g.ts, Changed(g));
    WeldStep(counter.mem, mid, latest, front, g, gs, weld);
  }

  lemma NextFollows(t: Tracker, db: Db, front: seq<Group>, g: Group, gs: seq<Group>, step: Step)
    requires Follows(t, db, front) && NewestOf(gs, front, g) && Apply(t, g) == Success(step)
    ensures Follows(step.tracker, ApplyOps(db, step.ops), gs)
  {
    var changed, latest := Changed(g), Learn(t.latest, g);
    StillAhead(t.latest, front, g, gs);
    LearnKnows(t.latest, front, g, gs);
    var cell := CellPart(t.mem, latest, g.ts, changed).value;
    var db1 := ApplyOps(db, cell.ops);
    var stations := StationParts(cell.mem, latest, g.ts, changed, 3);
    var db2 := ApplyOps(db1, stations.ops);
    CellThenStations(t, db, latest, front, g, gs, cell, stations, db1, db2);
    var counter := CounterPart(stations.mem, latest, g.ts, changed);
    var db3 := ApplyOps(db2, counter.ops);
    var weld := WeldPart(counter.mem, latest, g.ts, changed);
    var db4 := ApplyOps(db3, weld.ops);
    CounterThenWeld(stations.mem, db2, latest, front, g, gs, counter, weld, db3, db4);
    forall st ensures StationDone(stations.mem, db2, gs, st) { AllStations(stations.mem, db2, front, gs, st); }
    FourParts(db, cell.ops, stations.ops, counter.ops, weld.ops);
    LastFollows(weld.mem, db4, latest, gs, stations.mem, db2);
  }

  lemma FourParts(db: Db, a: seq<Op>, b: seq<Op>, c: seq<Op>, d: seq<Op>)
    ensures ApplyOps(db, a + b + c + d) == ApplyOps(ApplyOps(ApplyOps(ApplyOps(db, a), b), c), d)
  {
    ApplyOpsAppend(db, a, b);
    ApplyOpsAppend(db, a + b, c);
    ApplyOpsAppend(db, a + b + c, d);
  }

  lemma LastFollows(mem: Memory, db: Db, latest: Latest, gs: seq<Group>, was: Memory, mid: Db)
    requires InStep(mem, db) && Knows(latest, gs)
    requires Holds(mid.cell, gs, CellRows(gs)) && RecallsCell(was, gs)
    requires forall st :: StationDone(was, mid, gs, st)
    requires Holds(db.counters, gs, CounterRows(gs)) && Holds(db.welds, gs, WeldRows(gs))
    requires db == mid.(counters := db.counters, welds := db.welds)
    requires mem.lastCell == was.lastCell && mem.lastStation == was.lastStation
    ensures Follows(Tracker(mem, latest), db, gs)
  {
    forall st ensures Holds(StationRows(db.stations, st), gs, StationRowsTold(gs, st)) && RecallsStation(mem, gs, st) {
      assert StationDone(was, mid, gs, st);
    }
  }

  lemma {:induction false} StreamFollows(gs: seq<Group>, step: Step)
    requires Ordered(gs) && ApplyAll(Tracker(NO_MEMORY, map[]), gs) == Success(step)
    ensures Follows(step.tracker, ApplyOps(EMPTY_DB, step.ops), gs)
    decreases |gs|
  {
    var t := Tracker(NO_MEMORY, map[]);
    if gs == [] {
      StartsEmpty();
    } else {
      var front, g := AllBut(gs), Newest(gs);
      assert gs == front + [g];
      ApplyAllAppend(t, front, [g]);
      var before := ApplyAll(t, front).value;
      StreamFollows(front, before);
      var last := LastStep(before.tracker, g, ApplyAll(before.tracker, [g]).value);
      ApplyOpsAppend(EMPTY_DB, before.ops, last.ops);
      NextFollows(before.tracker, ApplyOps(EMPTY_DB, before.ops), front, g, gs, last);
    }
  }

  lemma LastStep(t: Tracker, g: Group, all: Step) returns (step: Step)
    requires ApplyAll(t, [g]) == Success(all)
    ensures Apply(t, g) == Success(step) && step == all
  {
    step := Apply(t, g).value;
    assert [g][1..] == [];
    assert ApplyAll(step.tracker, []) == Success(Step(step.tracker, []));
    assert step.ops + [] == step.ops;
  }

  /** Every row of the tables an ordered stream fills from nothing is told by the groups: there is one at the
      timestamp of each group that makes one and nowhere else, and each of its values is the last one the
      stream brought for that tag up to then. */
  lemma TablesAreTold(gs: seq<Group>)
    requires Ordered(gs) && Commit(Restart(EMPTY_DB), gs).Success?
    ensures Told(Commit(Restart(EMPTY_DB), gs).value.db, gs)
  {
    FreshStart();
    StreamFollows(gs, ApplyAll(Tracker(NO_MEMORY, map[]), gs).value);
  }

  lemma FreshStart()
    ensures Restart(EMPTY_DB) == Live(Tracker(NO_MEMORY, map[]), EMPTY_DB)
  {
    StartsEmpty();
    RepairIsIdle(EMPTY_DB);
  }

  /** The same however often the collector is restarted on the way. */
  lemma TablesAreToldAcrossRestarts(segments: seq<seq<Group>>, end: Live)
    requires Ordered(Flatten(segments)) && Commit(Restart(EMPTY_DB), Flatten(segments)).Success?
    requires Interrupted(Restart(EMPTY_DB), map[], segments) == Success(end)
    ensures Told(end.db, Flatten(segments)) && end.db.stops == StopsOf(end.db.cell)
  {
    FreshStart();
    StartsEmpty();
    RestartTransparency(EMPTY_DB, segments);
    StreamFollows(Flatten(segments), ApplyAll(Tracker(NO_MEMORY, map[]), Flatten(segments)).value);
  }

  // ------------------------------------------------------------ streams in any order

  /** The i-th group holds the newest value of a tag: none is newer, and of equally old ones it came last. */
  ghost predicate HasNewest(gs: seq<Group>, tag: Tag, i: int) {
    && 0 <= i < |gs| && tag in Changed(gs[i])
    && forall j :: 0 <= j < |gs| && tag in Changed(gs[j]) ==>
                     gs[j].ts < gs[i].ts || (gs[j].ts == gs[i].ts && j <= i)
  }

  /** The value known of this tag is the newest of the stream. */
  ghost predicate KnownNewest(known: Known, gs: seq<Group>, tag: Tag) {
    exists i :: HasNewest(gs, tag, i) && known == Known(gs[i].ts, gs[i].values[tag])
  }

  ghost predicate KnowsNewest(latest: Latest, gs: seq<Group>) {
    && (forall tag, i :: 0 <= i < |gs| && tag in Changed(gs[i]) ==> tag in latest)
    && (forall tag :: tag in latest ==> KnownNewest(latest[tag], gs, tag))
  }

  lemma LearnOneNewest(latest: Latest, front: seq<Group>, g: Group, gs: seq<Group>, tag: Tag)
    requires gs == front + [g] && tag in Learn(latest, g)
    requires tag in latest ==> KnownNewest(latest[tag], front, tag)
    requires tag !in latest ==> forall i :: 0 <= i < |front| ==> tag !in Changed(front[i])
    ensures KnownNewest(Learn(latest, g)[tag], gs, tag)
  {
    var n := |front|;
    assert gs[n] == g && forall i :: 0 <= i < n ==> gs[i] == front[i];
    if tag in latest {
      var i :| HasNewest(front, tag, i) && latest[tag] == Known(front[i].ts, front[i].values[tag]);
      assert HasNewest(gs, tag, if tag in Changed(g) && latest[tag].ts <= g.ts then n else i);
    } else {
      assert HasNewest(gs, tag, n);
    }
  }

  lemma LearnNewestOf(latest: Latest, front: seq<Group>, g: Group, gs: seq<Group>)
    requires gs == front + [g] && KnowsNewest(latest, front)
    ensures KnowsNewest(Learn(latest, g), gs)
  {
    var after, n := Learn(latest, g), |front|;
    assert gs[n] == g && forall i :: 0 <= i < n ==> gs[i] == front[i];
    forall tag | tag in after ensures KnownNewest(after[tag], gs, tag) { LearnOneNewest(latest, front, g, gs, tag); }
  }

  /** Whatever the order of the groups, late or repeated ones included, the tracker knows of each tag the newest value
      they brought, the last one of those that are equally new. */
  lemma {:induction false} LatestIsNewest(mem: Memory, gs: seq<Group>, step: Step)
    requires ApplyAll(Tracker(mem, map[]), gs) == Success(step)
    ensures KnowsNewest(step.tracker.latest, gs)
    decreases |gs|
  {
    if gs != [] {
      var t, front, g := Tracker(mem, map[]), AllBut(gs), Newest(gs);
      assert gs == front + [g];
      ApplyAllAppend(t, front, [g]);
      var before := ApplyAll(t, front).value;
      LatestIsNewest(mem, front, before);
      var last := LastStep(before.tracker, g, ApplyAll(before.tracker, [g]).value);
      LearnNewestOf(before.tracker.latest, front, g, gs);
    }
  }

  /** A float read as an integer loses its fraction, toward zero. */
  lemma IntegersTruncate(r: real, n: int)
    requires n == R(r).ToInt()
    ensures if r >= 0.0 then n as real <= r < n as real + 1.0 else n as real - 1.0 < r <= n as real
  {
  }
}
