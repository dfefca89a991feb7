/** backend/app/collector/tracker.py: groups of changes become database operations, idempotently. */
module Tracking {
  import opened Basics
  import opened Facts

  datatype LastCell = LastCell(ts: int, row: CellRow)

  datatype LastStation = LastStation(ts: int, row: StationRow)

  /** What the database already holds: the tracker's only memory across restarts. */
  datatype Memory = Memory(
    lastCell: Option<LastCell>,
    lastStation: map<Station, LastStation>,
    openStop: Option<int>,
    lastCounter: Option<int>,
    lastWeld: Option<int>)

  const NO_MEMORY := Memory(None, map[], None, None, None)

  datatype Known = Known(ts: int, value: TagValue)

  type Latest = map<Tag, Known>

  datatype Tracker = Tracker(mem: Memory, latest: Latest)

  /** Memory after a part of `apply`, and the operations it emitted. */
  datatype Outcome = Outcome(mem: Memory, ops: seq<Op>)

  const STATIONS := [OP10, OP20, OP30]

  function Changed(g: Group): set<Tag> { g.values.Keys - {Heartbeat} }

  /** The newest value of every tag, a tie going to the group being applied. */
  function Learn(latest: Latest, g: Group): Latest {
    latest + (map tag | tag in Changed(g) && (tag !in latest || latest[tag].ts <= g.ts) ::
                Known(g.ts, g.values[tag]))
  }

  // ------------------------------------------------------------ cell state and stops

  predicate CellKnown(latest: Latest) {
    CellState in latest && CellFault in latest && CellOrigin in latest
  }

  function CellValues(latest: Latest): CellRow
    requires CellKnown(latest)
  {
    CellRow(latest[CellState].value.ToInt(), latest[CellFault].value.ToInt(), latest[CellOrigin].value.ToInt())
  }

  const CELL_TAGS: set<Tag> := {CellState, CellFault, CellOrigin}

  function Transition(mem: Memory, ts: int, row: CellRow): Result<Outcome> {
    var event := [CellEvent(ts, row)];
    var close := if mem.openStop.Some? then [CloseStop(mem.openStop.value, ts)] else [];
    var moved := mem.(lastCell := Some(LastCell(ts, row)), openStop := None);
    if row.state == PRODUCING then Success(Outcome(moved, event + close))
    else match SuggestCause(row.state, row.fault)
      case Failure(e) => Failure(e)
      case Success(cause) =>
        var open := OpenStop(ts, row.state, StationOfOrigin(row.origin), row.fault, cause);
        Success(Outcome(moved.(openStop := Some(ts)), event + close + [open]))
  }

  function CellPart(mem: Memory, latest: Latest, ts: int, changed: set<Tag>): Result<Outcome> {
    if changed * CELL_TAGS == {} || !CellKnown(latest) then Success(Outcome(mem, []))
    else
      var row := CellValues(latest);
      if mem.lastCell.Some? && (mem.lastCell.value.row == row || ts <= mem.lastCell.value.ts)
      then Success(Outcome(mem, []))
      else Transition(mem, ts, row)
  }

  // ------------------------------------------------------------ stations

  predicate StationKnown(latest: Latest, st: Station) {
    StationState(st) in latest && StationFault(st) in latest
  }

  function StationValues(latest: Latest, st: Station): StationRow
    requires StationKnown(latest, st)
  {
    StationRow(latest[StationState(st)].value.ToInt(), latest[StationFault(st)].value.ToInt())
  }

  function StationPart(mem: Memory, latest: Latest, ts: int, changed: set<Tag>, st: Station): Outcome {
    if changed * {StationState(st), StationFault(st)} == {} || !StationKnown(latest, st) then Outcome(mem, [])
    else
      var row := StationValues(latest, st);
      if st in mem.lastStation && (mem.lastStation[st].row == row || ts <= mem.lastStation[st].ts)
      then Outcome(mem, [])
      else Outcome(mem.(lastStation := mem.lastStation[st := LastStation(ts, row)]), [StationEvent(st, ts, row)])
  }

  function StationParts(mem: Memory, latest: Latest, ts: int, changed: set<Tag>, n: nat): Outcome
    requires n <= 3
  {
    if n == 0 then Outcome(mem, [])
    else
      var before := StationParts(mem, latest, ts, changed, n - 1);
      var here := StationPart(before.mem, latest, ts, changed, STATIONS[n - 1]);
      Outcome(here.mem, before.ops + here.ops)
  }

  // ------------------------------------------------------------ samples

  predicate CounterKnown(latest: Latest) {
    Good in latest && Scrap in latest && CycleTime in latest && LastCycle in latest
  }

  function CounterPart(mem: Memory, latest: Latest, ts: int, changed: set<Tag>): Outcome {
    if changed * {Good, Scrap} == {} || !CounterKnown(latest) then Outcome(mem, [])
    else if mem.lastCounter.Some? && ts <= mem.lastCounter.value then Outcome(mem, [])
    else
      Outcome(mem.(lastCounter := Some(ts)),
              [CounterSample(ts, CounterRow(latest[Good].value.ToInt(), latest[Scrap].value.ToInt(),
                                            latest[CycleTime].value.ToReal(), latest[LastCycle].value.ToReal()))])
  }

  predicate WeldKnown(latest: Latest) {
    WeldCurrent in latest && WeldPoints in latest && WeldOk in latest
  }

  function WeldPart(mem: Memory, latest: Latest, ts: int, changed: set<Tag>): Outcome {
    if WeldCurrent !in changed || !WeldKnown(latest) then Outcome(mem, [])
    else if mem.lastWeld.Some? && ts <= mem.lastWeld.value then Outcome(mem, [])
    else
      Outcome(mem.(lastWeld := Some(ts)),
              [WeldSample(ts, WeldRow(latest[WeldCurrent].value.ToReal(), latest[WeldPoints].value.ToInt(),
                                      latest[WeldOk].value.ToBool()))])
  }

  // ------------------------------------------------------------ apply

  datatype Step = Step(tracker: Tracker, ops: seq<Op>)

  /** One call of `apply`; a Failure is the exception that ends the process. */
  function Apply(t: Tracker, g: Group): Result<Step> {
    var changed := Changed(g);
    var latest := Learn(t.latest, g);
    match CellPart(t.mem, latest, g.ts, changed)
    case Failure(e) => Failure(e)
    case Success(cell) =>
      var stations := StationParts(cell.mem, latest, g.ts, changed, 3);
      var counter := CounterPart(stations.mem, latest, g.ts, changed);
      var weld := WeldPart(counter.mem, latest, g.ts, changed);
      Success(Step(Tracker(weld.mem, latest), cell.ops + stations.ops + counter.ops + weld.ops))
  }

  /** A batch of groups, whose operations are committed together. */
  function ApplyAll(t: Tracker, gs: seq<Group>): Result<Step>
    decreases |gs|
  {
    if gs == [] then Success(Step(t, []))
    else match Apply(t, gs[0])
      case Failure(e) => Failure(e)
      case Success(first) => Then(first, ApplyAll(first.tracker, gs[1..]))
  }

  /** One step, then the rest. */
  function Then(first: Step, rest: Result<Step>): Result<Step> {
    match rest
    case Failure(e) => Failure(e)
    case Success(more) => Success(Step(more.tracker, first.ops + more.ops))
  }

  lemma ThenNothing(t: Tracker, rest: Result<Step>)
    ensures Then(Step(t, []), rest) == rest
  {
    if rest.Success? { assert [] + rest.value.ops == rest.value.ops; }
  }

  lemma ThenThen(one: Step, two: Step, rest: Result<Step>)
    ensures Then(one, Then(two, rest)) == Then(Step(two.tracker, one.ops + two.ops), rest)
  {
    if rest.Success? { assert one.ops + (two.ops + rest.value.ops) == (one.ops + two.ops) + rest.value.ops; }
  }

  lemma FirstApplies(t: Tracker, gs: seq<Group>, all: Result<Step>)
    requires gs != [] && all == ApplyAll(t, gs)
    ensures all == match Apply(t, gs[0])
                   case Failure(e) => Failure(e)
                   case Success(first) => Then(first, ApplyAll(first.tracker, gs[1..]))
  {
  }

  /** Two batches applied one after the other are the batch of both. */
  lemma {:induction false} ApplyAllAppend(t: Tracker, a: seq<Group>, b: seq<Group>)
    ensures ApplyAll(t, a + b) == match ApplyAll(t, a)
                                  case Failure(e) => Failure(e)
                                  case Success(first) => Then(first, ApplyAll(first.tracker, b))
    decreases |a|
  {
    if a == [] {
      assert a + b == b;
      ThenNothing(t, ApplyAll(t, b));
    } else {
      assert (a + b)[0] == a[0] && (a + b)[1..] == a[1..] + b;
      FirstApplies(t, a, ApplyAll(t, a));
      FirstApplies(t, a + b, ApplyAll(t, a + b));
      if one :| Apply(t, a[0]) == Success(one) {
        ApplyAllAppend(one.tracker, a[1..], b);
        if tail :| ApplyAll(one.tracker, a[1..]) == Success(tail) {
          ThenThen(one, tail, ApplyAll(tail.tracker, b));
        }
      }
    }
  }

  /** Of the tags of a group, these have been learnt. */
  ghost predicate Learnt(before: Latest, g: Group, tags: set<Tag>, latest: Latest) {
    && latest.Keys == before.Keys + tags
    && (forall tag :: tag in before && tag !in tags ==> latest[tag] == before[tag])
    && (forall tag :: tag in tags && tag in Changed(g) ==> latest[tag] == Learn(before, g)[tag])
  }

  lemma LearntOneMore(before: Latest, g: Group, tags: set<Tag>, latest: Latest, tag: Tag)
    requires Learnt(before, g, tags, latest) && tag in Changed(g) && tag !in tags
    ensures Learnt(before, g, tags + {tag}, if tag !in latest || latest[tag].ts <= g.ts
                                            then latest[tag := Known(g.ts, g.values[tag])] else latest)
  {
    assert tag in latest <==> tag in before;
  }

  lemma AllLearnt(before: Latest, g: Group, latest: Latest)
    requires Learnt(before, g, Changed(g), latest)
    ensures latest == Learn(before, g)
  {
  }

  // ------------------------------------------------------------ the class

  class StopTracker {
    var lastCell: Option<LastCell>
    var lastStation: map<Station, LastStation>
    var openStop: Option<int>
    var lastCounter: Option<int>
    var lastWeld: Option<int>
    var latest: Latest

    function View(): Tracker
      reads this
    {
      Tracker(Memory(lastCell, lastStation, openStop, lastCounter, lastWeld), latest)
    }

    constructor (mem: Memory)
      ensures View() == Tracker(mem, map[])
    {
      lastCell, lastStation, openStop := mem.lastCell, mem.lastStation, mem.openStop;
      lastCounter, lastWeld := mem.lastCounter, mem.lastWeld;
      latest := map[];
    }

    method ApplyGroup(g: Group) returns (r: Result<seq<Op>>)
      modifies this
      ensures r.Failure? <==> Apply(old(View()), g).Failure?
      ensures r.Success? ==> Apply(old(View()), g) == Success(Step(View(), r.value))
    {
      var changed := g.values.Keys - {Heartbeat};
      LearnGroup(g, changed);
      var cell := RecordCell(g.ts, changed);
      if cell.Failure? { return cell; }
      var stations := RecordStations(g.ts, changed);
      var counter := RecordCounter(g.ts, changed);
      var weld := RecordWeld(g.ts, changed);
      r := Success(cell.value + stations + counter + weld);
    }

    /** The first loop of `apply`: later values win, an older group never overwrites. */
    method LearnGroup(g: Group, changed: set<Tag>)
      requires changed == Changed(g)
      modifies `latest
      ensures latest == Learn(old(latest), g)
    {
      var todo := changed;
      while todo != {}
        invariant todo <= changed && Learnt(old(latest), g, changed - todo, latest)
        decreases |todo|
      {
        var tag := Any(todo);
        LearntOneMore(old(latest), g, changed - todo, latest, tag);
        assert changed - (todo - {tag}) == (changed - todo) + {tag};
        if tag !in latest || latest[tag].ts <= g.ts {
          latest := latest[tag := Known(g.ts, g.values[tag])];
        }
        todo := todo - {tag};
      }
      assert changed - todo == Changed(g);
      AllLearnt(old(latest), g, latest);
    }

    method RecordCell(ts: int, changed: set<Tag>) returns (r: Result<seq<Op>>)
      modifies `lastCell, `openStop
      ensures r.Failure? <==> CellPart(old(View()).mem, latest, ts, changed).Failure?
      ensures r.Success? ==> CellPart(old(View()).mem, latest, ts, changed) == Success(Outcome(View().mem, r.value))
    {
      if changed * {CellState, CellFault, CellOrigin} == {} { return Success([]); }
      if CellState !in latest || CellFault !in latest || CellOrigin !in latest { return Success([]); }
      var state, fault := latest[CellState].value.ToInt(), latest[CellFault].value.ToInt();
      var origin := latest[CellOrigin].value.ToInt();
      if lastCell.Some? {
        if lastCell.value.row == CellRow(state, fault, origin) { return Success([]); }
        if ts <= lastCell.value.ts { return Success([]); }
      }
      r := Move(ts, state, fault, origin);
    }

    method Move(ts: int, state: int, fault: int, origin: int) returns (r: Result<seq<Op>>)
      modifies `lastCell, `openStop
      ensures r.Failure? <==> Transition(old(View()).mem, ts, CellRow(state, fault, origin)).Failure?
      ensures r.Success? ==>
                Transition(old(View()).mem, ts, CellRow(state, fault, origin)) == Success(Outcome(View().mem, r.value))
    {
      var ops := [CellEvent(ts, CellRow(state, fault, origin))];
      if openStop.Some? {
        ops := ops + [CloseStop(openStop.value, ts)];
        openStop := None;
      }
      assert ops == [CellEvent(ts, CellRow(state, fault, origin))]
                    + if old(openStop).Some? then [CloseStop(old(openStop).value, ts)] else [];
      if state != PRODUCING {
        var station := StationOfOrigin(origin);
        var cause := SuggestCause(state, fault);
        if cause.Failure? { return Failure(cause.error); }
        ops := ops + [OpenStop(ts, state, station, fault, cause.value)];
        openStop := Some(ts);
      }
      lastCell := Some(LastCell(ts, CellRow(state, fault, origin)));
      r := Success(ops);
    }

    method RecordStations(ts: int, changed: set<Tag>) returns (ops: seq<Op>)
      modifies `lastStation
      ensures StationParts(old(View()).mem, latest, ts, changed, 3) == Outcome(View().mem, ops)
    {
      ops := [];
      for n := 0 to 3
        invariant StationParts(old(View()).mem, latest, ts, changed, n) == Outcome(View().mem, ops)
      {
        var st := STATIONS[n];
        if changed * {StationState(st), StationFault(st)} == {} { continue; }
        if StationState(st) !in latest || StationFault(st) !in latest { continue; }
        var row := StationRow(latest[StationState(st)].value.ToInt(), latest[StationFault(st)].value.ToInt());
        if st in lastStation && (lastStation[st].row == row || ts <= lastStation[st].ts) { continue; }
        lastStation := lastStation[st := LastStation(ts, row)];
        ops := ops + [StationEvent(st, ts, row)];
      }
    }

    method RecordCounter(ts: int, changed: set<Tag>) returns (ops: seq<Op>)
      modifies `lastCounter
      ensures CounterPart(old(View()).mem, latest, ts, changed) == Outcome(View().mem, ops)
    {
      if changed * {Good, Scrap} == {} { return []; }
      if Good !in latest || Scrap !in latest || CycleTime !in latest || LastCycle !in latest { return []; }
      if lastCounter.Some? && ts <= lastCounter.value { return []; }
      lastCounter := Some(ts);
      ops := [CounterSample(ts, CounterRow(latest[Good].value.ToInt(), latest[Scrap].value.ToInt(),
                                           latest[CycleTime].value.ToReal(), latest[LastCycle].value.ToReal()))];
    }

    method RecordWeld(ts: int, changed: set<Tag>) returns (ops: seq<Op>)
      modifies `lastWeld
      ensures WeldPart(old(View()).mem, latest, ts, changed) == Outcome(View().mem, ops)
    {
      if WeldCurrent !in changed { return []; }
      if WeldCurrent !in latest || WeldPoints !in latest || WeldOk !in latest { return []; }
      if lastWeld.Some? && ts <= lastWeld.value { return []; }
      lastWeld := Some(ts);
      ops := [WeldSample(ts, WeldRow(latest[WeldCurrent].value.ToReal(), latest[WeldPoints].value.ToInt(),
                                     latest[WeldOk].value.ToBool()))];
    }
  }

  method Any(s: set<Tag>) returns (t: Tag)
    requires s != {}
    ensures t in s
  {
    assert exists x :: x in s by { TagsInhabited(s); }
    t :| t in s;
  }

  lemma TagsInhabited(s: set<Tag>)
    ensures s == {} || exists x :: x in s
  {
    if forall x :: x !in s { assert s == {}; }
  }
}
