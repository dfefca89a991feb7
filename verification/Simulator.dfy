/** simulator/cell_sim/cell.py and engine.py: the cell as a discrete-event machine, over values.
    Times are exact seconds; every random draw is an argument. */
module Simulator {
  import opened Basics
  import opened Facts
  import opened Shifts

  /** `& UINT32_MASK`. */
  function Masked(n: int): (r: nat)
    ensures r < 0x1_0000_0000
  {
    n % 0x1_0000_0000
  }

  datatype State = Producing | PlannedStop | Fault | Setup | Starved | Blocked | Manual

  function Code(st: State): int {
    match st
    case Producing => PRODUCING
    case PlannedStop => PLANNED_STOP
    case Fault => FAULT
    case Setup => SETUP
    case Starved => STARVED
    case Blocked => BLOCKED
    case Manual => MANUAL
  }

  const AUTO_MODE := 1
  const MANUAL_MODE := 2
  const WELD_FAULT := 201

  /** The fault catalogue: the station of each known code. */
  function StationOfFault(code: int): Option<Origin> {
    if code in {101, 102, 103} then Some(AtStation(OP10))
    else if code in {201, 202, 203, 204} then Some(AtStation(OP20))
    else if code in {301, 302, 303} then Some(AtStation(OP30))
    else if code == 900 then Some(AtCell)
    else None
  }

  function OriginCode(at: Option<Origin>): int {
    match at
    case None => 0
    case Some(AtCell) => 99
    case Some(AtStation(OP10)) => 10
    case Some(AtStation(OP20)) => 20
    case Some(AtStation(OP30)) => 30
  }

  /** Only MANUAL has no implied origin: it keeps the one of the fault it follows. */
  function DefaultOrigin(st: State, code: int): int
    requires !st.Manual?
  {
    match st
    case Producing => 0
    case PlannedStop => 99
    case Fault => OriginCode(StationOfFault(code))
    case Setup => 20
    case Starved => 10
    case Blocked => 30
  }

  // ------------------------------------------------------------ configuration and draws

  datatype Freeze = Freeze(every: real, duration: real)

  datatype Chaos = Chaos(enabled: bool, counters: Option<(nat, nat)>, resetEvery: Option<real>, freeze: Option<Freeze>)

  datatype Config = Config(
    theoretical: real,
    points: nat,
    capChangeS: real,
    dressingS: real,
    nokLimit: nat,
    faults: set<int>,
    calendar: Calendar,
    chaos: Chaos)

  ghost predicate ValidConfig(cfg: Config) {
    && cfg.theoretical > 0.0 && cfg.points > 0 && cfg.nokLimit >= 1
    && cfg.capChangeS > 0.0 && cfg.dressingS > 0.0
    && (forall code :: code in cfg.faults ==> StationOfFault(code).Some? && code != WELD_FAULT)
    && ValidCalendar(cfg.calendar)
    && (cfg.chaos.resetEvery.Some? ==> cfg.chaos.resetEvery.value > 0.0)
    && (cfg.chaos.freeze.Some? ==> cfg.chaos.freeze.value.every > 0.0 && cfg.chaos.freeze.value.duration > 0.0)
  }

  datatype Cut = FaultCut(code: int) | StarvedCut | BlockedCut

  datatype Interruption = Interruption(delay: real, what: Cut)

  /** What the random streams would yield, were they asked during one step. */
  datatype Draws = Draws(
    cycle: real,
    interruption: Option<Interruption>,
    current: real,
    pointOk: bool,
    scrap: bool,
    faultS: real,
    flowS: real,
    manual: bool,
    manualS: real,
    nextDressing: nat,
    nextCapChange: nat)

  ghost predicate ValidDraws(cfg: Config, d: Draws) {
    && d.cycle > cfg.theoretical
    && (d.interruption.Some? ==>
          && d.interruption.value.delay >= 0.0
          && (d.interruption.value.what.FaultCut? ==> d.interruption.value.what.code in cfg.faults))
    && d.faultS > 0.0 && d.flowS > 0.0 && d.manualS > 0.0
    && d.nextDressing >= 1 && d.nextCapChange >= 1
  }

  // ------------------------------------------------------------ state

  datatype StopKind = FaultStop(code: int) | SetupStop(capChange: bool) | StarvedStop | BlockedStop | ManualStop

  datatype Kind =
    | SlotEnd | Interrupt(what: Cut) | StopEnd(stop: StopKind)
    | BreakStart | BreakEnd | HeartbeatTick
    | FreezeStart | FreezeEnd | CounterReset

  /** A queue entry; callbacks driven by the cell's state carry the epoch they were scheduled in. */
  datatype Ev = Ev(ts: real, order: nat, epoch: Option<nat>, kind: Kind)

  datatype Cell = Cell(
    good: nat,
    scrap: nat,
    heartbeat: nat,
    frozen: bool,
    nextDressing: nat,
    nextCapChange: nat,
    dressingDue: bool,
    capChangeDue: bool,
    weldNok: nat,
    epoch: nat,
    state: State,
    breakWindow: Slot,
    breakActive: bool,
    partActive: bool,
    partWeldOk: bool,
    cycle: real,
    slotIdx: nat,
    slotLen: real,
    slotRemaining: real,
    slotEnd: Option<real>,
    pointsSinceCap: nat,
    partsSinceCap: nat,
    partsSinceDressing: nat)

  datatype SimChange = SimChange(ts: real, tag: Tag, value: TagValue)

  datatype Sim = Sim(
    now: real,
    heap: set<Ev>,
    nextOrder: nat,
    image: map<Tag, TagValue>,
    changes: seq<SimChange>,
    cell: Cell)

  /** `round(.., 3)`: to the nearest thousandth, a tie going to the even one. */
  function Rounded(x: real): (r: real)
    ensures -0.0005 <= r - x <= 0.0005
    ensures exists n: int :: r == n as real / 1000.0 && (r - x == 0.0005 || r - x == -0.0005 ==> n % 2 == 0)
  {
    var n := (x * 1000.0).Floor;
    var rest := x * 1000.0 - n as real;
    var m := if rest < 0.5 || (rest == 0.5 && n % 2 == 0) then n else n + 1;
    assert m as real / 1000.0 - x == 0.0005 || m as real / 1000.0 - x == -0.0005 ==> m % 2 == 0;
    m as real / 1000.0
  }

  // ------------------------------------------------------------ host interface

  /** `_coerce`: to the declared type of the tag. */
  function Coerce(tag: Tag, v: TagValue): TagValue {
    match tag
    case LastCycle | CycleTime | WeldCurrent => R(v.ToReal())
    case WeldOk => B(v.ToBool())
    case Good | Scrap | Heartbeat | WeldPoints => I(Masked(v.ToInt()))
    case _ => I(v.ToInt())
  }

  /** Only actual changes are emitted. */
  function SetTag(s: Sim, tag: Tag, v: TagValue): (r: Sim)
    ensures r == s.(image := r.image, changes := r.changes)
  {
    var value := Coerce(tag, v);
    if tag in s.image && s.image[tag] == value then s
    else s.(image := s.image[tag := value], changes := s.changes + [SimChange(s.now, tag, value)])
  }

  type Writes = seq<(Tag, TagValue)>

  function Publish(s: Sim, ws: Writes): (r: Sim)
    ensures r == s.(image := r.image, changes := r.changes)
    decreases |ws|, s.nextOrder
  {
    if ws == [] then s else Publish(SetTag(s, ws[0].0, ws[0].1), ws[1..])
  }

  function Schedule(s: Sim, delay: real, kind: Kind, epoch: Option<nat>): Sim {
    s.(heap := s.heap + {Ev(s.now + delay, s.nextOrder, epoch, kind)}, nextOrder := s.nextOrder + 1)
  }

  // ------------------------------------------------------------ helpers of the cell

  function StationFaultOf(st: Station, code: int): int {
    if StationOfFault(code) == Some(AtStation(st)) then code else 0
  }

  const STATE_WRITES := 10

  /** The i-th tag written on a change of state: the cell's four, then two for each station. */
  function StateWrite(i: nat, st: State, code: int, mode: int, origin: int): (Tag, TagValue)
    requires i < STATE_WRITES
  {
    match i
    case 0 => (CellState, I(Code(st)))
    case 1 => (CellMode, I(mode))
    case 2 => (CellFault, I(code))
    case 3 => (CellOrigin, I(origin))
    case 4 => (StationState(OP10), I(Code(st)))
    case 5 => (StationFault(OP10), I(StationFaultOf(OP10, code)))
    case 6 => (StationState(OP20), I(Code(st)))
    case 7 => (StationFault(OP20), I(StationFaultOf(OP20, code)))
    case 8 => (StationState(OP30), I(Code(st)))
    case _ => (StationFault(OP30), I(StationFaultOf(OP30, code)))
  }

  /** The writes from the i-th on. */
  function PublishState(s: Sim, i: nat, st: State, code: int, mode: int, origin: int): (r: Sim)
    requires i <= STATE_WRITES
    ensures r == s.(image := r.image, changes := r.changes)
    decreases STATE_WRITES - i, s.nextOrder
  {
    if i == STATE_WRITES then s
    else
      var w := StateWrite(i, st, code, mode, origin);
      PublishState(SetTag(s, w.0, w.1), i + 1, st, code, mode, origin)
  }

  function RMax(a: real, b: real): real { if a < b then b else a }

  /** Leaving PRODUCING inside a slot freezes what is left of it. */
  function Frozen(c: Cell, now: real): Cell {
    if c.slotEnd.Some? then c.(slotRemaining := RMax(0.0, c.slotEnd.value - now), slotEnd := None) else c
  }

  /** What changing state leaves alone: counters, wear, thresholds and breaks. */
  predicate Kept(c: Cell, d: Cell) {
    && d.good == c.good && d.scrap == c.scrap && d.heartbeat == c.heartbeat && d.frozen == c.frozen
    && d.nextDressing == c.nextDressing && d.nextCapChange == c.nextCapChange && d.weldNok == c.weldNok
    && d.pointsSinceCap == c.pointsSinceCap && d.partsSinceCap == c.partsSinceCap
    && d.partsSinceDressing == c.partsSinceDressing
    && d.breakWindow == c.breakWindow && d.breakActive == c.breakActive
  }

  /** The part in hand, if any, is still the same. */
  predicate SamePart(c: Cell, d: Cell) { d.partActive == c.partActive && d.cycle == c.cycle }

  /** A new part is only taken to produce it, when none is in hand, and its cycle is the one drawn. */
  predicate MayTake(c: Cell, d: Cell, cycle: real) {
    SamePart(c, d) || (!c.partActive && d.partActive && d.cycle == cycle && d.state.Producing?)
  }

  predicate SameDue(c: Cell, d: Cell) { d.dressingDue == c.dressingDue && d.capChangeDue == c.capChangeDue }

  function Enter(s: Sim, st: State, code: int, mode: int, origin: int): (r: Sim)
    ensures Kept(s.cell, r.cell) && SamePart(s.cell, r.cell) && SameDue(s.cell, r.cell)
  {
    var c := Frozen(s.cell, s.now);
    PublishState(s.(cell := c.(epoch := c.epoch + 1, state := st)), 0, st, code, mode, origin)
  }

  function StopFor(s: Sim, duration: real, stop: StopKind): Sim {
    Schedule(s, duration, StopEnd(stop), Some(s.cell.epoch))
  }

  // ------------------------------------------------------------ transitions

  function StartSetup(s: Sim, capChange: bool, duration: real): (r: Sim)
    ensures Kept(s.cell, r.cell) && SamePart(s.cell, r.cell)
  {
    var s1 := Enter(s, Setup, 0, AUTO_MODE, DefaultOrigin(Setup, 0));
    var s2 := s1.(cell := s1.cell.(dressingDue := false, capChangeDue := !capChange && s1.cell.capChangeDue));
    StopFor(s2, duration, SetupStop(capChange))
  }

  function NewPart(cfg: Config, c: Cell, cycle: real): Cell
    requires cfg.points > 0
  {
    var slot := cycle / cfg.points as real;
    c.(cycle := cycle, slotLen := slot, slotIdx := 0, slotRemaining := slot, partWeldOk := true, partActive := true)
  }

  function ScheduleSlot(s: Sim): Sim {
    Schedule(s.(cell := s.cell.(slotEnd := Some(s.now + s.cell.slotRemaining))),
             s.cell.slotRemaining, SlotEnd, Some(s.cell.epoch))
  }

  function StartProducing(cfg: Config, s: Sim, d: Draws): (r: Sim)
    requires cfg.points > 0
    ensures Kept(s.cell, r.cell) && MayTake(s.cell, r.cell, d.cycle) && SameDue(s.cell, r.cell)
  {
    var s1 := Enter(s, Producing, 0, AUTO_MODE, DefaultOrigin(Producing, 0));
    var s2 := ScheduleSlot(if s1.cell.partActive then s1 else s1.(cell := NewPart(cfg, s1.cell, d.cycle)));
    match d.interruption
    case None => s2
    case Some(it) => Schedule(s2, it.delay, Interrupt(it.what), Some(s2.cell.epoch))
  }

  /** The cell is free: break, then cap change, then dressing, then production. */
  function Resume(cfg: Config, s: Sim, d: Draws): (r: Sim)
    requires cfg.points > 0
    ensures Kept(s.cell, r.cell) && MayTake(s.cell, r.cell, d.cycle)
  {
    if s.cell.breakActive then Enter(s, PlannedStop, 0, AUTO_MODE, DefaultOrigin(PlannedStop, 0))
    else if s.cell.capChangeDue then StartSetup(s, true, cfg.capChangeS)
    else if s.cell.dressingDue then StartSetup(s, false, cfg.dressingS)
    else StartProducing(cfg, s, d)
  }

  /** A duration of zero counts as none given. */
  function EnterFault(s: Sim, code: int, duration: Option<real>, d: Draws): (r: Sim)
    ensures Kept(s.cell, r.cell) && SamePart(s.cell, r.cell) && SameDue(s.cell, r.cell)
  {
    var s1 := Enter(s, Fault, code, AUTO_MODE, DefaultOrigin(Fault, code));
    var given := duration.Some? && duration.value != 0.0;
    StopFor(s1, if given then duration.value else d.faultS, FaultStop(code))
  }

  // ------------------------------------------------------------ handlers

  predicate Current(s: Sim, e: Ev) { e.epoch == Some(s.cell.epoch) }

  function Closed(c: Cell, isScrap: bool): Cell {
    c.(partActive := false,
       scrap := if isScrap then Masked(c.scrap + 1) else c.scrap,
       good := if isScrap then c.good else Masked(c.good + 1),
       partsSinceCap := c.partsSinceCap + 1,
       partsSinceDressing := c.partsSinceDressing + 1,
       weldNok := if c.partWeldOk then 0 else c.weldNok + 1)
  }

  function PartWrites(c: Cell, isScrap: bool): Writes {
    [if isScrap then (Scrap, I(c.scrap)) else (Good, I(c.good)), (LastCycle, R(Rounded(c.cycle)))]
  }

  /** The part is over: it is counted as good or scrap and its cycle is published. */
  function CountPart(s: Sim, d: Draws): Sim {
    var isScrap := !s.cell.partWeldOk || d.scrap;
    var c := Closed(s.cell, isScrap);
    Publish(s.(cell := c), PartWrites(c, isScrap))
  }

  /** What the finished part makes due: a dressing forced by spoilt parts, a cap change, or a dressing. */
  function Noted(cfg: Config, c: Cell): (r: Cell)
    ensures r == c.(weldNok := r.weldNok, dressingDue := r.dressingDue, capChangeDue := r.capChangeDue)
    ensures (c.dressingDue ==> r.dressingDue) && (c.capChangeDue ==> r.capChangeDue)
  {
    if c.weldNok >= cfg.nokLimit then c.(weldNok := 0, dressingDue := true)
    else if c.partsSinceCap >= c.nextCapChange then c.(capChangeDue := true)
    else if c.partsSinceDressing >= c.nextDressing then c.(dressingDue := true)
    else c
  }

  /** Enough spoilt parts in a row are a weld fault; otherwise the cell is free. */
  function AfterPart(cfg: Config, s: Sim, d: Draws): Sim
    requires cfg.points > 0
  {
    var s1 := s.(cell := Noted(cfg, s.cell));
    if s.cell.weldNok >= cfg.nokLimit then EnterFault(s1, WELD_FAULT, None, d) else Resume(cfg, s1, d)
  }

  function CompletePart(cfg: Config, s: Sim, d: Draws): Sim
    requires cfg.points > 0
  {
    AfterPart(cfg, CountPart(s, d), d)
  }

  function Marked(c: Cell, d: Draws): Cell {
    c.(slotEnd := None, pointsSinceCap := c.pointsSinceCap + 1, partWeldOk := c.partWeldOk && d.pointOk,
       slotIdx := c.slotIdx + 1)
  }

  function PointWrites(c: Cell, d: Draws): Writes {
    [(WeldCurrent, R(Rounded(d.current))), (WeldOk, B(d.pointOk)), (WeldPoints, I(c.pointsSinceCap))]
  }

  function WeldPoint(s: Sim, d: Draws): Sim {
    var c := Marked(s.cell, d);
    Publish(s.(cell := c), PointWrites(c, d))
  }

  function OnSlotEnd(cfg: Config, s: Sim, d: Draws): Sim
    requires cfg.points > 0
  {
    var s1 := WeldPoint(s, d);
    if s1.cell.slotIdx < cfg.points then ScheduleSlot(s1.(cell := s1.cell.(slotRemaining := s1.cell.slotLen)))
    else CompletePart(cfg, s1, d)
  }

  function OnInterrupt(s: Sim, what: Cut, d: Draws): Sim {
    match what
    case FaultCut(code) => EnterFault(s, code, None, d)
    case StarvedCut => StopFor(Enter(s, Starved, 0, AUTO_MODE, DefaultOrigin(Starved, 0)), d.flowS, StarvedStop)
    case BlockedCut => StopFor(Enter(s, Blocked, 0, AUTO_MODE, DefaultOrigin(Blocked, 0)), d.flowS, BlockedStop)
  }

  function FinishSetup(s: Sim, capChange: bool, d: Draws): Sim {
    if capChange then
      Publish(s.(cell := s.cell.(pointsSinceCap := 0, partsSinceCap := 0, partsSinceDressing := 0,
                                 nextCapChange := d.nextCapChange, nextDressing := d.nextDressing)),
              [(WeldPoints, I(0))])
    else s.(cell := s.cell.(partsSinceDressing := 0, nextDressing := d.nextDressing))
  }

  function OnStopEnd(cfg: Config, s: Sim, stop: StopKind, d: Draws): Sim
    requires cfg.points > 0
  {
    if stop.FaultStop? && d.manual then
      StopFor(Enter(s, Manual, 0, MANUAL_MODE, OriginCode(StationOfFault(stop.code))), d.manualS, ManualStop)
    else Resume(cfg, if stop.SetupStop? then FinishSetup(s, stop.capChange, d) else s, d)
  }

  /** The window in force has begun: its end is queued. */
  function TakeBreak(cfg: Config, s: Sim): Sim
    requires ValidSlot(cfg.calendar, s.cell.breakWindow)
  {
    Schedule(s.(cell := s.cell.(breakActive := true)), EndOf(cfg.calendar, s.cell.breakWindow) - s.now, BreakEnd, None)
  }

  function QueueBreak(cfg: Config, s: Sim): Sim
    requires ValidSlot(cfg.calendar, s.cell.breakWindow)
  {
    var start := StartOf(cfg.calendar, s.cell.breakWindow);
    if start <= s.now then TakeBreak(cfg, s) else Schedule(s, start - s.now, BreakStart, None)
  }

  function ArmBreak(cfg: Config, s: Sim, after: real): Sim
    requires ValidCalendar(cfg.calendar)
  {
    QueueBreak(cfg, s.(cell := s.cell.(breakWindow := NextWindow(cfg.calendar, after))))
  }

  /** An idle line takes the break at once; PRODUCING finishes its part, other stops carry on. */
  function OnBreakStart(cfg: Config, s: Sim, d: Draws): Sim
    requires cfg.points > 0 && ValidSlot(cfg.calendar, s.cell.breakWindow)
  {
    var s1 := TakeBreak(cfg, s);
    if s.cell.state.Starved? || s.cell.state.Blocked? then Resume(cfg, s1, d) else s1
  }

  /** The next window is looked for past this one's end. */
  function LeaveBreak(cfg: Config, s: Sim): Sim
    requires ValidCalendar(cfg.calendar) && ValidSlot(cfg.calendar, s.cell.breakWindow)
  {
    ArmBreak(cfg, s.(cell := s.cell.(breakActive := false)),
             RMax(s.now, EndOf(cfg.calendar, s.cell.breakWindow)) + 1.0)
  }

  function OnBreakEnd(cfg: Config, s: Sim, d: Draws): Sim
    requires cfg.points > 0 && ValidCalendar(cfg.calendar) && ValidSlot(cfg.calendar, s.cell.breakWindow)
  {
    var s1 := LeaveBreak(cfg, s);
    if s.cell.state.PlannedStop? then Resume(cfg, s1, d) else s1
  }

  function OnHeartbeat(s: Sim): Sim {
    var c := s.cell.(heartbeat := Masked(s.cell.heartbeat + 1));
    Schedule(if s.cell.frozen then s else SetTag(s.(cell := c), Heartbeat, I(c.heartbeat)), 1.0, HeartbeatTick, None)
  }

  // ------------------------------------------------------------ chaos

  function SetCounters(s: Sim, good: nat, scrap: nat): Sim {
    var c := s.cell.(good := Masked(good), scrap := Masked(scrap));
    Publish(s.(cell := c), [(Good, I(c.good)), (Scrap, I(c.scrap))])
  }

  /** Aligned on absolute time: the next multiple of the period. */
  function NextMultiple(now: real, period: real): real
    requires period > 0.0
  {
    ((now / period).Floor + 1) as real * period
  }

  function ScheduleNext(s: Sim, kind: Kind, period: real): Sim
    requires period > 0.0
  {
    Schedule(s, NextMultiple(s.now, period) - s.now, kind, None)
  }

  function OnFreezeStart(cfg: Config, s: Sim): Sim {
    match cfg.chaos.freeze
    case None => s
    case Some(f) => Schedule(s.(cell := s.cell.(frozen := true)), f.duration, FreezeEnd, None)
  }

  function OnFreezeEnd(cfg: Config, s: Sim): Sim
    requires ValidConfig(cfg)
  {
    match cfg.chaos.freeze
    case None => s
    case Some(f) => ScheduleNext(s.(cell := s.cell.(frozen := false)), FreezeStart, f.every)
  }

  function OnCounterReset(cfg: Config, s: Sim): Sim
    requires ValidConfig(cfg)
  {
    match cfg.chaos.resetEvery
    case None => s
    case Some(every) =>
      var s1 := SetCounters(s, 0, 0);
      ScheduleNext(SetTag(s1.(cell := s1.cell.(heartbeat := 0)), Heartbeat, I(0)), CounterReset, every)
  }

  // ------------------------------------------------------------ driving

  predicate Sooner(e: Ev, f: Ev) { e.ts < f.ts || (e.ts == f.ts && e.order < f.order) }

  predicate IsFirst(e: Ev, heap: set<Ev>) { e in heap && forall f :: f in heap ==> f == e || Sooner(e, f) }

  ghost predicate Numbered(heap: set<Ev>) { forall e, f :: e in heap && f in heap && e.order == f.order ==> e == f }

  lemma {:induction false} HasFirst(heap: set<Ev>)
    requires heap != {} && Numbered(heap)
    ensures exists e :: IsFirst(e, heap)
  {
    EvsInhabited(heap);
    var a :| a in heap;
    var rest := heap - {a};
    if rest == {} {
      assert heap == {a};
      assert IsFirst(a, heap);
    } else {
      HasFirst(rest);
      var b :| IsFirst(b, rest);
      assert forall f :: f in heap ==> f == a || f in rest;
      assert IsFirst(if Sooner(a, b) then a else b, heap);
    }
  }

  lemma EvsInhabited(heap: set<Ev>)
    ensures heap == {} || exists e :: e in heap
  {
    if forall e :: e !in heap { assert heap == {}; }
  }

  /** The top of the heap: smallest timestamp, then smallest sequence number. */
  function First(heap: set<Ev>): (e: Ev)
    requires heap != {} && Numbered(heap)
    ensures IsFirst(e, heap)
  {
    HasFirst(heap);
    var e :| IsFirst(e, heap);
    e
  }

  /** Dispatch; a callback of an earlier epoch is ignored. */
  function Handle(cfg: Config, s: Sim, e: Ev, d: Draws): Sim
    requires ValidConfig(cfg) && ValidSlot(cfg.calendar, s.cell.breakWindow)
  {
    match e.kind
    case SlotEnd => if Current(s, e) then OnSlotEnd(cfg, s, d) else s
    case Interrupt(what) => if Current(s, e) then OnInterrupt(s, what, d) else s
    case StopEnd(stop) => if Current(s, e) then OnStopEnd(cfg, s, stop, d) else s
    case BreakStart => OnBreakStart(cfg, s, d)
    case BreakEnd => OnBreakEnd(cfg, s, d)
    case HeartbeatTick => OnHeartbeat(s)
    case FreezeStart => OnFreezeStart(cfg, s)
    case FreezeEnd => OnFreezeEnd(cfg, s)
    case CounterReset => OnCounterReset(cfg, s)
  }

  /** Time moves to the next event, which leaves the heap. */
  function Pop(s: Sim, e: Ev): Sim { s.(now := e.ts, heap := s.heap - {e}) }

  /** `step`, before the drain of what it published. */
  function Step(cfg: Config, s: Sim, d: Draws): Sim
    requires ValidConfig(cfg) && ValidSlot(cfg.calendar, s.cell.breakWindow)
    requires s.heap != {} && Numbered(s.heap)
  {
    var e := First(s.heap);
    Handle(cfg, Pop(s, e), e, d)
  }

  datatype Forced = Refused | Started | KeyError

  /** There is a duration to be had: one other than zero is given, or the code has one configured. */
  predicate HasDuration(cfg: Config, code: int, duration: real) {
    duration != 0.0 || code == WELD_FAULT || code in cfg.faults
  }

  /** The cell's `force_fault`: refused unless producing, and for unknown codes. A zero duration falls back
      on the configured one; where there is none it raises, and by then the cell has entered the fault,
      with no end queued. */
  function FaultNow(cfg: Config, s: Sim, code: int, duration: real, d: Draws): (Sim, Forced) {
    if !s.cell.state.Producing? || StationOfFault(code).None? then (s, Refused)
    else if HasDuration(cfg, code, duration) then (EnterFault(s, code, Some(duration), d), Started)
    else (Enter(s, Fault, code, AUTO_MODE, DefaultOrigin(Fault, code)), KeyError)
  }

  /** The engine's `force_fault`: refused too while events are due. */
  function ForceFault(cfg: Config, s: Sim, code: int, duration: real, at: real, d: Draws): (Sim, Forced)
    requires s.heap != {} && Numbered(s.heap)
  {
    if First(s.heap).ts <= at then (s, Refused) else FaultNow(cfg, s.(now := RMax(s.now, at)), code, duration, d)
  }

  // ------------------------------------------------------------ start, snapshot, restart

  /** What survives a restart; `PersistedState` adds the two timestamps. */
  datatype Retained = Retained(
    good: nat,
    scrap: nat,
    heartbeat: nat,
    pointsSinceCap: nat,
    partsSinceCap: nat,
    partsSinceDressing: nat,
    nextDressing: nat,
    nextCapChange: nat)

  datatype Persisted = Persisted(simTime: real, highWater: real, clean: bool, retained: Retained)
  {
    function ResumeTs(): real { if clean then simTime else highWater }
  }

  function Snapshot(s: Sim, clean: bool, now: Option<real>, lookahead: real): Persisted {
    var t := RMax(s.now, if now.Some? then now.value else s.now);
    var c := s.cell;
    Persisted(t, if clean then t else t + lookahead, clean,
              Retained(c.good, c.scrap, c.heartbeat, c.pointsSinceCap, c.partsSinceCap, c.partsSinceDressing,
                       c.nextDressing, c.nextCapChange))
  }

  function NewCell(cfg: Config, r: Retained): Cell {
    Cell(r.good, r.scrap, r.heartbeat, false, r.nextDressing, r.nextCapChange, false, false, 0,
         0, Producing, Slot(0, 0), false, false, true, cfg.theoretical, 0, 0.0, 0.0, None,
         r.pointsSinceCap, r.partsSinceCap, r.partsSinceDressing)
  }

  /** A constructed simulation: nothing queued, nothing published. */
  function Created(cfg: Config, startTs: real, r: Retained): Sim { Sim(startTs, {}, 0, map[], [], NewCell(cfg, r)) }

  function StartWrites(cfg: Config, c: Cell): Writes {
    [(CycleTime, R(cfg.theoretical)), (LastCycle, R(0.0)), (Good, I(c.good)), (Scrap, I(c.scrap)),
     (Heartbeat, I(c.heartbeat)), (WeldCurrent, R(0.0)), (WeldPoints, I(c.pointsSinceCap)), (WeldOk, B(true))]
  }

  function ApplyAtStart(cfg: Config, s: Sim): Sim {
    if cfg.chaos.enabled && cfg.chaos.counters.Some?
    then SetCounters(s, cfg.chaos.counters.value.0, cfg.chaos.counters.value.1) else s
  }

  function ArmChaos(cfg: Config, s: Sim): Sim
    requires ValidConfig(cfg)
  {
    if !cfg.chaos.enabled then s
    else
      var s1 := if cfg.chaos.freeze.Some? then ScheduleNext(s, FreezeStart, cfg.chaos.freeze.value.every) else s;
      if cfg.chaos.resetEvery.Some? then ScheduleNext(s1, CounterReset, cfg.chaos.resetEvery.value) else s1
  }

  function StartCell(cfg: Config, s: Sim, d: Draws): Sim
    requires ValidConfig(cfg)
  {
    var s1 := Schedule(Publish(s, StartWrites(cfg, s.cell)), 1.0, HeartbeatTick, None);
    Resume(cfg, ArmBreak(cfg, s1, s1.now), d)
  }

  function Start(cfg: Config, startTs: real, r: Retained, d: Draws): Sim
    requires ValidConfig(cfg)
  {
    ArmChaos(cfg, StartCell(cfg, ApplyAtStart(cfg, Created(cfg, startTs, r)), d))
  }
}
