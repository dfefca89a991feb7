/** simulator/cell_sim/cell.py and engine.py in their own form: objects updated in place, each method
    proved to do to the object what Simulator.dfy says in one expression. */
module Engine {
  import opened Basics
  import opened Facts
  import opened Shifts
  import opened Simulator
  import opened SimLaws
  import opened SimRuns
  import opened SimRestarts

  /** The part of `Simulation` the cell sees: clock, heap, image and pending changes. */
  class Host {
    var now: real
    var heap: set<Ev>
    var order: nat
    var image: map<Tag, TagValue>
    var changes: seq<SimChange>

    constructor (startTs: real)
      ensures now == startTs && heap == {} && order == 0 && image == map[] && changes == []
    {
      now, heap, order, image, changes := startTs, {}, 0, map[], [];
    }

    function View(c: Cell): Sim
      reads this
    {
      Sim(now, heap, order, image, changes, c)
    }

    method Schedule(delay: real, kind: Kind, epoch: Option<nat>)
      modifies this
      ensures forall c :: View(c) == Simulator.Schedule(old(View(c)), delay, kind, epoch)
    {
      heap := heap + {Ev(now + delay, order, epoch, kind)};
      order := order + 1;
    }

    method SetTag(tag: Tag, v: TagValue)
      modifies this
      ensures forall c :: View(c) == Simulator.SetTag(old(View(c)), tag, v)
    {
      var value := Coerce(tag, v);
      if tag in image && image[tag] == value {
        return;
      }
      image := image[tag := value];
      changes := changes + [SimChange(now, tag, value)];
    }

    method Drain() returns (out: seq<SimChange>)
      modifies this
      ensures out == old(changes)
      ensures forall c :: View(c) == Drained(old(View(c)))
    {
      out := changes;
      changes := [];
    }
  }

  const STATIONS: seq<Station> := [OP10, OP20, OP30]

  class CellUnit {
    const cfg: Config
    const host: Host

    var good: nat
    var scrap: nat
    var heartbeat: nat
    var frozen: bool
    var nextDressing: nat
    var nextCapChange: nat
    var dressingDue: bool
    var capChangeDue: bool
    var weldNok: nat
    var epoch: nat
    var state: State
    var breakWindow: Slot
    var breakActive: bool
    var partActive: bool
    var partWeldOk: bool
    var cycle: real
    var slotIdx: nat
    var slotLen: real
    var slotRemaining: real
    var slotEnd: Option<real>
    var pointsSinceCap: nat
    var partsSinceCap: nat
    var partsSinceDressing: nat

    constructor (cfg: Config, host: Host, kept: Retained)
      ensures this.cfg == cfg && this.host == host
      ensures Fields() == NewCell(cfg, kept)
    {
      this.cfg, this.host := cfg, host;
      good, scrap, heartbeat, frozen := kept.good, kept.scrap, kept.heartbeat, false;
      nextDressing, nextCapChange := kept.nextDressing, kept.nextCapChange;
      dressingDue, capChangeDue, weldNok := false, false, 0;
      epoch, state, breakWindow, breakActive := 0, Producing, Slot(0, 0), false;
      partActive, partWeldOk, cycle := false, true, cfg.theoretical;
      slotIdx, slotLen, slotRemaining, slotEnd := 0, 0.0, 0.0, None;
      pointsSinceCap, partsSinceCap, partsSinceDressing := kept.pointsSinceCap, kept.partsSinceCap,
          kept.partsSinceDressing;
    }

    function Fields(): Cell
      reads this
    {
      Cell(good, scrap, heartbeat, frozen, nextDressing, nextCapChange, dressingDue, capChangeDue, weldNok,
           epoch, state, breakWindow, breakActive, partActive, partWeldOk, cycle, slotIdx, slotLen, slotRemaining,
           slotEnd, pointsSinceCap, partsSinceCap, partsSinceDressing)
    }

    function View(): Sim
      reads this, host
    {
      host.View(Fields())
    }

    // ---------------------------------------------------------- transitions

    /** Leaving PRODUCING inside a slot freezes it; the new epoch silences what was scheduled. */
    method ChangeState(st: State)
      modifies this
      ensures Fields() == var c := Frozen(old(Fields()), host.now); c.(epoch := c.epoch + 1, state := st)
    {
      if slotEnd.Some? {
        slotRemaining := RMax(0.0, slotEnd.value - host.now);
        slotEnd := None;
      }
      epoch := epoch + 1;
      state := st;
    }

    method Enter(st: State, code: int, mode: int, origin: int)
      modifies this, host
      ensures View() == Simulator.Enter(old(View()), st, code, mode, origin)
    {
      ChangeState(st);
      ghost var mid := View();
      PublishCellState(st, code, mode, origin);
      PublishStations(4, st, code, mode, origin);
      assert View() == PublishState(mid, 0, st, code, mode, origin);
    }

    method PublishCellState(st: State, code: int, mode: int, origin: int)
      modifies host
      ensures PublishState(View(), 4, st, code, mode, origin) == PublishState(old(View()), 0, st, code, mode, origin)
    {
      host.SetTag(CellState, I(Code(st)));
      assert PublishState(View(), 1, st, code, mode, origin) == PublishState(old(View()), 0, st, code, mode, origin);
      host.SetTag(CellMode, I(mode));
      assert PublishState(View(), 2, st, code, mode, origin) == PublishState(old(View()), 0, st, code, mode, origin);
      host.SetTag(CellFault, I(code));
      assert PublishState(View(), 3, st, code, mode, origin) == PublishState(old(View()), 0, st, code, mode, origin);
      host.SetTag(CellOrigin, I(origin));
    }

    method PublishStations(ghost first: nat, st: State, code: int, mode: int, origin: int)
      requires first == 4
      modifies host
      ensures View() == PublishState(old(View()), first, st, code, mode, origin)
    {
      ghost var before, i := View(), first;
      for k := 0 to |STATIONS|
        invariant i == 4 + 2 * k
        invariant PublishState(View(), i, st, code, mode, origin)
                  == PublishState(before, first, st, code, mode, origin)
      {
        StationWrites(k, i, st, code, mode, origin);
        PublishStation(STATIONS[k], i, st, code, mode, origin);
        i := i + 2;
      }
    }

    method PublishStation(at: Station, ghost i: nat, st: State, code: int, mode: int, origin: int)
      requires i + 2 <= STATE_WRITES
      requires StateWrite(i, st, code, mode, origin) == (StationState(at), I(Code(st)))
      requires StateWrite(i + 1, st, code, mode, origin) == (StationFault(at), I(StationFaultOf(at, code)))
      modifies host
      ensures PublishState(View(), i + 2, st, code, mode, origin)
              == PublishState(old(View()), i, st, code, mode, origin)
    {
      host.SetTag(StationState(at), I(Code(st)));
      assert PublishState(View(), i + 1, st, code, mode, origin)
             == PublishState(old(View()), i, st, code, mode, origin);
      host.SetTag(StationFault(at), I(StationFaultOf(at, code)));
    }

    method StopFor(duration: real, stop: StopKind)
      modifies host
      ensures View() == Simulator.StopFor(old(View()), duration, stop)
    {
      host.Schedule(duration, StopEnd(stop), Some(epoch));
    }

    method ClearDue(capChange: bool)
      modifies this
      ensures var c := old(Fields());
              Fields() == c.(dressingDue := false, capChangeDue := !capChange && c.capChangeDue)
    {
      dressingDue := false;
      if capChange {
        capChangeDue := false;
      }
    }

    method StartSetup(capChange: bool, duration: real)
      modifies this, host
      ensures View() == Simulator.StartSetup(old(View()), capChange, duration)
    {
      Enter(Setup, 0, AUTO_MODE, DefaultOrigin(Setup, 0));
      ClearDue(capChange);
      StopFor(duration, SetupStop(capChange));
    }

    method FirstSlot()
      requires cfg.points > 0
      modifies this
      ensures var c := old(Fields());
              Fields() == c.(slotLen := c.cycle / cfg.points as real, slotIdx := 0,
                  slotRemaining := c.cycle / cfg.points as real)
    {
      slotLen := cycle / cfg.points as real;
      slotIdx := 0;
      slotRemaining := slotLen;
    }

    method BeginPart(d: Draws)
      requires cfg.points > 0
      modifies this
      ensures Fields() == NewPart(cfg, old(Fields()), d.cycle)
    {
      cycle := d.cycle;
      FirstSlot();
      partWeldOk := true;
      partActive := true;
    }

    method ScheduleSlot()
      modifies this, host
      ensures View() == Simulator.ScheduleSlot(old(View()))
    {
      slotEnd := Some(host.now + slotRemaining);
      host.Schedule(slotRemaining, SlotEnd, Some(epoch));
    }

    method StartProducing(d: Draws)
      requires cfg.points > 0
      modifies this, host
      ensures View() == Simulator.StartProducing(cfg, old(View()), d)
    {
      Enter(Producing, 0, AUTO_MODE, DefaultOrigin(Producing, 0));
      ghost var entered := View();
      if !partActive {
        BeginPart(d);
      }
      assert View() == if entered.cell.partActive then entered
             else entered.(cell := NewPart(cfg, entered.cell, d.cycle));
      ScheduleSlot();
      if d.interruption.Some? {
        host.Schedule(d.interruption.value.delay, Interrupt(d.interruption.value.what), Some(epoch));
      }
    }

    /** The cell is free: break, then cap change, then dressing, then production. */
    method Resume(d: Draws)
      requires cfg.points > 0
      modifies this, host
      ensures View() == Simulator.Resume(cfg, old(View()), d)
    {
      if breakActive {
        Enter(PlannedStop, 0, AUTO_MODE, DefaultOrigin(PlannedStop, 0));
      } else if capChangeDue {
        StartSetup(true, cfg.capChangeS);
      } else if dressingDue {
        StartSetup(false, cfg.dressingS);
      } else {
        StartProducing(d);
      }
    }

    method EnterFault(code: int, duration: Option<real>, d: Draws)
      modifies this, host
      ensures View() == Simulator.EnterFault(old(View()), code, duration, d)
    {
      Enter(Fault, code, AUTO_MODE, DefaultOrigin(Fault, code));
      var given := duration.Some? && duration.value != 0.0;
      StopFor(if given then duration.value else d.faultS, FaultStop(code));
    }

    method FaultNow(code: int, duration: real, d: Draws) returns (how: Forced)
      modifies this, host
      ensures (View(), how) == Simulator.FaultNow(cfg, old(View()), code, duration, d)
    {
      if !state.Producing? || StationOfFault(code).None? { return Refused; }
      if HasDuration(cfg, code, duration) {
        EnterFault(code, Some(duration), d);
        how := Started;
      } else {
        Enter(Fault, code, AUTO_MODE, DefaultOrigin(Fault, code));
        how := KeyError;
      }
    }

    // ---------------------------------------------------------- handlers

    /** `ElectrodeWear.weld_point`. */
    method WearPoint()
      modifies this
      ensures var c := old(Fields()); Fields() == c.(slotEnd := None, pointsSinceCap := c.pointsSinceCap + 1)
    {
      slotEnd := None;
      pointsSinceCap := pointsSinceCap + 1;
    }

    method MarkPoint(d: Draws)
      modifies this
      ensures Fields() == Marked(old(Fields()), d)
    {
      WearPoint();
      partWeldOk := partWeldOk && d.pointOk;
      slotIdx := slotIdx + 1;
    }

    method WeldPoint(d: Draws)
      modifies this, host
      ensures View() == Simulator.WeldPoint(old(View()), d)
    {
      MarkPoint(d);
      ghost var marked := View();
      host.SetTag(WeldCurrent, R(Rounded(d.current)));
      host.SetTag(WeldOk, B(d.pointOk));
      host.SetTag(WeldPoints, I(pointsSinceCap));
      PublishThree(marked, (WeldCurrent, R(Rounded(d.current))), (WeldOk, B(d.pointOk)),
                   (WeldPoints, I(pointsSinceCap)));
    }

    /** `ElectrodeWear.part_done`. */
    method PartDone()
      modifies this
      ensures var c := old(Fields());
              Fields() == c.(partsSinceCap := c.partsSinceCap + 1, partsSinceDressing := c.partsSinceDressing + 1)
    {
      partsSinceCap := partsSinceCap + 1;
      partsSinceDressing := partsSinceDressing + 1;
    }

    method CountOne(isScrap: bool)
      modifies this
      ensures var c := old(Fields());
              Fields() == if isScrap then c.(scrap := Masked(c.scrap + 1)) else c.(good := Masked(c.good + 1))
    {
      if isScrap {
        scrap := Masked(scrap + 1);
      } else {
        good := Masked(good + 1);
      }
    }

    method ReleasePart()
      modifies this
      ensures var c := old(Fields());
              Fields() == c.(partActive := false, weldNok := if c.partWeldOk then 0 else c.weldNok + 1)
    {
      partActive := false;
      weldNok := if partWeldOk then 0 else weldNok + 1;
    }

    method ClosePart(isScrap: bool)
      modifies this
      ensures Fields() == Closed(old(Fields()), isScrap)
    {
      CountOne(isScrap);
      PartDone();
      ReleasePart();
    }

    method CountPart(d: Draws)
      modifies this, host
      ensures View() == Simulator.CountPart(old(View()), d)
    {
      var isScrap := !partWeldOk || d.scrap;
      ClosePart(isScrap);
      ghost var counted := View();
      var first: (Tag, TagValue) := if isScrap then (Scrap, I(scrap)) else (Good, I(good));
      host.SetTag(first.0, first.1);
      host.SetTag(LastCycle, R(Rounded(cycle)));
      PublishTwo(counted, first, (LastCycle, R(Rounded(cycle))));
    }

    method NoteDue()
      modifies this
      ensures Fields() == Noted(cfg, old(Fields()))
    {
      if weldNok >= cfg.nokLimit {
        weldNok := 0;
        dressingDue := true;
      } else if partsSinceCap >= nextCapChange {
        capChangeDue := true;
      } else if partsSinceDressing >= nextDressing {
        dressingDue := true;
      }
    }

    method AfterPart(d: Draws)
      requires cfg.points > 0
      modifies this, host
      ensures View() == Simulator.AfterPart(cfg, old(View()), d)
    {
      var spoilt := weldNok >= cfg.nokLimit;
      NoteDue();
      if spoilt {
        EnterFault(WELD_FAULT, None, d);
      } else {
        Resume(d);
      }
    }

    method CompletePart(d: Draws)
      requires cfg.points > 0
      modifies this, host
      ensures View() == Simulator.CompletePart(cfg, old(View()), d)
    {
      CountPart(d);
      AfterPart(d);
    }

    method OnSlotEnd(d: Draws)
      requires cfg.points > 0
      modifies this, host
      ensures View() == Simulator.OnSlotEnd(cfg, old(View()), d)
    {
      WeldPoint(d);
      if slotIdx < cfg.points {
        slotRemaining := slotLen;
        ScheduleSlot();
      } else {
        CompletePart(d);
      }
    }

    method OnInterrupt(what: Cut, d: Draws)
      modifies this, host
      ensures View() == Simulator.OnInterrupt(old(View()), what, d)
    {
      match what {
        case FaultCut(code) =>
          EnterFault(code, None, d);
        case StarvedCut =>
          Enter(Starved, 0, AUTO_MODE, DefaultOrigin(Starved, 0));
          StopFor(d.flowS, StarvedStop);
        case BlockedCut =>
          Enter(Blocked, 0, AUTO_MODE, DefaultOrigin(Blocked, 0));
          StopFor(d.flowS, BlockedStop);
      }
    }

    method ChangeCaps()
      modifies this
      ensures Fields() == old(Fields()).(pointsSinceCap := 0, partsSinceCap := 0, partsSinceDressing := 0)
    {
      pointsSinceCap := 0;
      partsSinceCap := 0;
      partsSinceDressing := 0;
    }

    method NewCaps(d: Draws)
      modifies this
      ensures Fields() == old(Fields()).(pointsSinceCap := 0, partsSinceCap := 0, partsSinceDressing := 0,
                                         nextCapChange := d.nextCapChange, nextDressing := d.nextDressing)
    {
      ChangeCaps();
      nextCapChange := d.nextCapChange;
      nextDressing := d.nextDressing;
    }

    method FinishSetup(capChange: bool, d: Draws)
      modifies this, host
      ensures View() == Simulator.FinishSetup(old(View()), capChange, d)
    {
      if capChange {
        NewCaps(d);
        ghost var changed := View();
        host.SetTag(WeldPoints, I(0));
        PublishOne(changed, (WeldPoints, I(0)));
      } else {
        partsSinceDressing := 0;
        nextDressing := d.nextDressing;
      }
    }

    method OnStopEnd(stop: StopKind, d: Draws)
      requires cfg.points > 0
      modifies this, host
      ensures View() == Simulator.OnStopEnd(cfg, old(View()), stop, d)
    {
      if stop.FaultStop? && d.manual {
        Enter(Manual, 0, MANUAL_MODE, OriginCode(StationOfFault(stop.code)));
        StopFor(d.manualS, ManualStop);
        return;
      }
      if stop.SetupStop? {
        FinishSetup(stop.capChange, d);
      }
      Resume(d);
    }

    // ---------------------------------------------------------- planned break

    /** The window in force has begun: its end is queued. */
    method TakeBreak()
      requires ValidSlot(cfg.calendar, breakWindow)
      modifies this, host
      ensures View() == Simulator.TakeBreak(cfg, old(View()))
    {
      breakActive := true;
      host.Schedule(EndOf(cfg.calendar, breakWindow) - host.now, BreakEnd, None);
    }

    method QueueBreak()
      requires ValidSlot(cfg.calendar, breakWindow)
      modifies this, host
      ensures View() == Simulator.QueueBreak(cfg, old(View()))
    {
      if StartOf(cfg.calendar, breakWindow) <= host.now {
        TakeBreak();
      } else {
        host.Schedule(StartOf(cfg.calendar, breakWindow) - host.now, BreakStart, None);
      }
    }

    method ArmBreak(after: real)
      requires ValidCalendar(cfg.calendar)
      modifies this, host
      ensures View() == Simulator.ArmBreak(cfg, old(View()), after)
    {
      breakWindow := FindNextWindow(cfg.calendar, after);
      QueueBreak();
    }

    method OnBreakStart(d: Draws)
      requires cfg.points > 0 && ValidSlot(cfg.calendar, breakWindow)
      modifies this, host
      ensures View() == Simulator.OnBreakStart(cfg, old(View()), d)
    {
      TakeBreak();
      if state.Starved? || state.Blocked? {
        Resume(d);
      }
    }

    method Rearm(after: real)
      requires ValidCalendar(cfg.calendar)
      modifies this, host
      ensures View() == Simulator.ArmBreak(cfg, old(View()).(cell := old(Fields()).(breakActive := false)), after)
    {
      breakActive := false;
      ArmBreak(after);
    }

    method LeaveBreak()
      requires ValidCalendar(cfg.calendar) && ValidSlot(cfg.calendar, breakWindow)
      modifies this, host
      ensures View() == Simulator.LeaveBreak(cfg, old(View()))
    {
      Rearm(RMax(host.now, EndOf(cfg.calendar, breakWindow)) + 1.0);
    }

    method OnBreakEnd(d: Draws)
      requires cfg.points > 0 && ValidCalendar(cfg.calendar) && ValidSlot(cfg.calendar, breakWindow)
      modifies this, host
      ensures View() == Simulator.OnBreakEnd(cfg, old(View()), d)
    {
      LeaveBreak();
      if state.PlannedStop? {
        Resume(d);
      }
    }

    // ---------------------------------------------------------- heartbeat and chaos

    method OnHeartbeat()
      modifies this, host
      ensures View() == Simulator.OnHeartbeat(old(View()))
    {
      if !frozen {
        heartbeat := Masked(heartbeat + 1);
        host.SetTag(Heartbeat, I(heartbeat));
      }
      host.Schedule(1.0, HeartbeatTick, None);
    }

    method StoreCounters(newGood: nat, newScrap: nat)
      modifies this
      ensures Fields() == old(Fields()).(good := Masked(newGood), scrap := Masked(newScrap))
    {
      good := Masked(newGood);
      scrap := Masked(newScrap);
    }

    method SetCounters(newGood: nat, newScrap: nat)
      modifies this, host
      ensures View() == Simulator.SetCounters(old(View()), newGood, newScrap)
    {
      StoreCounters(newGood, newScrap);
      ghost var stored := View();
      host.SetTag(Good, I(good));
      host.SetTag(Scrap, I(scrap));
      PublishTwo(stored, (Good, I(good)), (Scrap, I(scrap)));
    }

    method OnFreezeStart()
      modifies this, host
      ensures View() == Simulator.OnFreezeStart(cfg, old(View()))
    {
      if cfg.chaos.freeze.Some? {
        frozen := true;
        host.Schedule(cfg.chaos.freeze.value.duration, FreezeEnd, None);
      }
    }

    method ScheduleNext(kind: Kind, period: real)
      requires period > 0.0
      modifies host
      ensures View() == Simulator.ScheduleNext(old(View()), kind, period)
    {
      host.Schedule(NextMultiple(host.now, period) - host.now, kind, None);
    }

    method OnFreezeEnd()
      requires ValidConfig(cfg)
      modifies this, host
      ensures View() == Simulator.OnFreezeEnd(cfg, old(View()))
    {
      if cfg.chaos.freeze.Some? {
        frozen := false;
        ScheduleNext(FreezeStart, cfg.chaos.freeze.value.every);
      }
    }

    method OnCounterReset()
      requires ValidConfig(cfg)
      modifies this, host
      ensures View() == Simulator.OnCounterReset(cfg, old(View()))
    {
      if cfg.chaos.resetEvery.Some? {
        SetCounters(0, 0);
        heartbeat := 0;
        host.SetTag(Heartbeat, I(0));
        ScheduleNext(CounterReset, cfg.chaos.resetEvery.value);
      }
    }

    // ---------------------------------------------------------- dispatch and lifecycle

    /** A callback of the present epoch. */
    method HandleCurrent(e: Ev, d: Draws)
      requires ValidConfig(cfg) && ValidSlot(cfg.calendar, breakWindow)
      requires DrivenByState(e.kind) && e.epoch == Some(epoch)
      modifies this, host
      ensures View() == Simulator.Handle(cfg, old(View()), e, d)
    {
      match e.kind {
        case SlotEnd => OnSlotEnd(d);
        case Interrupt(what) => OnInterrupt(what, d);
        case StopEnd(stop) => OnStopEnd(stop, d);
      }
    }

    method HandleBackground(e: Ev, d: Draws)
      requires ValidConfig(cfg) && ValidSlot(cfg.calendar, breakWindow)
      requires !DrivenByState(e.kind) && !OfBreak(e.kind)
      modifies this, host
      ensures View() == Simulator.Handle(cfg, old(View()), e, d)
    {
      match e.kind {
        case HeartbeatTick => OnHeartbeat();
        case FreezeStart => OnFreezeStart();
        case FreezeEnd => OnFreezeEnd();
        case CounterReset => OnCounterReset();
      }
    }

    method Handle(e: Ev, d: Draws)
      requires ValidConfig(cfg) && ValidSlot(cfg.calendar, breakWindow)
      modifies this, host
      ensures View() == Simulator.Handle(cfg, old(View()), e, d)
    {
      if DrivenByState(e.kind) {
        if e.epoch == Some(epoch) { HandleCurrent(e, d); }
      } else if e.kind.BreakStart? {
        OnBreakStart(d);
      } else if e.kind.BreakEnd? {
        OnBreakEnd(d);
      } else {
        HandleBackground(e, d);
      }
    }

    method PublishStart()
      modifies host
      ensures View() == Publish(old(View()), StartWrites(cfg, old(Fields())))
    {
      var ws := StartWrites(cfg, Fields());
      assert ws[0..] == ws;
      for i := 0 to |ws|
        invariant Publish(View(), ws[i..]) == Publish(old(View()), ws)
      {
        host.SetTag(ws[i].0, ws[i].1);
        assert ws[i..][0] == ws[i] && ws[i..][1..] == ws[i + 1..];
      }
    }

    method Start(d: Draws)
      requires ValidConfig(cfg)
      modifies this, host
      ensures View() == Simulator.StartCell(cfg, old(View()), d)
    {
      PublishStart();
      host.Schedule(1.0, HeartbeatTick, None);
      ArmBreak(host.now);
      Resume(d);
    }
  }

  lemma StationWrites(k: nat, i: nat, st: State, code: int, mode: int, origin: int)
    requires k < |STATIONS| && i == 4 + 2 * k
    ensures StateWrite(i, st, code, mode, origin) == (StationState(STATIONS[k]), I(Code(st)))
    ensures StateWrite(i + 1, st, code, mode, origin)
            == (StationFault(STATIONS[k]), I(StationFaultOf(STATIONS[k], code)))
  {
  }

  lemma PublishOne(s: Sim, a: (Tag, TagValue))
    ensures Publish(s, [a]) == Simulator.SetTag(s, a.0, a.1)
  {
    assert [a][1..] == [];
  }

  lemma PublishTwo(s: Sim, a: (Tag, TagValue), b: (Tag, TagValue))
    ensures Publish(s, [a, b]) == Simulator.SetTag(Simulator.SetTag(s, a.0, a.1), b.0, b.1)
  {
    assert [a, b][1..] == [b];
    PublishOne(Simulator.SetTag(s, a.0, a.1), b);
  }

  lemma PublishThree(s: Sim, a: (Tag, TagValue), b: (Tag, TagValue), c: (Tag, TagValue))
    ensures Publish(s, [a, b, c])
            == Simulator.SetTag(Simulator.SetTag(Simulator.SetTag(s, a.0, a.1), b.0, b.1), c.0, c.1)
  {
    assert [a, b, c][1..] == [b, c];
    PublishTwo(Simulator.SetTag(s, a.0, a.1), b, c);
  }

  // ------------------------------------------------------------ the engine

  /** `Simulation`: the host, its cell and the driving methods. */
  class Simulation {
    const cfg: Config
    const host: Host
    const cell: CellUnit

    constructor (cfg: Config, startTs: real, kept: Retained)
      ensures this.cfg == cfg && cell.cfg == cfg && cell.host == host
      ensures View() == Created(cfg, startTs, kept)
      ensures fresh(host) && fresh(cell)
    {
      this.cfg := cfg;
      var h := new Host(startTs);
      host := h;
      cell := new CellUnit(cfg, h, kept);
    }

    predicate Wired() { cell.cfg == cfg && cell.host == host }

    function View(): Sim
      reads cell, host
    {
      host.View(cell.Fields())
    }

    /** The engine is in one of the states the laws are about. */
    ghost predicate Valid()
      reads cell, host
    {
      Wired() && Sound(cfg, View()) && host.changes == []
    }

    /** `ChaosInjector.apply_at_start` and `arm`. */
    method ApplyChaosAtStart()
      requires Wired()
      modifies cell, host
      ensures View() == ApplyAtStart(cfg, old(View()))
    {
      if cfg.chaos.enabled && cfg.chaos.counters.Some? {
        cell.SetCounters(cfg.chaos.counters.value.0, cfg.chaos.counters.value.1);
      }
    }

    method ArmChaosEvents()
      requires Wired() && ValidConfig(cfg)
      modifies host
      ensures View() == ArmChaos(cfg, old(View()))
    {
      if cfg.chaos.enabled {
        if cfg.chaos.freeze.Some? {
          cell.ScheduleNext(FreezeStart, cfg.chaos.freeze.value.every);
        }
        if cfg.chaos.resetEvery.Some? {
          cell.ScheduleNext(CounterReset, cfg.chaos.resetEvery.value);
        }
      }
    }

    /** Publishes the initial image of every tag. */
    method Start(d: Draws, ghost startTs: real, ghost kept: Retained) returns (out: seq<SimChange>)
      requires Wired() && ValidConfig(cfg) && ValidDraws(cfg, d)
      requires View() == Created(cfg, startTs, kept)
      modifies cell, host
      ensures Valid()
      ensures var s := Simulator.Start(cfg, startTs, kept, d); View() == Drained(s) && out == s.changes
    {
      Launch(d);
      StartOk(cfg, startTs, kept, d, View());
      out := host.Drain();
    }

    method Launch(d: Draws)
      requires Wired() && ValidConfig(cfg)
      modifies cell, host
      ensures View() == ArmChaos(cfg, StartCell(cfg, ApplyAtStart(cfg, old(View())), d))
    {
      ApplyChaosAtStart();
      cell.Start(d);
      ArmChaosEvents();
    }

    /** Processes the next event and returns the changes it caused. */
    method Step(d: Draws) returns (out: seq<SimChange>)
      requires Valid() && ValidDraws(cfg, d)
      modifies cell, host
      ensures Valid()
      ensures View() == Next(cfg, old(View()), Tick(d)) && out == Act(cfg, old(View()), Tick(d)).changes
      ensures host.now == Due(cfg, old(View())).ts
    {
      ghost var before := View();
      QueueNeverEmpty(cfg, before);
      var e := First(host.heap);
      host.heap := host.heap - {e};
      host.now := e.ts;
      assert View() == Pop(before, e);
      cell.Handle(e, d);
      assert View() == Act(cfg, before, Tick(d));
      TickOk(cfg, before, d, e, View());
      out := host.Drain();
      NextOk(cfg, before, Tick(d));
    }

    method NextEventTime() returns (t: real)
      requires Valid()
      ensures t == Due(cfg, View()).ts
    {
      QueueNeverEmpty(cfg, View());
      t := First(host.heap).ts;
    }

    /** Processes the events due up to a time, for as long as draws are supplied. */
    method RunUntil(endTs: real, draws: seq<Draws>) returns (out: seq<SimChange>, used: nat)
      requires Valid() && forall i :: 0 <= i < |draws| ==> ValidDraws(cfg, draws[i])
      modifies cell, host
      ensures Valid() && used <= |draws| && ValidScript(cfg, Ticks(draws[..used]))
      ensures View() == Run(cfg, old(View()), Ticks(draws[..used]))
      ensures out == Log(cfg, old(View()), Ticks(draws[..used]))
      ensures host.now <= RMax(endTs, old(host.now))
      ensures used < |draws| ==> Due(cfg, View()).ts > endTs
    {
      ghost var start := View();
      ghost var script := Ticks(draws[..0]);
      out, used := [], 0;
      while used < |draws|
        invariant used <= |draws| && Valid() && script == Ticks(draws[..used]) && ValidScript(cfg, script)
        invariant View() == Run(cfg, start, script) && out == Log(cfg, start, script)
        invariant host.now <= RMax(endTs, old(host.now))
      {
        var next := NextEventTime();
        if next > endTs {
          return;
        }
        ghost var before, longer := View(), Ticks(draws[..used + 1]);
        TicksExtend(cfg, start, draws, used, script, longer, before);
        var step := Step(draws[used]);
        out := out + step;
        used, script := used + 1, longer;
      }
    }

    /** Time moves to the fault, unless an event is due before. */
    method ForceNow(code: int, duration: real, at: real, d: Draws) returns (how: Forced)
      requires Valid() && ValidDraws(cfg, d)
      modifies cell, host
      ensures Wired() && (how.Refused? ==> host.changes == [])
      ensures (View(), how) == Forcing(cfg, old(View()), code, duration, at, d)
      ensures Sound(cfg, View()) <==> !old(GetsThrough(cfg, View(), code, at))
                                      || (duration >= 0.0 && HasDuration(cfg, code, duration))
    {
      ForcedFaultIsSafeIff(cfg, View(), code, duration, at, d);
      var next := NextEventTime();
      if next <= at { return Refused; }
      host.now := RMax(host.now, at);
      how := cell.FaultNow(code, duration, d);
    }

    /** No output when the fault cannot be started right now. Where it raises, the cell is left in the
        fault with what it published still pending. The laws survive exactly the calls that are refused,
        or have a duration and that is not negative. */
    method ForceFault(code: int, duration: real, at: real, d: Draws) returns (r: Result<Option<seq<SimChange>>>)
      requires Valid() && ValidDraws(cfg, d)
      modifies cell, host
      ensures Wired()
      ensures Valid() <==> !old(GetsThrough(cfg, View(), code, at))
                           || (duration >= 0.0 && HasDuration(cfg, code, duration))
      ensures var (s, how) := Forcing(cfg, old(View()), code, duration, at, d);
              match how
              case Refused => View() == s && r == Success(None)
              case Started => View() == Drained(s) && r == Success(Some(s.changes))
              case KeyError => View() == s && r == Failure("KeyError")
    {
      var how := ForceNow(code, duration, at, d);
      match how {
        case Refused => r := Success(None);
        case KeyError => r := Failure("KeyError");
        case Started =>
          var out := host.Drain();
          r := Success(Some(out));
      }
    }

    method TakeSnapshot(clean: bool, now: Option<real>, lookahead: real) returns (p: Persisted)
      ensures p == Snapshot(View(), clean, now, lookahead)
      ensures host.now <= p.ResumeTs() - (if clean then 0.0 else lookahead)
      ensures p.retained == RetainedOf(cell.Fields())
    {
      var t := RMax(host.now, if now.Some? then now.value else host.now);
      p := Persisted(t, if clean then t else t + lookahead, clean,
                     Retained(cell.good, cell.scrap, cell.heartbeat, cell.pointsSinceCap, cell.partsSinceCap,
                              cell.partsSinceDressing, cell.nextDressing, cell.nextCapChange));
    }
  }

  /** A script of steps only. */
  function Ticks(draws: seq<Draws>): (r: seq<Action>)
    ensures |r| == |draws|
    decreases |draws|
  {
    if draws == [] then [] else Ticks(draws[..|draws| - 1]) + [Tick(draws[|draws| - 1])]
  }

  lemma TicksExtend(cfg: Config, s: Sim, draws: seq<Draws>, n: nat, script: seq<Action>, longer: seq<Action>, r: Sim)
    requires Sound(cfg, s) && n < |draws| && ValidDraws(cfg, draws[n])
    requires script == Ticks(draws[..n]) && longer == Ticks(draws[..n + 1])
    requires ValidScript(cfg, script) && r == Run(cfg, s, script)
    ensures ValidScript(cfg, longer) && Run(cfg, s, longer) == Next(cfg, r, Tick(draws[n]))
    ensures Log(cfg, s, longer) == Log(cfg, s, script) + Act(cfg, r, Tick(draws[n])).changes
  {
    assert draws[..n + 1][..n] == draws[..n];
    assert longer == script + [Tick(draws[n])];
    assert Front(longer) == script && Final(longer) == Tick(draws[n]);
  }
}
