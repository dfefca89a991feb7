/** Stops of the simulated cell over whole runs: what begins them, how long they last, what a free cell does next. */
module SimStops {
  import opened Basics
  import opened Facts
  import opened Shifts
  import opened Simulator
  import opened SimLaws
  import opened SimLog
  import opened SimRuns
  import opened Maintenance
  import opened Wear

  /** The one callback that counts is the end of this stop, at this time. */
  ghost predicate Until(s: Sim, stop: StopKind, end: real) {
    exists e :: Live(s.heap, s.cell.epoch) == {e} && e.kind == StopEnd(stop) && e.ts == end
  }

  /** How long a stop begun by an action should last. */
  function LastsFor(cfg: Config, stop: StopKind, a: Action): real {
    match stop
    case FaultStop(_) => if a.Force? && a.duration != 0.0 then a.duration else a.d.faultS
    case SetupStop(capChange) => if capChange then cfg.capChangeS else cfg.dressingS
    case StarvedStop => a.d.flowS
    case BlockedStop => a.d.flowS
    case ManualStop => a.d.manualS
  }

  /** What may begin a stop: a fault its interruption, a call that forces it or, for the weld fault, a finished part;
      a lack of parts or of room its interruption; a manual recovery the end of a fault; a setup a free cell. */
  ghost predicate BegunBy(cfg: Config, s: Sim, a: Action, stop: StopKind)
    requires Sound(cfg, s)
  {
    match stop
    case FaultStop(code) =>
      if a.Force? then code == a.code
      else Due(cfg, s).kind == Interrupt(FaultCut(code)) || (code == 201 && Completes(cfg, s, a))
    case StarvedStop => a.Tick? && Due(cfg, s).kind == Interrupt(StarvedCut)
    case BlockedStop => a.Tick? && Due(cfg, s).kind == Interrupt(BlockedCut)
    case ManualStop => a.Tick? && a.d.manual && Due(cfg, s).kind.StopEnd? && Due(cfg, s).kind.stop.FaultStop?
    case SetupStop(_) => a.Tick? && (Completes(cfg, s, a) || Due(cfg, s).kind.StopEnd? || OfBreak(Due(cfg, s).kind))
  }

  predicate IsStop(st: State) { !st.Producing? && !st.PlannedStop? }

  // ------------------------------------------------------------ what each handler begins

  lemma StopStands(s: Sim, st: State, code: int, mode: int, origin: int, duration: real, stop: StopKind, s1: Sim,
                   r: Sim)
    requires QueueOk(s.heap, s.now, s.nextOrder, s.cell.epoch) && s1 == Enter(s, st, code, mode, origin)
    requires r == StopFor(s1.(cell := s1.cell.(dressingDue := r.cell.dressingDue, capChangeDue := r.cell.capChangeDue)),
                          duration, stop)
    ensures Until(r, stop, s.now + duration) && r.cell.state == st && r.cell.epoch == s.cell.epoch + 1
    ensures r.now == s.now && r.cell.breakActive == s.cell.breakActive
  {
    EnteredCell(s, st, code, mode, origin, s1);
    var e := Ev(s.now + duration, s.nextOrder, Some(s.cell.epoch + 1), StopEnd(stop));
    assert r.heap == s.heap + {e};
    forall f ensures f in Live(r.heap, r.cell.epoch) <==> f == e {}
    assert Live(r.heap, r.cell.epoch) == {e};
  }

  /** No break is on, and no maintenance is due. */
  predicate NothingWaits(c: Cell) { !c.breakActive && !c.capChangeDue && !c.dressingDue }

  /** What a free cell does next: it breaks while a break is on, else sets up what is due, a cap change before a
      dressing, else produces; nothing is left due by a setup. */
  ghost predicate Chooses(cfg: Config, s: Sim, r: Sim) {
    && r.cell.epoch == s.cell.epoch + 1 && r.now == s.now && r.cell.breakActive == s.cell.breakActive
    && (r.cell.state.PlannedStop? <==> s.cell.breakActive)
    && (r.cell.state.Setup? <==> !s.cell.breakActive && (s.cell.capChangeDue || s.cell.dressingDue))
    && (r.cell.state.Producing? <==> !s.cell.breakActive && !s.cell.capChangeDue && !s.cell.dressingDue)
    && (r.cell.state.Setup? || r.cell.state.Producing? ==> NothingWaits(r.cell))
    && (r.cell.state.Setup? ==>
          Until(r, SetupStop(s.cell.capChangeDue),
                r.now + if s.cell.capChangeDue then cfg.capChangeS else cfg.dressingS))
  }

  lemma ResumeChooses(cfg: Config, s: Sim, d: Draws, r: Sim)
    requires cfg.points > 0 && QueueOk(s.heap, s.now, s.nextOrder, s.cell.epoch) && r == Resume(cfg, s, d)
    ensures Chooses(cfg, s, r)
  {
    var st := NextState(s.cell);
    var s1 := Enter(s, st, 0, AUTO_MODE, DefaultOrigin(st, 0));
    EnteredCell(s, st, 0, AUTO_MODE, DefaultOrigin(st, 0), s1);
    if st.Setup? {
      var cap := s.cell.capChangeDue;
      var duration := if cap then cfg.capChangeS else cfg.dressingS;
      StopStands(s, Setup, 0, AUTO_MODE, DefaultOrigin(Setup, 0), duration, SetupStop(cap), s1, r);
    }
  }

  /** A handler either leaves the cell as it was, or begins a stop as drawn, or sets the cell free. */
  ghost predicate Begins(cfg: Config, s: Sim, a: Action, r: Sim)
    requires Sound(cfg, s)
  {
    || (r.cell.epoch == s.cell.epoch && r.cell.state == s.cell.state)
    || (exists stop :: Until(r, stop, r.now + LastsFor(cfg, stop, a)) && BegunBy(cfg, s, a, stop)
                       && Ends(stop, r.cell.state) && r.cell.epoch == s.cell.epoch + 1
                       && (stop.SetupStop? ==> NothingWaits(r.cell)))
    || (r.cell.epoch == s.cell.epoch + 1 && !IsStop(r.cell.state)
        && (r.cell.state.Producing? ==> NothingWaits(r.cell)))
  }

  lemma FaultBegins(s: Sim, code: int, duration: Option<real>, d: Draws, r: Sim)
    requires QueueOk(s.heap, s.now, s.nextOrder, s.cell.epoch) && r == EnterFault(s, code, duration, d)
    ensures Until(r, FaultStop(code),
                  r.now + if duration.Some? && duration.value != 0.0 then duration.value else d.faultS)
    ensures r.cell.state.Fault? && r.cell.epoch == s.cell.epoch + 1 && r.now == s.now
  {
    var origin := DefaultOrigin(Fault, code);
    var s1 := Enter(s, Fault, code, AUTO_MODE, origin);
    var lasts := if duration.Some? && duration.value != 0.0 then duration.value else d.faultS;
    EnteredCell(s, Fault, code, AUTO_MODE, origin, s1);
    StopStands(s, Fault, code, AUTO_MODE, origin, lasts, FaultStop(code), s1, r);
  }

  lemma PartBegins(cfg: Config, s: Sim, d: Draws, r: Sim)
    requires cfg.points > 0 && QueueOk(s.heap, s.now, s.nextOrder, s.cell.epoch) && r == AfterPart(cfg, s, d)
    ensures r.cell.epoch == s.cell.epoch + 1 && r.now == s.now
    ensures if s.cell.weldNok >= cfg.nokLimit then r.cell.state.Fault? && Until(r, FaultStop(201), r.now + d.faultS)
            else Chooses(cfg, s.(cell := Noted(cfg, s.cell)), r)
  {
    var mid := s.(cell := Noted(cfg, s.cell));
    if s.cell.weldNok >= cfg.nokLimit {
      FaultBegins(mid, WELD_FAULT, None, d, r);
    } else {
      ResumeChooses(cfg, mid, d, r);
    }
  }

  lemma ChosenBegins(cfg: Config, s: Sim, a: Action, mid: Sim, r: Sim)
    requires Sound(cfg, s) && Chooses(cfg, mid, r) && mid.cell.epoch == s.cell.epoch && a.Tick?
    requires Completes(cfg, s, a) || Due(cfg, s).kind.StopEnd? || OfBreak(Due(cfg, s).kind)
    ensures Begins(cfg, s, a, r)
  {
    if r.cell.state.Setup? {
      var stop := SetupStop(mid.cell.capChangeDue);
      assert Until(r, stop, r.now + LastsFor(cfg, stop, a));
    }
  }

  lemma PartEndBegins(cfg: Config, s: Sim, a: Action, s2: Sim, r: Sim)
    requires Sound(cfg, s) && ValidAction(cfg, a) && a.Tick? && Completes(cfg, s, a)
    requires QueueOk(s2.heap, s2.now, s2.nextOrder, s2.cell.epoch) && s2.cell.epoch == s.cell.epoch
    requires r == AfterPart(cfg, s2, a.d)
    ensures Begins(cfg, s, a, r)
  {
    PartBegins(cfg, s2, a.d, r);
    if s2.cell.weldNok >= cfg.nokLimit {
      assert Until(r, FaultStop(201), r.now + LastsFor(cfg, FaultStop(201), a));
    } else {
      ChosenBegins(cfg, s, a, s2.(cell := Noted(cfg, s2.cell)), r);
    }
  }

  lemma SlotBegins(cfg: Config, s: Sim, e: Ev, a: Action, r: Sim)
    requires Sound(cfg, s) && ValidAction(cfg, a) && a.Tick? && e == Due(cfg, s) && r == OnSlotEnd(cfg, Pop(s, e), a.d)
    requires e.kind.SlotEnd? && Current(s, e)
    ensures Begins(cfg, s, a, r)
  {
    DuePops(cfg, s, e);
    PopOk(cfg, s, e);
    var s1 := WeldPoint(Pop(s, e), a.d);
    if s1.cell.slotIdx >= cfg.points {
      assert Finishes(cfg, s, First(s.heap));
      var s2 := CountPart(s1, a.d);
      CountedCell(s1, a.d, s2);
      PartEndBegins(cfg, s, a, s2, r);
    }
  }

  /** The stop an interruption is. */
  function StopOf(what: Cut): StopKind {
    match what
    case FaultCut(code) => FaultStop(code)
    case StarvedCut => StarvedStop
    case BlockedCut => BlockedStop
  }

  lemma WaitStands(s: Sim, st: State, stop: StopKind, duration: real, r: Sim)
    requires QueueOk(s.heap, s.now, s.nextOrder, s.cell.epoch) && !st.Manual?
    requires r == StopFor(Enter(s, st, 0, AUTO_MODE, DefaultOrigin(st, 0)), duration, stop)
    ensures Until(r, stop, s.now + duration) && r.cell.state == st && r.cell.epoch == s.cell.epoch + 1 && r.now == s.now
  {
    var s1 := Enter(s, st, 0, AUTO_MODE, DefaultOrigin(st, 0));
    EnteredCell(s, st, 0, AUTO_MODE, DefaultOrigin(st, 0), s1);
    StopStands(s, st, 0, AUTO_MODE, DefaultOrigin(st, 0), duration, stop, s1, r);
  }

  lemma InterruptStands(s: Sim, what: Cut, d: Draws, r: Sim)
    requires QueueOk(s.heap, s.now, s.nextOrder, s.cell.epoch) && r == OnInterrupt(s, what, d)
    ensures Until(r, StopOf(what), r.now + if what.FaultCut? then d.faultS else d.flowS)
    ensures Ends(StopOf(what), r.cell.state) && r.cell.epoch == s.cell.epoch + 1
  {
    match what
    case FaultCut(code) => FaultBegins(s, code, None, d, r);
    case StarvedCut => WaitStands(s, Starved, StarvedStop, d.flowS, r);
    case BlockedCut => WaitStands(s, Blocked, BlockedStop, d.flowS, r);
  }

  lemma InterruptBegins(cfg: Config, s: Sim, e: Ev, a: Action, what: Cut, r: Sim)
    requires Sound(cfg, s) && a.Tick? && e == Due(cfg, s) && e.kind == Interrupt(what)
    requires r == OnInterrupt(Pop(s, e), what, a.d)
    ensures Begins(cfg, s, a, r) && Ends(StopOf(what), r.cell.state)
  {
    PopOk(cfg, s, e);
    InterruptStands(Pop(s, e), what, a.d, r);
    assert Until(r, StopOf(what), r.now + LastsFor(cfg, StopOf(what), a));
  }

  lemma ManualStands(s: Sim, code: int, d: Draws, r: Sim)
    requires QueueOk(s.heap, s.now, s.nextOrder, s.cell.epoch)
    requires r == StopFor(Enter(s, Manual, 0, MANUAL_MODE, OriginCode(StationOfFault(code))), d.manualS, ManualStop)
    ensures Until(r, ManualStop, r.now + d.manualS) && r.cell.state.Manual? && r.cell.epoch == s.cell.epoch + 1
  {
    var origin := OriginCode(StationOfFault(code));
    var s1 := Enter(s, Manual, 0, MANUAL_MODE, origin);
    EnteredCell(s, Manual, 0, MANUAL_MODE, origin, s1);
    StopStands(s, Manual, 0, MANUAL_MODE, origin, d.manualS, ManualStop, s1, r);
  }

  lemma FreedBegins(cfg: Config, s: Sim, e: Ev, a: Action, stop: StopKind, mid: Sim, r: Sim)
    requires Sound(cfg, s) && a.Tick? && e == Due(cfg, s) && e.kind == StopEnd(stop)
    requires QueueOk(mid.heap, mid.now, mid.nextOrder, mid.cell.epoch) && mid.cell.epoch == s.cell.epoch
    requires r == Resume(cfg, mid, a.d)
    ensures Begins(cfg, s, a, r) && r.cell.epoch == s.cell.epoch + 1 && !r.cell.state.Manual?
  {
    ResumeChooses(cfg, mid, a.d, r);
    ChosenBegins(cfg, s, a, mid, r);
  }

  lemma RecoveryBegins(cfg: Config, s: Sim, e: Ev, a: Action, stop: StopKind, r: Sim)
    requires Sound(cfg, s) && a.Tick? && e == Due(cfg, s) && e.kind == StopEnd(stop) && stop.FaultStop? && a.d.manual
    requires r == OnStopEnd(cfg, Pop(s, e), stop, a.d)
    ensures Begins(cfg, s, a, r) && r.cell.epoch == s.cell.epoch + 1 && r.cell.state.Manual?
  {
    PopOk(cfg, s, e);
    ManualStands(Pop(s, e), stop.code, a.d, r);
    assert Until(r, ManualStop, r.now + LastsFor(cfg, ManualStop, a));
  }

  lemma StopEndBegins(cfg: Config, s: Sim, e: Ev, a: Action, stop: StopKind, r: Sim)
    requires Sound(cfg, s) && a.Tick? && e == Due(cfg, s) && e.kind == StopEnd(stop)
    requires r == OnStopEnd(cfg, Pop(s, e), stop, a.d)
    ensures Begins(cfg, s, a, r) && r.cell.epoch == s.cell.epoch + 1
    ensures r.cell.state.Manual? <==> stop.FaultStop? && a.d.manual
  {
    if stop.FaultStop? && a.d.manual {
      RecoveryBegins(cfg, s, e, a, stop, r);
    } else {
      PopOk(cfg, s, e);
      var p := Pop(s, e);
      FreedBegins(cfg, s, e, a, stop, if stop.SetupStop? then FinishSetup(p, stop.capChange, a.d) else p, r);
    }
  }

  lemma BreakQueues(cfg: Config, s: Sim, e: Ev, mid: Sim)
    requires Sound(cfg, s) && e == Due(cfg, s) && OfBreak(e.kind)
    requires ValidSlot(cfg.calendar, s.cell.breakWindow)
    requires mid == if e.kind.BreakStart? then TakeBreak(cfg, Pop(s, e)) else LeaveBreak(cfg, Pop(s, e))
    ensures QueueOk(mid.heap, mid.now, mid.nextOrder, mid.cell.epoch) && mid.now == e.ts
    ensures mid.cell == s.cell.(breakActive := mid.cell.breakActive, breakWindow := mid.cell.breakWindow)
    ensures e.kind.BreakStart? ==> mid.cell.breakActive
  {
    var p := Pop(s, e);
    BreakEventPopped(cfg, s, e);
    if e.kind.BreakStart? {
      var started := p.(cell := p.cell.(breakActive := true));
      ScheduleOk(started, EndOf(cfg.calendar, p.cell.breakWindow) - p.now, BreakEnd, None);
    } else {
      LeaveBreakOk(cfg, p, mid);
    }
  }

  lemma BreakBegins(cfg: Config, s: Sim, e: Ev, a: Action, r: Sim)
    requires Sound(cfg, s) && a.Tick? && e == Due(cfg, s) && OfBreak(e.kind) && r == Handle(cfg, Pop(s, e), e, a.d)
    ensures Begins(cfg, s, a, r)
  {
    var mid := if e.kind.BreakStart? then TakeBreak(cfg, Pop(s, e)) else LeaveBreak(cfg, Pop(s, e));
    BreakQueues(cfg, s, e, mid);
    if r != mid {
      ResumeChooses(cfg, mid, a.d, r);
      ChosenBegins(cfg, s, a, mid, r);
    }
  }

  /** A break takes an idle line over at once, and leaves a cell that is busy or down as it is. */
  lemma BreakMoves(cfg: Config, s: Sim, e: Ev, d: Draws, r: Sim, mid: Sim)
    requires Sound(cfg, s) && e == Due(cfg, s) && OfBreak(e.kind) && ValidSlot(cfg.calendar, s.cell.breakWindow)
    requires mid == if e.kind.BreakStart? then TakeBreak(cfg, Pop(s, e)) else LeaveBreak(cfg, Pop(s, e))
    requires r == Handle(cfg, Pop(s, e), e, d)
    ensures e.kind.BreakStart? ==>
              if s.cell.state.Starved? || s.cell.state.Blocked? then r.cell.state.PlannedStop?
              else r.cell.epoch == s.cell.epoch
    ensures e.kind.BreakEnd? ==> (r.cell.epoch != s.cell.epoch <==> s.cell.state.PlannedStop?)
  {
    BreakQueues(cfg, s, e, mid);
    ResumeChooses(cfg, mid, d, Resume(cfg, mid, d));
  }

  lemma ForceBegins(cfg: Config, s: Sim, a: Action, r: Sim)
    requires Sound(cfg, s) && ValidAction(cfg, a) && a.Force? && r == Act(cfg, s, a)
    ensures Begins(cfg, s, a, r)
    ensures r.cell.epoch != s.cell.epoch ==> s.cell.state.Producing?
  {
    QueueNeverEmpty(cfg, s);
    if GetsThrough(cfg, s, a.code, a.at) { ForcedBegins(cfg, s, a, s.(now := RMax(s.now, a.at)), r); }
  }

  lemma ForcedBegins(cfg: Config, s: Sim, a: Action, s1: Sim, r: Sim)
    requires Sound(cfg, s) && a.Force? && a.at < Due(cfg, s).ts
    requires s1 == s.(now := RMax(s.now, a.at)) && r == EnterFault(s1, a.code, Some(a.duration), a.d)
    ensures Begins(cfg, s, a, r)
  {
    AdvanceOk(cfg, s, a.at);
    FaultBegins(s1, a.code, Some(a.duration), a.d, r);
    assert Until(r, FaultStop(a.code), r.now + LastsFor(cfg, FaultStop(a.code), a));
  }

  // ------------------------------------------------------------ one action

  lemma ActBegins(cfg: Config, s: Sim, a: Action, r: Sim)
    requires Sound(cfg, s) && ValidAction(cfg, a) && r == Act(cfg, s, a)
    ensures Begins(cfg, s, a, r)
  {
    var e := Due(cfg, s);
    DuePops(cfg, s, e);
    if a.Force? {
      ForceBegins(cfg, s, a, r);
    } else if DrivenByState(e.kind) && !Current(s, e) {
      assert r == Pop(s, e);
    } else {
      match e.kind
      case SlotEnd => SlotBegins(cfg, s, e, a, r);
      case Interrupt(what) => InterruptBegins(cfg, s, e, a, what, r);
      case StopEnd(stop) => StopEndBegins(cfg, s, e, a, stop, r);
      case BreakStart => BreakBegins(cfg, s, e, a, r);
      case BreakEnd => BreakBegins(cfg, s, e, a, r);
      case CounterReset => ResetBegins(cfg, Pop(s, e), r);
      case _ => HostBegins(cfg, Pop(s, e), r);
    }
  }

  /** Only what an event beside the cell's own may touch. */
  predicate Beside(c: Cell, d: Cell) {
    d == c.(good := d.good, scrap := d.scrap, heartbeat := d.heartbeat, frozen := d.frozen)
  }

  lemma HostBegins(cfg: Config, s: Sim, r: Sim)
    requires ValidConfig(cfg) && (r == OnHeartbeat(s) || r == OnFreezeStart(cfg, s) || r == OnFreezeEnd(cfg, s))
    ensures Beside(s.cell, r.cell)
  {
  }

  lemma ResetBegins(cfg: Config, s: Sim, r: Sim)
    requires ValidConfig(cfg) && r == OnCounterReset(cfg, s)
    ensures Beside(s.cell, r.cell)
  {
  }

  /** An interruption that still counts stops the cell as what it is, and the end of a fault is followed by a manual
      recovery exactly when one is drawn. */
  lemma InterruptionsStop(cfg: Config, s: Sim, a: Action, r: Sim)
    requires Sound(cfg, s) && ValidAction(cfg, a) && r == Act(cfg, s, a) && a.Tick? && Current(s, Due(cfg, s))
    ensures Due(cfg, s).kind.Interrupt? ==> Ends(StopOf(Due(cfg, s).kind.what), r.cell.state)
    ensures Due(cfg, s).kind.StopEnd? ==> r.cell.epoch != s.cell.epoch
                                          && (r.cell.state.Manual? <==> Due(cfg, s).kind.stop.FaultStop? && a.d.manual)
  {
    var e := Due(cfg, s);
    DuePops(cfg, s, e);
    match e.kind
    case Interrupt(what) => InterruptBegins(cfg, s, e, a, what, r);
    case StopEnd(stop) => StopEndBegins(cfg, s, e, a, stop, r);
    case _ =>
  }

  // ------------------------------------------------------------ a stop holds until its end

  lemma UntilEnds(s: Sim, stop: StopKind, end: real, e: Ev)
    requires Until(s, stop, end) && e in s.heap && Current(s, e)
    ensures e.kind == StopEnd(stop) && e.ts == end
  {
    assert e in Live(s.heap, s.cell.epoch);
  }

  /** Nothing but its end ends a stop, on time; a break alone takes over an idle line before. */
  lemma StopEndsOnTime(cfg: Config, s: Sim, a: Action, r: Sim, stop: StopKind, end: real)
    requires Sound(cfg, s) && ValidAction(cfg, a) && r == Act(cfg, s, a) && Until(s, stop, end)
    requires r.cell.epoch != s.cell.epoch
    ensures a.Tick?
    ensures (Due(cfg, s).kind == StopEnd(stop) && r.now == end)
            || ((stop.StarvedStop? || stop.BlockedStop?) && Due(cfg, s).kind.BreakStart? && r.cell.state.PlannedStop?)
  {
    var e := Due(cfg, s);
    DuePops(cfg, s, e);
    IsStopped(cfg, s, stop, end);
    if a.Force? {
      ForceBegins(cfg, s, a, r);
    } else if Current(s, e) {
      UntilEnds(s, stop, end, e);
      TickOk(cfg, s, a.d, e, r);
    } else if OfBreak(e.kind) {
      var mid := if e.kind.BreakStart? then TakeBreak(cfg, Pop(s, e)) else LeaveBreak(cfg, Pop(s, e));
      BreakMoves(cfg, s, e, a.d, r, mid);
    } else {
      HandleFollows(cfg, Pop(s, e), e, a.d, r);
    }
  }

  lemma IsStopped(cfg: Config, s: Sim, stop: StopKind, end: real)
    requires Sound(cfg, s) && Until(s, stop, end)
    ensures Ends(stop, s.cell.state) && s.now <= end
  {
    var live := Live(s.heap, s.cell.epoch);
    var e :| live == {e} && e.kind == StopEnd(stop) && e.ts == end;
    assert e in live;
  }

  lemma OnlyEnd(cfg: Config, s: Sim, e: Ev)
    requires Sound(cfg, s) && IsStop(s.cell.state) && e in s.heap && Current(s, e)
    ensures Live(s.heap, s.cell.epoch) == {e}
  {
    assert e in Live(s.heap, s.cell.epoch);
  }

  lemma StopHolds(cfg: Config, s: Sim, a: Action, r: Sim, stop: StopKind, end: real)
    requires Sound(cfg, s) && ValidAction(cfg, a) && r == Act(cfg, s, a) && Until(s, stop, end)
    requires r.cell.epoch == s.cell.epoch
    ensures Until(r, stop, end)
  {
    var e := EndEvent(s, stop, end);
    IsStopped(cfg, s, stop, end);
    ActOk(cfg, s, a, r);
    StateHolds(cfg, s, a, r);
    EndIsKept(cfg, s, a, r, e);
    OnlyEnd(cfg, r, e);
  }

  lemma EndEvent(s: Sim, stop: StopKind, end: real) returns (e: Ev)
    requires Until(s, stop, end)
    ensures e in s.heap && Current(s, e) && e.kind == StopEnd(stop) && e.ts == end
  {
    e :| Live(s.heap, s.cell.epoch) == {e} && e.kind == StopEnd(stop) && e.ts == end;
    assert e in Live(s.heap, s.cell.epoch);
  }

  lemma StateHolds(cfg: Config, s: Sim, a: Action, r: Sim)
    requires Sound(cfg, s) && ValidAction(cfg, a) && r == Act(cfg, s, a) && r.cell.epoch == s.cell.epoch
    ensures r.cell.state == s.cell.state
  {
    ActBegins(cfg, s, a, r);
  }

  lemma EndIsKept(cfg: Config, s: Sim, a: Action, r: Sim, e: Ev)
    requires Sound(cfg, s) && ValidAction(cfg, a) && r == Act(cfg, s, a) && r.cell.epoch == s.cell.epoch
    requires e in s.heap && Current(s, e) && e.kind.StopEnd?
    ensures e in r.heap && Current(r, e)
  {
    var due := Due(cfg, s);
    DuePops(cfg, s, due);
    if a.Force? {
      ForceRemembers(cfg, s, a.code, a.duration, a.at, a.d, true, r);
    } else {
      HandleRemembers(cfg, Pop(s, due), due, a.d, true, r);
      if due == e { InterruptionsStop(cfg, s, a, r); }
    }
  }

  // ------------------------------------------------------------ whole runs

  /** Over a run through which the cell stays in a stop, the stop's end stays where it was put. */
  lemma {:induction false} StopStays(cfg: Config, s: Sim, script: seq<Action>, stop: StopKind, end: real)
    requires Sound(cfg, s) && ValidScript(cfg, script) && Until(s, stop, end)
    ensures s.cell.epoch <= Run(cfg, s, script).cell.epoch
    ensures Run(cfg, s, script).cell.epoch == s.cell.epoch ==> Until(Run(cfg, s, script), stop, end)
    decreases |script|
  {
    if script != [] {
      FrontOk(cfg, script);
      StopStays(cfg, s, Front(script), stop, end);
      var t, a := Run(cfg, s, Front(script)), Final(script);
      var r := Act(cfg, t, a);
      ActBegins(cfg, t, a, r);
      if r.cell.epoch == s.cell.epoch { StopHolds(cfg, t, a, r, stop, end); }
      assert Run(cfg, s, script) == Drained(r);
    }
  }

  /** From its beginning at r by action a, to the action b that moves the cell on to q. */
  ghost predicate Lasted(cfg: Config, a: Action, r: Sim, due: Ev, q: Sim, stop: StopKind) {
    || q.now == r.now + LastsFor(cfg, stop, a)
    || ((stop.StarvedStop? || stop.BlockedStop?) && due.kind.BreakStart? && q.cell.state.PlannedStop?)
  }

  /** Every stop lasts exactly as drawn, or as configured for a setup: whatever begins it, whatever happens meanwhile,
      the action that moves the cell on is its end, at its very time. A break alone takes over an idle line before. */
  lemma StopsLastAsDrawn(cfg: Config, s: Sim, a: Action, r: Sim, script: seq<Action>, t: Sim, b: Action, q: Sim)
    returns (stop: StopKind)
    requires Sound(cfg, s) && ValidAction(cfg, a) && ValidScript(cfg, script) && ValidAction(cfg, b)
    requires r == Act(cfg, s, a) && r.cell.epoch != s.cell.epoch && IsStop(r.cell.state)
    requires Sound(cfg, Drained(r)) && t == Run(cfg, Drained(r), script) && t.cell.epoch == r.cell.epoch
    requires q == Act(cfg, t, b) && q.cell.epoch != t.cell.epoch
    ensures BegunBy(cfg, s, a, stop) && Ends(stop, r.cell.state)
    ensures b.Tick? && Lasted(cfg, a, r, Due(cfg, t), q, stop)
  {
    stop := StopBegins(cfg, s, a, r);
    var end := r.now + LastsFor(cfg, stop, a);
    assert Until(Drained(r), stop, end);
    StopStays(cfg, Drained(r), script, stop, end);
    StopEndsOnTime(cfg, t, b, q, stop, end);
  }

  lemma StopBegins(cfg: Config, s: Sim, a: Action, r: Sim) returns (stop: StopKind)
    requires Sound(cfg, s) && ValidAction(cfg, a)
    requires r == Act(cfg, s, a) && r.cell.epoch != s.cell.epoch && IsStop(r.cell.state)
    ensures Until(r, stop, r.now + LastsFor(cfg, stop, a)) && BegunBy(cfg, s, a, stop) && Ends(stop, r.cell.state)
  {
    ActBegins(cfg, s, a, r);
    stop :| Until(r, stop, r.now + LastsFor(cfg, stop, a)) && BegunBy(cfg, s, a, stop) && Ends(stop, r.cell.state);
  }

  // ------------------------------------------------------------ what a free cell does

  /** Whenever the cell begins to set up, break or produce, it does what comes first: it breaks only while a break is
      on, sets up only outside breaks and leaving nothing due, and produces only outside breaks with nothing due. */
  lemma FirstThingsFirst(cfg: Config, s: Sim, a: Action, r: Sim)
    requires Sound(cfg, s) && ValidAction(cfg, a) && r == Act(cfg, s, a) && r.cell.epoch != s.cell.epoch
    ensures r.cell.state.PlannedStop? ==> r.cell.breakActive
    ensures r.cell.state.Setup? || r.cell.state.Producing? ==> NothingWaits(r.cell)
  {
    ActBegins(cfg, s, a, r);
    BegunFirst(cfg, s, a, r);
    ActOk(cfg, s, a, r);
  }

  lemma BegunFirst(cfg: Config, s: Sim, a: Action, r: Sim)
    requires Sound(cfg, s) && Begins(cfg, s, a, r) && r.cell.epoch != s.cell.epoch
    ensures r.cell.state.Setup? || r.cell.state.Producing? ==> NothingWaits(r.cell)
  {
  }

  /** The beginning of a break takes over an idle line at once and leaves any other cell as it is; its end moves on
      exactly the cell that was in it. */
  lemma BreaksTakeIdleLines(cfg: Config, s: Sim, a: Action, r: Sim)
    requires Sound(cfg, s) && ValidAction(cfg, a) && r == Act(cfg, s, a) && a.Tick?
    ensures Due(cfg, s).kind.BreakStart? ==>
              if s.cell.state.Starved? || s.cell.state.Blocked? then r.cell.state.PlannedStop?
              else r.cell.epoch == s.cell.epoch
    ensures Due(cfg, s).kind.BreakEnd? ==> (r.cell.epoch != s.cell.epoch <==> s.cell.state.PlannedStop?)
  {
    var e := Due(cfg, s);
    DuePops(cfg, s, e);
    if OfBreak(e.kind) {
      var mid := if e.kind.BreakStart? then TakeBreak(cfg, Pop(s, e)) else LeaveBreak(cfg, Pop(s, e));
      BreakMoves(cfg, s, e, a.d, r, mid);
    }
  }

  // ------------------------------------------------------------ forced faults

  /** A forced fault starts exactly if it gets through and there is a duration to be had; then the cell is in that
      fault at the time asked for, or now if that has passed, until its end as given, or as drawn for zero. */
  lemma ForcedFaultStarts(cfg: Config, s: Sim, code: int, duration: real, at: real, d: Draws, r: Sim, how: Forced)
    requires Sound(cfg, s) && (r, how) == Forcing(cfg, s, code, duration, at, d)
    ensures how.Refused? <==> !GetsThrough(cfg, s, code, at)
    ensures how.Started? <==> GetsThrough(cfg, s, code, at) && HasDuration(cfg, code, duration)
    ensures how.Started? ==>
              && r.now == RMax(s.now, at) && r.cell.state.Fault?
              && Until(r, FaultStop(code), r.now + if duration != 0.0 then duration else d.faultS)
  {
    QueueNeverEmpty(cfg, s);
    if how.Started? {
      AdvanceOk(cfg, s, at);
      FaultBegins(s.(now := RMax(s.now, at)), code, Some(duration), d, r);
    }
  }
}
