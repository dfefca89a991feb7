/** Electrode wear over whole runs, counted from what happens: weld points, spoilt parts, parts since the last
    setup; and what makes maintenance due. */
module Wear {
  import opened Basics
  import opened Facts
  import opened Shifts
  import opened Simulator
  import opened SimLaws
  import opened SimLog
  import opened SimRuns
  import opened Maintenance

  // ------------------------------------------------------------ what happens in one action

  /** The action makes a weld point: it is the end of the slot in hand. */
  ghost predicate Welds(cfg: Config, s: Sim, a: Action)
    requires Sound(cfg, s)
  {
    a.Tick? && Due(cfg, s).kind.SlotEnd? && Current(s, Due(cfg, s))
  }

  ghost predicate Completes(cfg: Config, s: Sim, a: Action)
    requires Sound(cfg, s)
  {
    MadeBy(cfg, s, a) != []
  }

  /** All weld points of the part in hand so far were good. */
  predicate WeldsGood(c: Cell) { !c.partActive || c.partWeldOk }

  /** How many weld points the part in hand has. */
  function PointsInHand(c: Cell): nat { if c.partActive then c.slotIdx else 0 }

  predicate SameHand(c: Cell, d: Cell) { WeldsGood(d) == WeldsGood(c) && PointsInHand(d) == PointsInHand(c) }

  predicate SameWear(c: Cell, d: Cell) {
    && d.pointsSinceCap == c.pointsSinceCap && d.partsSinceCap == c.partsSinceCap
    && d.partsSinceDressing == c.partsSinceDressing && d.weldNok == c.weldNok
    && d.nextCapChange == c.nextCapChange && d.nextDressing == c.nextDressing
  }

  // ------------------------------------------------------------ handlers that wear nothing

  lemma ResumeWears(cfg: Config, s: Sim, d: Draws, r: Sim)
    requires cfg.points > 0 && r == Resume(cfg, s, d)
    ensures SameWear(s.cell, r.cell) && SameHand(s.cell, r.cell)
  {
    if !s.cell.breakActive && !s.cell.capChangeDue && !s.cell.dressingDue {
      var s1 := Enter(s, Producing, 0, AUTO_MODE, DefaultOrigin(Producing, 0));
      var s2 := if s1.cell.partActive then s1 else s1.(cell := NewPart(cfg, s1.cell, d.cycle));
      EnteredCell(s, Producing, 0, AUTO_MODE, DefaultOrigin(Producing, 0), s1);
      assert r.cell == s2.cell.(slotEnd := r.cell.slotEnd);
    } else {
      var st := NextState(s.cell);
      var s1 := Enter(s, st, 0, AUTO_MODE, DefaultOrigin(st, 0));
      EnteredCell(s, st, 0, AUTO_MODE, DefaultOrigin(st, 0), s1);
      assert r.cell == s1.cell.(dressingDue := r.cell.dressingDue, capChangeDue := r.cell.capChangeDue);
    }
  }

  lemma EnterFaultWears(s: Sim, code: int, duration: Option<real>, d: Draws, r: Sim)
    requires r == EnterFault(s, code, duration, d)
    ensures SameWear(s.cell, r.cell) && SameHand(s.cell, r.cell)
    ensures r.cell.dressingDue == s.cell.dressingDue && r.cell.capChangeDue == s.cell.capChangeDue
    ensures r.cell.state.Fault?
  {
    var origin := DefaultOrigin(Fault, code);
    EnteredCell(s, Fault, code, AUTO_MODE, origin, Enter(s, Fault, code, AUTO_MODE, origin));
  }

  lemma EnterWears(s: Sim, st: State, code: int, mode: int, origin: int, duration: real, stop: StopKind, r: Sim)
    requires r == StopFor(Enter(s, st, code, mode, origin), duration, stop)
    ensures SameWear(s.cell, r.cell) && SameHand(s.cell, r.cell)
  {
    EnteredCell(s, st, code, mode, origin, Enter(s, st, code, mode, origin));
  }

  lemma InterruptWears(s: Sim, what: Cut, d: Draws, r: Sim)
    requires r == OnInterrupt(s, what, d)
    ensures SameWear(s.cell, r.cell) && SameHand(s.cell, r.cell)
  {
    match what
    case FaultCut(code) => EnterFaultWears(s, code, None, d, r);
    case StarvedCut => EnterWears(s, Starved, 0, AUTO_MODE, DefaultOrigin(Starved, 0), d.flowS, StarvedStop, r);
    case BlockedCut => EnterWears(s, Blocked, 0, AUTO_MODE, DefaultOrigin(Blocked, 0), d.flowS, BlockedStop, r);
  }

  lemma TakeWears(cfg: Config, s: Sim, r: Sim)
    requires ValidConfig(cfg) && ValidSlot(cfg.calendar, s.cell.breakWindow)
    requires r == TakeBreak(cfg, s) || r == LeaveBreak(cfg, s)
    ensures SameWear(s.cell, r.cell) && SameHand(s.cell, r.cell) && r.cell.state == s.cell.state
  {
  }

  lemma BreakStartWears(cfg: Config, s: Sim, d: Draws, r: Sim)
    requires ValidConfig(cfg) && ValidSlot(cfg.calendar, s.cell.breakWindow) && r == OnBreakStart(cfg, s, d)
    ensures SameWear(s.cell, r.cell) && SameHand(s.cell, r.cell)
  {
    var mid := TakeBreak(cfg, s);
    TakeWears(cfg, s, mid);
    ResumeWears(cfg, mid, d, Resume(cfg, mid, d));
  }

  lemma BreakEndWears(cfg: Config, s: Sim, d: Draws, r: Sim)
    requires ValidConfig(cfg) && ValidSlot(cfg.calendar, s.cell.breakWindow) && r == OnBreakEnd(cfg, s, d)
    ensures SameWear(s.cell, r.cell) && SameHand(s.cell, r.cell)
  {
    var mid := LeaveBreak(cfg, s);
    TakeWears(cfg, s, mid);
    if s.cell.state.PlannedStop? { ResumeWears(cfg, mid, d, r); }
  }

  lemma HostWears(cfg: Config, s: Sim, r: Sim)
    requires ValidConfig(cfg)
    requires r == OnHeartbeat(s) || r == OnFreezeStart(cfg, s) || r == OnFreezeEnd(cfg, s)
             || r == OnCounterReset(cfg, s)
    ensures SameWear(s.cell, r.cell) && SameHand(s.cell, r.cell)
  {
  }

  lemma ForceWears(cfg: Config, s: Sim, code: int, duration: real, at: real, d: Draws, r: Sim)
    requires s.heap != {} && Numbered(s.heap) && r == ForceFault(cfg, s, code, duration, at, d).0
    ensures SameWear(s.cell, r.cell) && SameHand(s.cell, r.cell)
  {
    var s1, origin := s.(now := RMax(s.now, at)), DefaultOrigin(Fault, code);
    EnterFaultWears(s1, code, Some(duration), d, EnterFault(s1, code, Some(duration), d));
    EnteredCell(s1, Fault, code, AUTO_MODE, origin, Enter(s1, Fault, code, AUTO_MODE, origin));
  }

  // ------------------------------------------------------------ setups

  /** What the end of a setup leaves: a cap change starts all counts afresh with both thresholds drawn anew, a
      dressing the parts since dressing and its own threshold. */
  predicate SetUp(c: Cell, d: Cell, capChange: bool, draws: Draws) {
    && d.pointsSinceCap == (if capChange then 0 else c.pointsSinceCap)
    && d.partsSinceCap == (if capChange then 0 else c.partsSinceCap)
    && d.nextCapChange == (if capChange then draws.nextCapChange else c.nextCapChange)
    && d.partsSinceDressing == 0 && d.nextDressing == draws.nextDressing && d.weldNok == c.weldNok
  }

  lemma StopEndWears(cfg: Config, s: Sim, stop: StopKind, d: Draws, r: Sim)
    requires cfg.points > 0 && r == OnStopEnd(cfg, s, stop, d)
    ensures SameHand(s.cell, r.cell)
    ensures if stop.SetupStop? then SetUp(s.cell, r.cell, stop.capChange, d) else SameWear(s.cell, r.cell)
  {
    if stop.FaultStop? && d.manual {
      EnterWears(s, Manual, 0, MANUAL_MODE, OriginCode(StationOfFault(stop.code)), d.manualS, ManualStop, r);
    } else {
      var mid := if stop.SetupStop? then FinishSetup(s, stop.capChange, d) else s;
      ResumeWears(cfg, mid, d, r);
    }
  }

  // ------------------------------------------------------------ weld points and parts

  /** One more spoilt part in a row, or none after a good one. */
  function StreakAfter(c: Cell, good: bool): nat { if good then 0 else c.weldNok + 1 }

  /** One weld point more. */
  lemma SlotWears(cfg: Config, s: Sim, d: Draws, r: Sim)
    requires cfg.points > 0 && s.cell.partActive && r == OnSlotEnd(cfg, s, d) && s.cell.slotIdx + 1 < cfg.points
    ensures r.cell.pointsSinceCap == s.cell.pointsSinceCap + 1
    ensures WeldsGood(r.cell) == (s.cell.partWeldOk && d.pointOk) && PointsInHand(r.cell) == s.cell.slotIdx + 1
    ensures SameWear(s.cell, r.cell.(pointsSinceCap := s.cell.pointsSinceCap))
  {
  }

  lemma CountedCell(s: Sim, d: Draws, r: Sim)
    requires r == CountPart(s, d)
    ensures r.cell == Closed(s.cell, !s.cell.partWeldOk || d.scrap)
  {
  }

  /** What the counts of a finished part come to, whatever the cell does next. */
  predicate PartCounted(cfg: Config, c: Cell, d: Cell, streak: nat) {
    && d.pointsSinceCap == c.pointsSinceCap + 1 && d.partsSinceCap == c.partsSinceCap + 1
    && d.partsSinceDressing == c.partsSinceDressing + 1
    && d.nextCapChange == c.nextCapChange && d.nextDressing == c.nextDressing
    && d.weldNok == (if streak >= cfg.nokLimit then 0 else streak)
    && WeldsGood(d) && PointsInHand(d) == 0
  }

  lemma PartCounts(cfg: Config, s: Sim, d: Draws, s2: Sim)
    requires s2 == CountPart(WeldPoint(s, d), d)
    ensures s2.cell.weldNok == StreakAfter(s.cell, s.cell.partWeldOk && d.pointOk)
    ensures PartCounted(cfg, s.cell, Noted(cfg, s2.cell), s2.cell.weldNok)
  {
    CountedCell(WeldPoint(s, d), d, s2);
  }

  /** The last weld point of a part: what is counted. */
  lemma PartWears(cfg: Config, s: Sim, d: Draws, r: Sim)
    requires cfg.points > 0 && s.cell.partActive && r == OnSlotEnd(cfg, s, d) && s.cell.slotIdx + 1 >= cfg.points
    ensures PartCounted(cfg, s.cell, r.cell, StreakAfter(s.cell, s.cell.partWeldOk && d.pointOk))
  {
    var s2 := CountPart(WeldPoint(s, d), d);
    PartCounts(cfg, s, d, s2);
    var mid := s2.(cell := Noted(cfg, s2.cell));
    if s2.cell.weldNok >= cfg.nokLimit {
      EnterFaultWears(mid, WELD_FAULT, None, d, r);
    } else {
      ResumeWears(cfg, mid, d, r);
    }
  }

  // ------------------------------------------------------------ one action

  ghost predicate WearOf(cfg: Config, s: Sim, a: Action, r: Sim)
    requires Sound(cfg, s)
  {
    var c, d, made := s.cell, r.cell, |MadeBy(cfg, s, a)|;
    var caps, tips := EndsSetup(cfg, s, a, true), EndsSetup(cfg, s, a, false);
    && d.partsSinceCap == (if caps then 0 else c.partsSinceCap + made)
    && d.partsSinceDressing == (if tips then 0 else c.partsSinceDressing + made)
    && d.pointsSinceCap == (if caps then 0 else c.pointsSinceCap + if Welds(cfg, s, a) then 1 else 0)
    && d.nextCapChange == (if caps then a.d.nextCapChange else c.nextCapChange)
    && d.nextDressing == (if tips then a.d.nextDressing else c.nextDressing)
  }

  ghost predicate HandOf(cfg: Config, s: Sim, a: Action, r: Sim)
    requires Sound(cfg, s)
  {
    var good := WeldsGood(s.cell) && (Welds(cfg, s, a) ==> a.d.pointOk);
    var streak := StreakAfter(s.cell, good);
    && (if Completes(cfg, s, a) then r.cell.weldNok == if streak >= cfg.nokLimit then 0 else streak
        else r.cell.weldNok == s.cell.weldNok)
    && WeldsGood(r.cell) == (Completes(cfg, s, a) || good)
    && PointsInHand(r.cell) == if Completes(cfg, s, a) then 0
                               else PointsInHand(s.cell) + if Welds(cfg, s, a) then 1 else 0
  }

  lemma DuePops(cfg: Config, s: Sim, e: Ev)
    requires Sound(cfg, s) && e == Due(cfg, s)
    ensures Pop(s, e).cell == s.cell && ValidSlot(cfg.calendar, s.cell.breakWindow)
    ensures e.epoch.Some? <==> DrivenByState(e.kind)
    ensures Current(s, e) && e.kind.SlotEnd? ==> s.cell.partActive && s.cell.state.Producing?
    ensures s.heap != {} && Numbered(s.heap) && First(s.heap) == e
  {
    QueueNeverEmpty(cfg, s);
    if Current(s, e) { CurrentEventOk(cfg, s, e); }
  }

  /** An action that is neither a weld point nor the end of a setup wears nothing. */
  lemma IdleWears(cfg: Config, s: Sim, e: Ev, a: Action, r: Sim)
    requires Sound(cfg, s) && ValidAction(cfg, a) && r == Act(cfg, s, a) && e == Due(cfg, s)
    requires !Welds(cfg, s, a) && !EndsSetup(cfg, s, a, false)
    ensures SameWear(s.cell, r.cell) && SameHand(s.cell, r.cell)
  {
    DuePops(cfg, s, e);
    if a.Force? {
      ForceWears(cfg, s, a.code, a.duration, a.at, a.d, r);
    } else if DrivenByState(e.kind) && !Current(s, e) {
      assert r == Pop(s, e);
    } else {
      match e.kind
      case Interrupt(what) => InterruptWears(Pop(s, e), what, a.d, r);
      case StopEnd(stop) => StopEndWears(cfg, Pop(s, e), stop, a.d, r);
      case BreakStart => BreakStartWears(cfg, Pop(s, e), a.d, r);
      case BreakEnd => BreakEndWears(cfg, Pop(s, e), a.d, r);
      case _ => HostWears(cfg, Pop(s, e), r);
    }
  }

  lemma SetupWears(cfg: Config, s: Sim, e: Ev, a: Action, r: Sim)
    requires Sound(cfg, s) && ValidAction(cfg, a) && r == Act(cfg, s, a) && e == Due(cfg, s)
    requires EndsSetup(cfg, s, a, false)
    ensures SetUp(s.cell, r.cell, e.kind.stop.capChange, a.d) && SameHand(s.cell, r.cell)
  {
    DuePops(cfg, s, e);
    StopEndWears(cfg, Pop(s, e), e.kind.stop, a.d, r);
  }

  lemma PointWears(cfg: Config, s: Sim, e: Ev, a: Action, r: Sim)
    requires Sound(cfg, s) && ValidAction(cfg, a) && r == Act(cfg, s, a) && e == Due(cfg, s) && Welds(cfg, s, a)
    ensures WearOf(cfg, s, a, r) && HandOf(cfg, s, a, r)
  {
    DuePops(cfg, s, e);
    if s.cell.slotIdx + 1 < cfg.points {
      SlotWears(cfg, Pop(s, e), a.d, r);
      SlotIsOne(cfg, s, e, a, r);
    } else {
      PartWears(cfg, Pop(s, e), a.d, r);
      PartIsOne(cfg, s, e, a, r);
    }
  }

  lemma SlotIsOne(cfg: Config, s: Sim, e: Ev, a: Action, r: Sim)
    requires Sound(cfg, s) && e == Due(cfg, s) && Welds(cfg, s, a) && s.cell.partActive
    requires s.cell.slotIdx + 1 < cfg.points && r.cell.pointsSinceCap == s.cell.pointsSinceCap + 1
    requires WeldsGood(r.cell) == (s.cell.partWeldOk && a.d.pointOk) && PointsInHand(r.cell) == s.cell.slotIdx + 1
    requires SameWear(s.cell, r.cell.(pointsSinceCap := s.cell.pointsSinceCap))
    ensures WearOf(cfg, s, a, r) && HandOf(cfg, s, a, r)
  {
  }

  lemma PartIsOne(cfg: Config, s: Sim, e: Ev, a: Action, r: Sim)
    requires Sound(cfg, s) && e == Due(cfg, s) && Welds(cfg, s, a) && s.cell.partActive
    requires s.cell.slotIdx + 1 >= cfg.points
    requires PartCounted(cfg, s.cell, r.cell, StreakAfter(s.cell, s.cell.partWeldOk && a.d.pointOk))
    ensures WearOf(cfg, s, a, r) && HandOf(cfg, s, a, r)
  {
  }

  /** Weld points and parts are made only by the end of a slot. */
  lemma OnlySlotsMake(cfg: Config, s: Sim, a: Action)
    requires Sound(cfg, s) && !Welds(cfg, s, a)
    ensures MadeBy(cfg, s, a) == []
  {
    DuePops(cfg, s, Due(cfg, s));
  }

  lemma ActWears(cfg: Config, s: Sim, a: Action, r: Sim)
    requires Sound(cfg, s) && ValidAction(cfg, a) && r == Act(cfg, s, a)
    ensures WearOf(cfg, s, a, r) && HandOf(cfg, s, a, r)
  {
    if Welds(cfg, s, a) {
      PointWears(cfg, s, Due(cfg, s), a, r);
    } else {
      OnlySlotsMake(cfg, s, a);
      if EndsSetup(cfg, s, a, false) {
        SetupWears(cfg, s, Due(cfg, s), a, r);
      } else {
        IdleWears(cfg, s, Due(cfg, s), a, r);
      }
    }
  }

  // ------------------------------------------------------------ what a finished part makes due

  /** A free cell with no part in hand: what was due is owed, and a part is taken only where nothing is. */
  lemma ResumeOwes(cfg: Config, s: Sim, d: Draws, r: Sim)
    requires ValidConfig(cfg) && ValidDraws(cfg, d) && Base(cfg, s) && !s.cell.partActive && r == Resume(cfg, s, d)
    ensures Owed(r, true) <==> s.cell.capChangeDue
    ensures Owed(r, false) <==> s.cell.dressingDue || (s.cell.capChangeDue && !s.cell.breakActive)
    ensures r.cell.partActive <==> !s.cell.breakActive && !s.cell.capChangeDue && !s.cell.dressingDue
  {
    ResumeOk(cfg, s, d);
    OnlyInSetup(cfg, r);
    ResumedCell(cfg, s, d, r);
    if !s.cell.breakActive && s.cell.capChangeDue {
      SetupOwes(s, true, cfg.capChangeS, r);
    } else if !s.cell.breakActive && s.cell.dressingDue {
      SetupOwes(s, false, cfg.dressingS, r);
    }
  }

  lemma ResumedCell(cfg: Config, s: Sim, d: Draws, r: Sim)
    requires cfg.points > 0 && !s.cell.partActive && r == Resume(cfg, s, d)
    ensures r.cell.partActive <==> !s.cell.breakActive && !s.cell.capChangeDue && !s.cell.dressingDue
    ensures r.cell.state == NextState(s.cell)
    ensures s.cell.breakActive ==>
              r.cell.capChangeDue == s.cell.capChangeDue && r.cell.dressingDue == s.cell.dressingDue
    ensures !s.cell.breakActive && !s.cell.capChangeDue && !s.cell.dressingDue ==>
              !r.cell.capChangeDue && !r.cell.dressingDue
    ensures !s.cell.breakActive && s.cell.dressingDue && !s.cell.capChangeDue ==>
              !r.cell.capChangeDue && exists e :: e in r.heap && Current(r, e) && e.kind == StopEnd(SetupStop(false))
  {
    if !s.cell.breakActive && s.cell.dressingDue && !s.cell.capChangeDue { SetupOwes(s, false, cfg.dressingS, r); }
  }

  lemma OnlyInSetup(cfg: Config, s: Sim)
    requires Sound(cfg, s)
    ensures Underway(s, true) ==> InSetup(s, true)
    ensures Underway(s, false) ==> InSetup(s, false)
  {
    if Underway(s, true) { UnderwayIsSetup(cfg, s, true); }
    if Underway(s, false) { UnderwayIsSetup(cfg, s, false); }
  }

  lemma SetupOwes(s: Sim, capChange: bool, duration: real, r: Sim)
    requires r == StartSetup(s, capChange, duration)
    ensures Underway(r, false) && (capChange ==> Underway(r, true))
    ensures exists e :: e in r.heap && Current(r, e) && e.kind == StopEnd(SetupStop(capChange))
    ensures !r.cell.dressingDue && (capChange ==> !r.cell.capChangeDue)
  {
    var e := Ev(s.now + duration, s.nextOrder, Some(r.cell.epoch), StopEnd(SetupStop(capChange)));
    assert e in r.heap && Current(r, e) && Does(e.kind, false);
    if capChange { assert Does(e.kind, true); }
  }

  /** The weld fault is on, with its one end queued. */
  ghost predicate WeldFault(s: Sim) {
    s.cell.state.Fault? && exists e :: Live(s.heap, s.cell.epoch) == {e} && e.kind == StopEnd(FaultStop(201))
  }

  lemma FaultStands(cfg: Config, s: Sim, code: int, duration: Option<real>, d: Draws, r: Sim)
    requires ValidDraws(cfg, d) && Base(cfg, s) && r == EnterFault(s, code, duration, d)
    requires duration.Some? ==> duration.value >= 0.0
    ensures r.cell.state.Fault?
    ensures exists e :: Live(r.heap, r.cell.epoch) == {e} && e.kind == StopEnd(FaultStop(code))
  {
    var s1 := Enter(s, Fault, code, AUTO_MODE, DefaultOrigin(Fault, code));
    EnterOk(cfg, s, Fault, code, AUTO_MODE, DefaultOrigin(Fault, code));
    var given := duration.Some? && duration.value != 0.0;
    var delay := if given then duration.value else d.faultS;
    ScheduleOk(s1, delay, StopEnd(FaultStop(code)), Some(s1.cell.epoch));
    var e := Ev(s1.now + delay, s1.nextOrder, Some(s1.cell.epoch), StopEnd(FaultStop(code)));
    assert Live(r.heap, r.cell.epoch) == {e};
  }

  /** What follows a part, told by the spoilt parts in a row and the parts since each setup, this one included:
      too many spoilt are the weld fault, with a dressing to do after it; else a cap change is owed where its
      threshold is reached; else a dressing where that one is; else nothing. A part is begun only in the last
      case, and then unless a break is on. */
  ghost predicate Follows(cfg: Config, r: Sim, streak: nat, sinceCap: nat, capAt: nat, sinceDressing: nat,
                          dressingAt: nat)
  {
    if streak >= cfg.nokLimit then
      WeldFault(r) && Owed(r, false) && !Owed(r, true) && !r.cell.partActive
    else if sinceCap >= capAt then Owed(r, true) && !r.cell.partActive
    else if sinceDressing >= dressingAt then Owed(r, false) && !Owed(r, true) && !r.cell.partActive
    else !Owed(r, true) && !Owed(r, false) && (r.cell.partActive <==> !r.cell.breakActive)
  }

  lemma AfterPartFollows(cfg: Config, s: Sim, d: Draws, r: Sim)
    requires ValidConfig(cfg) && ValidDraws(cfg, d) && Base(cfg, s) && !s.cell.partActive
    requires !s.cell.dressingDue && !s.cell.capChangeDue && r == AfterPart(cfg, s, d)
    ensures var c := s.cell; Follows(cfg, r, c.weldNok, c.partsSinceCap, c.nextCapChange, c.partsSinceDressing,
                                     c.nextDressing)
  {
    var mid := s.(cell := Noted(cfg, s.cell));
    FlagsOk(cfg, s, mid.cell, mid);
    if s.cell.weldNok >= cfg.nokLimit {
      SpoiltFollows(cfg, mid, d, r);
    } else {
      ResumeOwes(cfg, mid, d, r);
      ResumeWears(cfg, mid, d, r);
    }
  }

  lemma SpoiltFollows(cfg: Config, s: Sim, d: Draws, r: Sim)
    requires ValidConfig(cfg) && ValidDraws(cfg, d) && Base(cfg, s) && !s.cell.partActive
    requires s.cell.dressingDue && !s.cell.capChangeDue && r == EnterFault(s, WELD_FAULT, None, d)
    ensures WeldFault(r) && Owed(r, false) && !Owed(r, true) && !r.cell.partActive
  {
    EnterFaultWears(s, WELD_FAULT, None, d, r);
    FaultStands(cfg, s, WELD_FAULT, None, d, r);
    EnterFaultOk(cfg, s, WELD_FAULT, None, d);
    OnlyInSetup(cfg, r);
  }

  /** The part an action completes counts in the spoilt row exactly if one of its weld points was bad. */
  ghost function RowWith(cfg: Config, s: Sim, a: Action): nat
    requires Sound(cfg, s)
  {
    StreakAfter(s.cell, WeldsGood(s.cell) && a.d.pointOk)
  }

  lemma PartMakesDue(cfg: Config, s: Sim, a: Action, r: Sim)
    requires Sound(cfg, s) && ValidAction(cfg, a) && r == Act(cfg, s, a) && Completes(cfg, s, a)
    ensures var c := s.cell; Follows(cfg, r, RowWith(cfg, s, a), c.partsSinceCap + 1, c.nextCapChange,
                                     c.partsSinceDressing + 1, c.nextDressing)
  {
    var e := Due(cfg, s);
    DuePops(cfg, s, e);
    CurrentEventOk(cfg, s, e);
    PopOk(cfg, s, e);
    LastPointFollows(cfg, Pop(s, e), a.d, r);
  }

  lemma LastPointFollows(cfg: Config, s: Sim, d: Draws, r: Sim)
    requires ValidConfig(cfg) && ValidDraws(cfg, d) && Base(cfg, s) && s.cell.partActive
    requires !s.cell.dressingDue && !s.cell.capChangeDue
    requires s.cell.slotIdx + 1 >= cfg.points && r == OnSlotEnd(cfg, s, d)
    ensures var c := s.cell; Follows(cfg, r, StreakAfter(c, c.partWeldOk && d.pointOk), c.partsSinceCap + 1,
                                     c.nextCapChange, c.partsSinceDressing + 1, c.nextDressing)
  {
    var s1 := WeldPoint(s, d);
    var s2 := CountPart(s1, d);
    CountPartOk(cfg, s1, d);
    CountedCell(s1, d, s2);
    AfterPartFollows(cfg, s2, d, r);
  }

  // ------------------------------------------------------------ good and scrapped parts

  /** A part is counted good if and only if all its weld points were good and it is not scrapped otherwise. */
  lemma PartIsGoodIff(cfg: Config, s: Sim, a: Action, r: Sim)
    requires Sound(cfg, s) && ValidAction(cfg, a) && r == Act(cfg, s, a) && Completes(cfg, s, a)
    ensures var good := WeldsGood(s.cell) && a.d.pointOk && !a.d.scrap;
            && r.cell.good == (if good then Masked(s.cell.good + 1) else s.cell.good)
            && r.cell.scrap == (if good then s.cell.scrap else Masked(s.cell.scrap + 1))
  {
    LastPointTaken(cfg, s, a, r);
    LastPointCounts(cfg, Pop(s, Due(cfg, s)), a.d, r);
  }

  lemma LastPointTaken(cfg: Config, s: Sim, a: Action, r: Sim)
    requires Sound(cfg, s) && ValidAction(cfg, a) && r == Act(cfg, s, a) && Completes(cfg, s, a)
    ensures var p := Pop(s, Due(cfg, s));
            p.cell == s.cell && s.cell.partActive && s.cell.slotIdx + 1 >= cfg.points && r == OnSlotEnd(cfg, p, a.d)
  {
    DuePops(cfg, s, Due(cfg, s));
  }

  lemma LastPointCounts(cfg: Config, s: Sim, d: Draws, r: Sim)
    requires cfg.points > 0 && s.cell.slotIdx + 1 >= cfg.points && r == OnSlotEnd(cfg, s, d)
    ensures var good := s.cell.partWeldOk && d.pointOk && !d.scrap;
            && r.cell.good == (if good then Masked(s.cell.good + 1) else s.cell.good)
            && r.cell.scrap == (if good then s.cell.scrap else Masked(s.cell.scrap + 1))
  {
    var s1 := WeldPoint(s, d);
    var s2 := CountPart(s1, d);
    CountedCell(s1, d, s2);
    SimRuns.AfterPartFollows(cfg, s2, d, r);
  }

  // ------------------------------------------------------------ whole runs

  ghost function PointBy(cfg: Config, s: Sim, a: Action): nat
    requires Sound(cfg, s)
  {
    if Welds(cfg, s, a) then 1 else 0
  }

  /** Parts completed since the last cap change (or the last setup of either kind) ended. */
  ghost function PartsSince(cfg: Config, s: Sim, script: seq<Action>, cap: bool): nat
    requires Sound(cfg, s) && ValidScript(cfg, script)
    decreases |script|
  {
    if script == [] then (if cap then s.cell.partsSinceCap else s.cell.partsSinceDressing)
    else
      FrontOk(cfg, script);
      var t := Run(cfg, s, Front(script));
      if EndsSetup(cfg, t, Final(script), cap) then 0
      else PartsSince(cfg, s, Front(script), cap) + |MadeBy(cfg, t, Final(script))|
  }

  /** The threshold drawn when that setup ended. */
  ghost function Threshold(cfg: Config, s: Sim, script: seq<Action>, cap: bool): nat
    requires Sound(cfg, s) && ValidScript(cfg, script)
    decreases |script|
  {
    if script == [] then (if cap then s.cell.nextCapChange else s.cell.nextDressing)
    else
      FrontOk(cfg, script);
      var t, d := Run(cfg, s, Front(script)), Final(script).d;
      if EndsSetup(cfg, t, Final(script), cap) then (if cap then d.nextCapChange else d.nextDressing)
      else Threshold(cfg, s, Front(script), cap)
  }

  /** Weld points made since the last cap change ended. */
  ghost function PointsSince(cfg: Config, s: Sim, script: seq<Action>): nat
    requires Sound(cfg, s) && ValidScript(cfg, script)
    decreases |script|
  {
    if script == [] then s.cell.pointsSinceCap
    else
      FrontOk(cfg, script);
      var t := Run(cfg, s, Front(script));
      if EndsSetup(cfg, t, Final(script), true) then 0
      else PointsSince(cfg, s, Front(script)) + PointBy(cfg, t, Final(script))
  }

  /** Every weld point made since the last part was completed was good. */
  ghost predicate AllGood(cfg: Config, s: Sim, script: seq<Action>)
    requires Sound(cfg, s) && ValidScript(cfg, script)
    decreases |script|
  {
    if script == [] then WeldsGood(s.cell)
    else
      FrontOk(cfg, script);
      var t, a := Run(cfg, s, Front(script)), Final(script);
      Completes(cfg, t, a) || (AllGood(cfg, s, Front(script)) && (Welds(cfg, t, a) ==> a.d.pointOk))
  }

  /** Parts with a bad weld point completed in a row, up to the last action: since a part without one, or since
      there were as many as make the weld fault. */
  ghost function Spoilt(cfg: Config, s: Sim, script: seq<Action>): nat
    requires Sound(cfg, s) && ValidScript(cfg, script)
    decreases |script|, 0
  {
    if script == [] then s.cell.weldNok
    else
      FrontOk(cfg, script);
      var before := Spoilt(cfg, s, Front(script));
      if !Completes(cfg, Run(cfg, s, Front(script)), Final(script)) then before
      else if Row(cfg, s, script) >= cfg.nokLimit then 0
      else Row(cfg, s, script)
  }

  /** The row the part completed last makes, or ends. */
  ghost function Row(cfg: Config, s: Sim, script: seq<Action>): nat
    requires Sound(cfg, s) && ValidScript(cfg, script) && script != []
    decreases |script| - 1, 1
  {
    FrontOk(cfg, script);
    if AllGood(cfg, s, Front(script)) && Final(script).d.pointOk then 0 else Spoilt(cfg, s, Front(script)) + 1
  }

  /** Weld points of the run. */
  ghost function PointsMade(cfg: Config, s: Sim, script: seq<Action>): nat
    requires Sound(cfg, s) && ValidScript(cfg, script)
    decreases |script|
  {
    if script == [] then 0
    else
      FrontOk(cfg, script);
      PointsMade(cfg, s, Front(script)) + PointBy(cfg, Run(cfg, s, Front(script)), Final(script))
  }

  /** The cell's counts and thresholds are what the run counts and has drawn, and so are its spoilt parts. */
  ghost predicate CountsWear(cfg: Config, s: Sim, script: seq<Action>, c: Cell)
    requires Sound(cfg, s) && ValidScript(cfg, script)
  {
    && c.partsSinceCap == PartsSince(cfg, s, script, true)
    && c.partsSinceDressing == PartsSince(cfg, s, script, false)
    && c.nextCapChange == Threshold(cfg, s, script, true)
    && c.nextDressing == Threshold(cfg, s, script, false)
    && c.pointsSinceCap == PointsSince(cfg, s, script)
  }

  ghost predicate CountsHand(cfg: Config, s: Sim, script: seq<Action>, c: Cell)
    requires Sound(cfg, s) && ValidScript(cfg, script)
  {
    WeldsGood(c) == AllGood(cfg, s, script) && c.weldNok == Spoilt(cfg, s, script)
  }

  lemma {:induction false} WearIsCounted(cfg: Config, s: Sim, script: seq<Action>)
    requires Sound(cfg, s) && ValidScript(cfg, script)
    ensures CountsWear(cfg, s, script, Run(cfg, s, script).cell)
    decreases |script|
  {
    if script != [] {
      FrontOk(cfg, script);
      WearIsCounted(cfg, s, Front(script));
      var t, a := Run(cfg, s, Front(script)), Final(script);
      ActWears(cfg, t, a, Act(cfg, t, a));
    }
  }

  lemma {:induction false} HandIsCounted(cfg: Config, s: Sim, script: seq<Action>)
    requires Sound(cfg, s) && ValidScript(cfg, script)
    ensures CountsHand(cfg, s, script, Run(cfg, s, script).cell)
    decreases |script|
  {
    if script != [] {
      FrontOk(cfg, script);
      HandIsCounted(cfg, s, Front(script));
      var t, a := Run(cfg, s, Front(script)), Final(script);
      ActWears(cfg, t, a, Act(cfg, t, a));
    }
  }

  /** What the run has counted is what the cell knew and what the last action added. */
  lemma LastCounts(cfg: Config, s: Sim, script: seq<Action>, t: Sim, a: Action)
    requires Sound(cfg, s) && ValidScript(cfg, script) && script != [] && ValidScript(cfg, Front(script))
    requires t == Run(cfg, s, Front(script)) && a == Final(script) && Completes(cfg, t, a)
    requires CountsWear(cfg, s, Front(script), t.cell) && !EndsSetup(cfg, t, a, true) && !EndsSetup(cfg, t, a, false)
    requires |MadeBy(cfg, t, a)| == 1
    ensures PartsSince(cfg, s, script, true) == t.cell.partsSinceCap + 1
    ensures PartsSince(cfg, s, script, false) == t.cell.partsSinceDressing + 1
    ensures Threshold(cfg, s, script, true) == t.cell.nextCapChange
    ensures Threshold(cfg, s, script, false) == t.cell.nextDressing
  {
  }

  lemma LastRow(cfg: Config, s: Sim, script: seq<Action>, t: Sim, a: Action)
    requires Sound(cfg, s) && ValidScript(cfg, script) && script != [] && ValidScript(cfg, Front(script))
    requires t == Run(cfg, s, Front(script)) && a == Final(script) && CountsHand(cfg, s, Front(script), t.cell)
    ensures Row(cfg, s, script) == RowWith(cfg, t, a)
  {
  }

  /** The last action completes a part. */
  ghost predicate EndsPart(cfg: Config, s: Sim, script: seq<Action>)
    requires Sound(cfg, s) && ValidScript(cfg, script) && script != []
  {
    FrontOk(cfg, script);
    Completes(cfg, Run(cfg, s, Front(script)), Final(script))
  }

  /** Over every run, a completed part makes due what the parts, weld points and setups of the run say. */
  lemma DueIsCounted(cfg: Config, s: Sim, script: seq<Action>)
    requires Sound(cfg, s) && ValidScript(cfg, script) && script != []
    requires EndsPart(cfg, s, script)
    ensures Follows(cfg, Run(cfg, s, script), Row(cfg, s, script), PartsSince(cfg, s, script, true),
                    Threshold(cfg, s, script, true), PartsSince(cfg, s, script, false),
                    Threshold(cfg, s, script, false))
  {
    FrontOk(cfg, script);
    var t, a := Run(cfg, s, Front(script)), Final(script);
    WearIsCounted(cfg, s, Front(script));
    HandIsCounted(cfg, s, Front(script));
    LastPoint(cfg, t, a);
    LastCounts(cfg, s, script, t, a);
    LastRow(cfg, s, script, t, a);
    PartMakesDue(cfg, t, a, Act(cfg, t, a));
    DrainFollows(cfg, Act(cfg, t, a), Next(cfg, t, a), Row(cfg, s, script), t.cell.partsSinceCap + 1,
                 t.cell.nextCapChange, t.cell.partsSinceDressing + 1, t.cell.nextDressing);
  }

  lemma DrainFollows(cfg: Config, s: Sim, r: Sim, streak: nat, sinceCap: nat, capAt: nat, sinceDressing: nat,
                     dressingAt: nat)
    requires r == Drained(s) && Follows(cfg, s, streak, sinceCap, capAt, sinceDressing, dressingAt)
    ensures Follows(cfg, r, streak, sinceCap, capAt, sinceDressing, dressingAt)
  {
    assert Underway(r, true) <==> Underway(s, true);
    assert Underway(r, false) <==> Underway(s, false);
  }

  /** The weld points of so many parts. */
  function PointsFor(parts: nat, points: nat): nat { if parts == 0 then 0 else PointsFor(parts - 1, points) + points }

  lemma PointsGrow(before: seq<real>, one: seq<real>, points: nat)
    requires |one| <= 1
    ensures PointsFor(|before + one|, points) == PointsFor(|before|, points) + if one == [] then 0 else points
  {
    assert one == [] ==> before + one == before;
  }

  /** Over every run, each part gets exactly its number of weld points. */
  lemma {:induction false} WeldsAreConserved(cfg: Config, s: Sim, script: seq<Action>, made: seq<real>, end: Sim)
    requires Sound(cfg, s) && ValidScript(cfg, script)
    requires made == Made(cfg, s, script) && end == Run(cfg, s, script)
    ensures PointsInHand(s.cell) + PointsMade(cfg, s, script)
            == PointsFor(|made|, cfg.points) + PointsInHand(end.cell)
    decreases |script|
  {
    if script != [] {
      FrontOk(cfg, script);
      var t, a, before := Run(cfg, s, Front(script)), Final(script), Made(cfg, s, Front(script));
      WeldsAreConserved(cfg, s, Front(script), before, t);
      OnePointMore(cfg, t, a, Next(cfg, t, a));
      PointsGrow(before, MadeBy(cfg, t, a), cfg.points);
    }
  }

  lemma OnePointMore(cfg: Config, s: Sim, a: Action, next: Sim)
    requires Sound(cfg, s) && ValidAction(cfg, a) && next == Next(cfg, s, a)
    ensures |MadeBy(cfg, s, a)| <= 1
    ensures PointsInHand(s.cell) + PointBy(cfg, s, a)
            == (if MadeBy(cfg, s, a) == [] then 0 else cfg.points) + PointsInHand(next.cell)
  {
    ActWears(cfg, s, a, Act(cfg, s, a));
    if Completes(cfg, s, a) { LastPoint(cfg, s, a); }
  }

  lemma LastPoint(cfg: Config, s: Sim, a: Action)
    requires Sound(cfg, s) && ValidAction(cfg, a) && Completes(cfg, s, a)
    ensures Welds(cfg, s, a) && PointsInHand(s.cell) + 1 == cfg.points && |MadeBy(cfg, s, a)| == 1
  {
    DuePops(cfg, s, Due(cfg, s));
  }
}
