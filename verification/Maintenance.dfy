/** Maintenance that is due, over whole runs of the simulated cell: it waits through faults, breaks and
    stops, and is done before the next part is begun. */
module Maintenance {
  import opened Basics
  import opened Facts
  import opened Shifts
  import opened Simulator
  import opened SimLaws
  import opened SimRuns

  /** A cap change, or else a dressing, is due. */
  predicate IsDue(c: Cell, cap: bool) { if cap then c.capChangeDue else c.dressingDue }

  /** The end of a setup that does it: a cap change also does for a dressing, never the other way. */
  predicate Does(kind: Kind, cap: bool) { kind.StopEnd? && kind.stop.SetupStop? && (cap ==> kind.stop.capChange) }

  ghost predicate Underway(s: Sim, cap: bool) { exists e :: e in s.heap && Current(s, e) && Does(e.kind, cap) }

  ghost predicate Owed(s: Sim, cap: bool) { IsDue(s.cell, cap) || Underway(s, cap) }

  // ------------------------------------------------------------ what a handler leaves owed

  /** Nothing queued is dropped, and what was due still is, or its setup has just begun. */
  ghost predicate Remembers(s: Sim, r: Sim, cap: bool) {
    s.heap <= r.heap && (IsDue(s.cell, cap) ==> Owed(r, cap))
  }

  lemma SetupRemembers(s: Sim, capChange: bool, duration: real, cap: bool, r: Sim)
    requires r == StartSetup(s, capChange, duration) && (s.cell.capChangeDue ==> capChange)
    ensures Remembers(s, r, cap)
  {
    var e := Ev(s.now + duration, s.nextOrder, Some(r.cell.epoch), StopEnd(SetupStop(capChange)));
    assert e in r.heap && Current(r, e);
    if cap ==> capChange { assert Does(e.kind, cap); }
  }

  lemma ResumeRemembers(cfg: Config, s: Sim, d: Draws, cap: bool, r: Sim)
    requires cfg.points > 0 && r == Resume(cfg, s, d)
    ensures Remembers(s, r, cap)
  {
    if !s.cell.breakActive {
      if s.cell.capChangeDue {
        SetupRemembers(s, true, cfg.capChangeS, cap, r);
      } else if s.cell.dressingDue {
        SetupRemembers(s, false, cfg.dressingS, cap, r);
      }
    }
  }

  lemma AfterPartRemembers(cfg: Config, s: Sim, d: Draws, cap: bool, r: Sim)
    requires cfg.points > 0 && r == AfterPart(cfg, s, d)
    ensures Remembers(s, r, cap)
  {
    if s.cell.weldNok < cfg.nokLimit { ResumeRemembers(cfg, s.(cell := Noted(cfg, s.cell)), d, cap, r); }
  }

  lemma SlotRemembers(cfg: Config, s: Sim, d: Draws, cap: bool, r: Sim)
    requires cfg.points > 0 && r == OnSlotEnd(cfg, s, d)
    ensures Remembers(s, r, cap)
  {
    var s1 := WeldPoint(s, d);
    if s1.cell.slotIdx >= cfg.points { AfterPartRemembers(cfg, CountPart(s1, d), d, cap, r); }
  }

  lemma StopRemembers(cfg: Config, s: Sim, stop: StopKind, d: Draws, cap: bool, r: Sim)
    requires cfg.points > 0 && r == OnStopEnd(cfg, s, stop, d)
    ensures Remembers(s, r, cap)
  {
    if !(stop.FaultStop? && d.manual) {
      var mid := if stop.SetupStop? then FinishSetup(s, stop.capChange, d) else s;
      ResumeRemembers(cfg, mid, d, cap, r);
    }
  }

  lemma InterruptRemembers(s: Sim, what: Cut, d: Draws, cap: bool, r: Sim)
    requires r == OnInterrupt(s, what, d)
    ensures Remembers(s, r, cap)
  {
  }

  lemma BreakStartRemembers(cfg: Config, s: Sim, d: Draws, cap: bool, r: Sim)
    requires ValidConfig(cfg) && ValidSlot(cfg.calendar, s.cell.breakWindow) && r == OnBreakStart(cfg, s, d)
    ensures Remembers(s, r, cap)
    ensures s.cell.state.Setup? ==> r.cell.epoch == s.cell.epoch
  {
    var mid := TakeBreak(cfg, s);
    if s.cell.state.Starved? || s.cell.state.Blocked? { ResumeRemembers(cfg, mid, d, cap, r); }
  }

  lemma LeavingRemembers(cfg: Config, s: Sim, cap: bool, r: Sim)
    requires ValidCalendar(cfg.calendar) && ValidSlot(cfg.calendar, s.cell.breakWindow) && r == LeaveBreak(cfg, s)
    ensures Remembers(s, r, cap) && (IsDue(s.cell, cap) ==> IsDue(r.cell, cap))
    ensures r.cell.state == s.cell.state && r.cell.epoch == s.cell.epoch
  {
  }

  lemma BreakEndRemembers(cfg: Config, s: Sim, d: Draws, cap: bool, r: Sim)
    requires ValidConfig(cfg) && ValidSlot(cfg.calendar, s.cell.breakWindow) && r == OnBreakEnd(cfg, s, d)
    ensures Remembers(s, r, cap)
    ensures s.cell.state.Setup? ==> r.cell.epoch == s.cell.epoch
  {
    var mid := LeaveBreak(cfg, s);
    LeavingRemembers(cfg, s, cap, mid);
    if s.cell.state.PlannedStop? {
      ResumeRemembers(cfg, mid, d, cap, r);
    }
  }

  lemma HostRemembers(cfg: Config, s: Sim, cap: bool, r: Sim)
    requires ValidConfig(cfg)
    requires r == OnHeartbeat(s) || r == OnFreezeStart(cfg, s) || r == OnFreezeEnd(cfg, s)
             || r == OnCounterReset(cfg, s)
    ensures Remembers(s, r, cap) && r.cell.epoch == s.cell.epoch
  {
  }

  lemma HandleRemembers(cfg: Config, s: Sim, e: Ev, d: Draws, cap: bool, r: Sim)
    requires ValidConfig(cfg) && ValidSlot(cfg.calendar, s.cell.breakWindow) && r == Handle(cfg, s, e, d)
    requires e.epoch.Some? <==> DrivenByState(e.kind)
    ensures Remembers(s, r, cap)
    ensures s.cell.state.Setup? && !Current(s, e) ==> r.cell.epoch == s.cell.epoch
  {
    if DrivenByState(e.kind) && !Current(s, e) {
      assert r == s;
    } else {
      match e.kind
      case SlotEnd => SlotRemembers(cfg, s, d, cap, r);
      case Interrupt(what) => InterruptRemembers(s, what, d, cap, r);
      case StopEnd(stop) => StopRemembers(cfg, s, stop, d, cap, r);
      case BreakStart => BreakStartRemembers(cfg, s, d, cap, r);
      case BreakEnd => BreakEndRemembers(cfg, s, d, cap, r);
      case _ => HostRemembers(cfg, s, cap, r);
    }
  }

  // ------------------------------------------------------------ one action

  /** The action is the end of a setup that does it. */
  ghost predicate EndsSetup(cfg: Config, s: Sim, a: Action, cap: bool)
    requires Sound(cfg, s)
  {
    a.Tick? && Current(s, Due(cfg, s)) && Does(Due(cfg, s).kind, cap)
  }

  /** The cell is in the setup: its end is the one callback that still counts. */
  ghost predicate InSetup(s: Sim, cap: bool) {
    s.cell.state.Setup? && exists e :: Live(s.heap, s.cell.epoch) == {e} && Does(e.kind, cap)
  }

  lemma UnderwayIsSetup(cfg: Config, s: Sim, cap: bool)
    requires Sound(cfg, s) && Underway(s, cap)
    ensures InSetup(s, cap)
  {
    var e :| e in s.heap && Current(s, e) && Does(e.kind, cap);
    assert e in Live(s.heap, s.cell.epoch);
  }

  lemma ForceRemembers(cfg: Config, s: Sim, code: int, duration: real, at: real, d: Draws, cap: bool, r: Sim)
    requires s.heap != {} && Numbered(s.heap) && r == ForceFault(cfg, s, code, duration, at, d).0
    ensures Remembers(s, r, cap) && (s.cell.state.Setup? ==> r.cell.epoch == s.cell.epoch)
  {
  }

  /** What is owed is still owed after any action but the end of its setup. */
  lemma OwedStays(cfg: Config, s: Sim, a: Action, cap: bool, r: Sim)
    requires Sound(cfg, s) && ValidAction(cfg, a) && r == Act(cfg, s, a)
    requires Owed(s, cap) && !EndsSetup(cfg, s, a, cap)
    ensures Owed(r, cap)
  {
    QueueNeverEmpty(cfg, s);
    var e := Due(cfg, s);
    var t := if a.Tick? then Pop(s, e) else s;
    if a.Tick? {
      HandleRemembers(cfg, t, e, a.d, cap, r);
    } else {
      ForceRemembers(cfg, s, a.code, a.duration, a.at, a.d, cap, r);
    }
    if Underway(s, cap) {
      UnderwayIsSetup(cfg, s, cap);
      StaysUnderway(cfg, s, t, a, cap, r);
    }
  }

  lemma StaysUnderway(cfg: Config, s: Sim, t: Sim, a: Action, cap: bool, r: Sim)
    requires Sound(cfg, s) && InSetup(s, cap) && !EndsSetup(cfg, s, a, cap)
    requires t == if a.Tick? then Pop(s, Due(cfg, s)) else s
    requires t.heap <= r.heap && (!a.Tick? || !Current(s, Due(cfg, s)) ==> r.cell.epoch == s.cell.epoch)
    ensures Underway(r, cap)
  {
    var live, e := Live(s.heap, s.cell.epoch), Due(cfg, s);
    var f :| live == {f} && Does(f.kind, cap);
    assert f in live;
    assert Current(s, e) ==> e in live;
    assert f in t.heap && Current(r, f);
  }

  /** A part is only begun when nothing is owed. */
  lemma OwedIsIdle(cfg: Config, s: Sim, a: Action, cap: bool, r: Sim)
    requires Sound(cfg, s) && ValidAction(cfg, a) && r == Act(cfg, s, a) && Owed(r, cap)
    ensures TakenBy(cfg, s, a) == []
  {
    ActOk(cfg, s, a, r);
    ActTakes(cfg, s, a, r);
    if TakenBy(cfg, s, a) != [] {
      assert r.cell.state.Producing?;
      UnderwayIsSetup(cfg, r, cap);
    }
  }

  /** A cap change that is due stays so until the cell is in a cap change, a dressing until it is in
      either setup; and neither is due while producing. */
  lemma MaintenanceIsNeverLost(cfg: Config, s: Sim, a: Action, cap: bool, r: Sim)
    requires Sound(cfg, s) && ValidAction(cfg, a) && r == Act(cfg, s, a)
    ensures IsDue(s.cell, cap) && !IsDue(r.cell, cap) ==> InSetup(r, cap)
    ensures r.cell.state.Producing? ==> !IsDue(r.cell, cap)
  {
    ActOk(cfg, s, a, r);
    QueueNeverEmpty(cfg, s);
    if a.Tick? {
      HandleRemembers(cfg, Pop(s, Due(cfg, s)), Due(cfg, s), a.d, cap, r);
    } else {
      ForceRemembers(cfg, s, a.code, a.duration, a.at, a.d, cap, r);
    }
    if Underway(r, cap) { UnderwayIsSetup(cfg, r, cap); }
  }

  // ------------------------------------------------------------ whole runs

  /** Some action of the run is the end of a setup that does it. */
  ghost predicate Maintained(cfg: Config, s: Sim, script: seq<Action>, cap: bool)
    requires Sound(cfg, s) && ValidScript(cfg, script)
    decreases |script|
  {
    if script == [] then false
    else
      FrontOk(cfg, script);
      || Maintained(cfg, s, Front(script), cap)
      || EndsSetup(cfg, Run(cfg, s, Front(script)), Final(script), cap)
  }

  /** Over every run from a state in which a cap change (or a dressing) is due or under way: until a cap
      change (or either setup) has ended it is still owed, and no part is begun. */
  lemma {:induction false} MaintenanceComesFirst(cfg: Config, s: Sim, script: seq<Action>, cap: bool)
    requires Sound(cfg, s) && ValidScript(cfg, script) && Owed(s, cap)
    ensures Maintained(cfg, s, script, cap)
            || (Owed(Run(cfg, s, script), cap) && Taken(cfg, s, script) == [])
    decreases |script|
  {
    if script != [] {
      FrontOk(cfg, script);
      MaintenanceComesFirst(cfg, s, Front(script), cap);
      var t, a := Run(cfg, s, Front(script)), Final(script);
      if !Maintained(cfg, s, script, cap) {
        OwedStays(cfg, t, a, cap, Act(cfg, t, a));
        OwedIsIdle(cfg, t, a, cap, Act(cfg, t, a));
      }
    }
  }
}
