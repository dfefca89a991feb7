/** What every run of the simulated cell keeps: never stuck, never driven twice, no working time lost. */
module SimLaws {
  import opened Basics
  import opened Facts
  import opened Shifts
  import opened Simulator

  // ------------------------------------------------------------ the invariant

  predicate DrivenByState(k: Kind) { k.SlotEnd? || k.Interrupt? || k.StopEnd? }

  predicate OfBreak(k: Kind) { k.BreakStart? || k.BreakEnd? }

  /** Nothing is queued in the past, and no callback is ahead of the cell's epoch. */
  ghost predicate QueueOk(heap: set<Ev>, now: real, next: nat, epoch: nat) {
    && Numbered(heap)
    && forall e :: e in heap ==>
         && now <= e.ts && e.order < next
         && (e.epoch.Some? <==> DrivenByState(e.kind))
         && (e.epoch.Some? ==> e.epoch.value <= epoch)
  }

  /** The callbacks that still count. */
  ghost function Live(heap: set<Ev>, epoch: nat): set<Ev> { set e | e in heap && e.epoch == Some(epoch) }

  ghost function BreakEvents(heap: set<Ev>): set<Ev> { set e | e in heap && OfBreak(e.kind) }

  /** Exactly one break event is queued: the end of the window in force, or the start of the next. */
  ghost predicate IsBreak(b: Ev, c: Cell, cal: Calendar)
    requires ValidSlot(cal, c.breakWindow)
  {
    if c.breakActive then b.kind.BreakEnd? && b.ts == EndOf(cal, c.breakWindow)
    else b.kind.BreakStart? && b.ts == StartOf(cal, c.breakWindow)
  }

  ghost predicate BreakOk(breaks: set<Ev>, c: Cell, cal: Calendar, now: real) {
    && ValidSlot(cal, c.breakWindow)
    && (c.breakActive ==> StartOf(cal, c.breakWindow) <= now)
    && exists b :: breaks == {b} && IsBreak(b, c, cal)
  }

  predicate Ends(stop: StopKind, st: State) {
    match stop
    case FaultStop(_) => st.Fault?
    case SetupStop(_) => st.Setup?
    case StarvedStop => st.Starved?
    case BlockedStop => st.Blocked?
    case ManualStop => st.Manual?
  }

  ghost predicate DrivesProduction(slot: Ev, live: set<Ev>, slotEnd: real) {
    && slot in live && slot.kind.SlotEnd? && slot.ts == slotEnd
    && (forall e :: e in live ==> e == slot || e.kind.Interrupt?)
    && (forall e, f :: e in live && f in live && e.kind.Interrupt? && f.kind.Interrupt? ==> e == f)
  }

  /** Each state is driven by exactly what must end it. */
  ghost predicate Driven(live: set<Ev>, c: Cell) {
    && (c.slotEnd.Some? <==> c.state.Producing?)
    && match c.state
       case Producing => exists slot :: DrivesProduction(slot, live, c.slotEnd.value)
       case PlannedStop => live == {} && c.breakActive
       case _ => exists e :: live == {e} && e.kind.StopEnd? && Ends(e.kind.stop, c.state)
  }

  /** Work done in a number of whole slots. */
  function Work(slots: nat, slotLen: real): real { if slots == 0 then 0.0 else Work(slots - 1, slotLen) + slotLen }

  /** What is left of the slot in hand, running or frozen. */
  function Left(c: Cell, now: real): real { if c.slotEnd.Some? then c.slotEnd.value - now else c.slotRemaining }

  ghost predicate PartOk(cfg: Config, c: Cell, now: real) {
    && (c.slotEnd.Some? ==> c.partActive)
    && (c.partActive ==>
          && c.slotIdx < cfg.points && cfg.theoretical < c.cycle
          && Work(cfg.points, c.slotLen) == c.cycle
          && 0.0 <= Left(c, now) <= c.slotLen)
  }

  /** Maintenance that is due comes before the next part. */
  predicate MaintenanceFirst(c: Cell) { c.state.Producing? ==> !c.dressingDue && !c.capChangeDue }

  ghost predicate Base(cfg: Config, s: Sim) {
    && QueueOk(s.heap, s.now, s.nextOrder, s.cell.epoch)
    && BreakOk(BreakEvents(s.heap), s.cell, cfg.calendar, s.now)
    && PartOk(cfg, s.cell, s.now)
  }

  ghost predicate Inv(cfg: Config, s: Sim) {
    && Base(cfg, s)
    && Driven(Live(s.heap, s.cell.epoch), s.cell)
    && MaintenanceFirst(s.cell)
  }

  /** How much of the part in hand has been worked. */
  function Progress(c: Cell, now: real): real {
    if c.partActive then Work(c.slotIdx, c.slotLen) + c.slotLen - Left(c, now) else 0.0
  }

  // ------------------------------------------------------------ primitives

  lemma ScheduleOk(s: Sim, delay: real, kind: Kind, epoch: Option<nat>)
    requires QueueOk(s.heap, s.now, s.nextOrder, s.cell.epoch)
    requires delay >= 0.0
    requires if DrivenByState(kind) then epoch == Some(s.cell.epoch) else epoch == None
    ensures var r, e := Schedule(s, delay, kind, epoch), Ev(s.now + delay, s.nextOrder, epoch, kind);
            && QueueOk(r.heap, r.now, r.nextOrder, r.cell.epoch)
            && Live(r.heap, r.cell.epoch) == Live(s.heap, s.cell.epoch) + (if DrivenByState(kind) then {e} else {})
            && BreakEvents(r.heap) == BreakEvents(s.heap) + (if OfBreak(kind) then {e} else {})
  {
  }

  lemma EnteredCell(s: Sim, st: State, code: int, mode: int, origin: int, r: Sim)
    requires r == Enter(s, st, code, mode, origin)
    ensures r.now == s.now && r.heap == s.heap && r.nextOrder == s.nextOrder
    ensures r.cell == s.cell.(slotEnd := None, slotRemaining := r.cell.slotRemaining, epoch := s.cell.epoch + 1,
                              state := st)
    ensures r.cell.slotRemaining == if s.cell.slotEnd.None? then s.cell.slotRemaining
                                    else RMax(0.0, s.cell.slotEnd.value - s.now)
  {
  }

  /** Entering a state silences every callback, freezes the slot and loses no work. */
  lemma EnterOk(cfg: Config, s: Sim, st: State, code: int, mode: int, origin: int)
    requires Base(cfg, s)
    ensures var r := Enter(s, st, code, mode, origin);
            && Base(cfg, r)
            && Live(r.heap, r.cell.epoch) == {}
            && r.cell == s.cell.(slotEnd := None, slotRemaining := r.cell.slotRemaining, epoch := s.cell.epoch + 1,
                state := st)
            && r.now == s.now
            && Progress(r.cell, r.now) == Progress(s.cell, s.now)
  {
    EnteredCell(s, st, code, mode, origin, Enter(s, st, code, mode, origin));
  }

  lemma StopForOk(cfg: Config, s: Sim, duration: real, stop: StopKind)
    requires Base(cfg, s) && duration >= 0.0
    requires Live(s.heap, s.cell.epoch) == {} && s.cell.slotEnd.None? && Ends(stop, s.cell.state)
    ensures Inv(cfg, StopFor(s, duration, stop))
  {
    ScheduleOk(s, duration, StopEnd(stop), Some(s.cell.epoch));
    var e := Ev(s.now + duration, s.nextOrder, Some(s.cell.epoch), StopEnd(stop));
    var r := StopFor(s, duration, stop);
    assert Live(r.heap, r.cell.epoch) == {e};
  }

  // ------------------------------------------------------------ transitions

  lemma {:induction false} WorkIsProduct(slots: nat, slotLen: real)
    ensures Work(slots, slotLen) == slots as real * slotLen
  {
    if slots > 0 {
      WorkIsProduct(slots - 1, slotLen);
      var before := (slots - 1) as real;
      assert slots as real == before + 1.0;
      assert (before + 1.0) * slotLen == before * slotLen + slotLen;
    }
  }

  lemma NewPartOk(cfg: Config, c: Cell, cycle: real, now: real)
    requires ValidConfig(cfg) && cycle > cfg.theoretical && c.slotEnd.None? && !c.partActive
    ensures PartOk(cfg, NewPart(cfg, c, cycle), now)
    ensures Progress(NewPart(cfg, c, cycle), now) == Progress(c, now)
  {
    var n := cfg.points as real;
    assert n > 0.0;
    assert n * (cycle / n) == cycle;
    assert cycle / n >= 0.0;
    WorkIsProduct(cfg.points, cycle / n);
    assert Work(0, cycle / n) == 0.0;
  }

  /** The next slot of the part in hand is queued for its own end. */
  lemma ScheduleSlotOk(cfg: Config, s: Sim, slot: Ev)
    requires Base(cfg, s) && s.cell.slotEnd.None? && s.cell.partActive
    requires forall e :: e in Live(s.heap, s.cell.epoch) ==> e.kind.Interrupt?
    requires slot == Ev(s.now + s.cell.slotRemaining, s.nextOrder, Some(s.cell.epoch), SlotEnd)
    ensures var r := ScheduleSlot(s);
            && Base(cfg, r)
            && Live(r.heap, r.cell.epoch) == Live(s.heap, s.cell.epoch) + {slot}
            && r.cell == s.cell.(slotEnd := Some(slot.ts))
            && Progress(r.cell, r.now) == Progress(s.cell, s.now)
  {
    var mid := s.(cell := s.cell.(slotEnd := Some(slot.ts)));
    ScheduleOk(mid, s.cell.slotRemaining, SlotEnd, Some(s.cell.epoch));
    assert BreakEvents(ScheduleSlot(s).heap) == BreakEvents(s.heap);
  }

  lemma StartProducingOk(cfg: Config, s: Sim, d: Draws)
    requires ValidConfig(cfg) && ValidDraws(cfg, d)
    requires Base(cfg, s) && !s.cell.dressingDue && !s.cell.capChangeDue
    ensures Inv(cfg, StartProducing(cfg, s, d))
    ensures Progress(StartProducing(cfg, s, d).cell, s.now) == Progress(s.cell, s.now)
  {
    EnterOk(cfg, s, Producing, 0, AUTO_MODE, DefaultOrigin(Producing, 0));
    var s1 := Enter(s, Producing, 0, AUTO_MODE, DefaultOrigin(Producing, 0));
    if !s1.cell.partActive { NewPartOk(cfg, s1.cell, d.cycle, s1.now); }
    var s2 := if s1.cell.partActive then s1 else s1.(cell := NewPart(cfg, s1.cell, d.cycle));
    var slot := Ev(s2.now + s2.cell.slotRemaining, s2.nextOrder, Some(s2.cell.epoch), SlotEnd);
    PartQueued(cfg, s2, slot, d.interruption, StartProducing(cfg, s, d));
  }

  lemma PartQueued(cfg: Config, s: Sim, slot: Ev, it: Option<Interruption>, r: Sim)
    requires Base(cfg, s) && s.cell.partActive && s.cell.slotEnd.None? && Live(s.heap, s.cell.epoch) == {}
    requires s.cell.state.Producing? && !s.cell.dressingDue && !s.cell.capChangeDue
    requires slot == Ev(s.now + s.cell.slotRemaining, s.nextOrder, Some(s.cell.epoch), SlotEnd)
    requires it.Some? ==> it.value.delay >= 0.0
    requires var mid := ScheduleSlot(s);
             r == if it.None? then mid
                  else Schedule(mid, it.value.delay, Interrupt(it.value.what), Some(mid.cell.epoch))
    ensures Inv(cfg, r) && Progress(r.cell, r.now) == Progress(s.cell, s.now) && r.now == s.now
  {
    FirstSlotOk(cfg, s, slot);
    if it.Some? { InterruptOk(cfg, ScheduleSlot(s), it.value, slot); }
  }

  /** With a part in hand and no callback queued, the end of its slot is all it takes to produce. */
  lemma FirstSlotOk(cfg: Config, s: Sim, slot: Ev)
    requires Base(cfg, s) && s.cell.partActive && s.cell.slotEnd.None? && Live(s.heap, s.cell.epoch) == {}
    requires s.cell.state.Producing? && !s.cell.dressingDue && !s.cell.capChangeDue
    requires slot == Ev(s.now + s.cell.slotRemaining, s.nextOrder, Some(s.cell.epoch), SlotEnd)
    ensures var r := ScheduleSlot(s);
            && Inv(cfg, r) && Live(r.heap, r.cell.epoch) == {slot} && DrivesProduction(slot, {slot}, slot.ts)
            && r.cell == s.cell.(slotEnd := Some(slot.ts)) && Progress(r.cell, r.now) == Progress(s.cell, s.now)
  {
    ScheduleSlotOk(cfg, s, slot);
    var r := ScheduleSlot(s);
    assert Live(r.heap, r.cell.epoch) == {slot};
    assert DrivesProduction(slot, Live(r.heap, r.cell.epoch), slot.ts);
  }

  lemma InterruptOk(cfg: Config, s: Sim, it: Interruption, slot: Ev)
    requires Inv(cfg, s) && it.delay >= 0.0 && s.cell.state.Producing?
    requires Live(s.heap, s.cell.epoch) == {slot} && DrivesProduction(slot, {slot}, s.cell.slotEnd.value)
    ensures Inv(cfg, Schedule(s, it.delay, Interrupt(it.what), Some(s.cell.epoch)))
  {
    ScheduleOk(s, it.delay, Interrupt(it.what), Some(s.cell.epoch));
    var r := Schedule(s, it.delay, Interrupt(it.what), Some(s.cell.epoch));
    assert DrivesProduction(slot, Live(r.heap, r.cell.epoch), r.cell.slotEnd.value);
  }

  lemma StartSetupOk(cfg: Config, s: Sim, capChange: bool, duration: real)
    requires Base(cfg, s) && duration >= 0.0
    ensures Inv(cfg, StartSetup(s, capChange, duration))
    ensures Progress(StartSetup(s, capChange, duration).cell, s.now) == Progress(s.cell, s.now)
  {
    EnterOk(cfg, s, Setup, 0, AUTO_MODE, DefaultOrigin(Setup, 0));
    var s1 := Enter(s, Setup, 0, AUTO_MODE, DefaultOrigin(Setup, 0));
    var c := s1.cell.(dressingDue := false, capChangeDue := !capChange && s1.cell.capChangeDue);
    SetupQueued(cfg, s1, c, duration, SetupStop(capChange), StartSetup(s, capChange, duration));
  }

  lemma SetupQueued(cfg: Config, s: Sim, c: Cell, duration: real, stop: StopKind, r: Sim)
    requires Base(cfg, s) && duration >= 0.0 && stop.SetupStop? && s.cell.state.Setup?
    requires Live(s.heap, s.cell.epoch) == {} && s.cell.slotEnd.None?
    requires c == s.cell.(dressingDue := c.dressingDue, capChangeDue := c.capChangeDue)
    requires r == StopFor(s.(cell := c), duration, stop)
    ensures Inv(cfg, r) && Progress(r.cell, s.now) == Progress(s.cell, s.now)
  {
    FlagsOk(cfg, s, c, s.(cell := c));
    StopForOk(cfg, s.(cell := c), duration, stop);
  }

  /** Whatever the cell was doing, after `_resume` exactly the right callbacks are queued. */
  lemma ResumeOk(cfg: Config, s: Sim, d: Draws)
    requires ValidConfig(cfg) && ValidDraws(cfg, d) && Base(cfg, s)
    ensures Inv(cfg, Resume(cfg, s, d))
    ensures Progress(Resume(cfg, s, d).cell, s.now) == Progress(s.cell, s.now)
  {
    if s.cell.breakActive {
      EnterOk(cfg, s, PlannedStop, 0, AUTO_MODE, DefaultOrigin(PlannedStop, 0));
    } else if s.cell.capChangeDue {
      StartSetupOk(cfg, s, true, cfg.capChangeS);
    } else if s.cell.dressingDue {
      StartSetupOk(cfg, s, false, cfg.dressingS);
    } else {
      StartProducingOk(cfg, s, d);
    }
  }

  lemma EnterFaultOk(cfg: Config, s: Sim, code: int, duration: Option<real>, d: Draws)
    requires ValidDraws(cfg, d) && Base(cfg, s) && (duration.Some? ==> duration.value >= 0.0)
    ensures Inv(cfg, EnterFault(s, code, duration, d))
    ensures Progress(EnterFault(s, code, duration, d).cell, s.now) == Progress(s.cell, s.now)
  {
    EnterOk(cfg, s, Fault, code, AUTO_MODE, DefaultOrigin(Fault, code));
    var s1 := Enter(s, Fault, code, AUTO_MODE, DefaultOrigin(Fault, code));
    StopForOk(cfg, s1, if duration.Some? && duration.value != 0.0 then duration.value else d.faultS, FaultStop(code));
  }

  // ------------------------------------------------------------ taking the next event

  lemma QueueNeverEmpty(cfg: Config, s: Sim)
    requires Inv(cfg, s)
    ensures s.heap != {} && Numbered(s.heap)
  {
    var b :| BreakEvents(s.heap) == {b} && IsBreak(b, s.cell, cfg.calendar);
    assert b in BreakEvents(s.heap);
  }

  /** Time moves to the earliest event: never backwards, never past the end of the slot in hand. */
  lemma PopOk(cfg: Config, s: Sim, e: Ev)
    requires Inv(cfg, s) && IsFirst(e, s.heap)
    ensures var p := Pop(s, e);
            && s.now <= p.now
            && QueueOk(p.heap, p.now, p.nextOrder, p.cell.epoch) && PartOk(cfg, p.cell, p.now)
            && Live(p.heap, p.cell.epoch) == Live(s.heap, s.cell.epoch) - {e}
            && BreakEvents(p.heap) == BreakEvents(s.heap) - {e}
            && Progress(p.cell, p.now) == Progress(s.cell, s.now) + if s.cell.state.Producing? then p.now - s.now
                else 0.0
  {
    var live := Live(s.heap, s.cell.epoch);
    if s.cell.state.Producing? {
      var slot :| DrivesProduction(slot, live, s.cell.slotEnd.value);
      assert slot in s.heap;
    }
  }

  /** Events due at one time are taken in the order they were queued: a new one never overtakes an older one. */
  lemma NewEventsWait(s: Sim, delay: real, kind: Kind, epoch: Option<nat>, r: Sim, old_: Ev)
    requires QueueOk(s.heap, s.now, s.nextOrder, s.cell.epoch) && old_ in s.heap && old_.ts <= s.now + delay
    requires r == Schedule(s, delay, kind, epoch)
    ensures Numbered(r.heap) && First(r.heap) in s.heap
  {
    var e := Ev(s.now + delay, s.nextOrder, epoch, kind);
    assert forall f, g :: f in r.heap && g in r.heap && f.order == g.order ==> f == g;
    var first := First(r.heap);
    assert first == old_ || Sooner(first, old_);
  }

  lemma OtherEventOk(cfg: Config, s: Sim, e: Ev)
    requires Inv(cfg, s) && IsFirst(e, s.heap)
    requires !Current(s, e) && !OfBreak(e.kind)
    ensures Inv(cfg, Pop(s, e))
  {
    PopOk(cfg, s, e);
    assert Live(Pop(s, e).heap, s.cell.epoch) == Live(s.heap, s.cell.epoch);
    assert BreakEvents(Pop(s, e).heap) == BreakEvents(s.heap);
  }

  /** A current callback leaves no other one queued, except an interruption beside the slot's end. */
  lemma CurrentEventOk(cfg: Config, s: Sim, e: Ev)
    requires Inv(cfg, s) && IsFirst(e, s.heap) && Current(s, e)
    ensures Base(cfg, Pop(s, e))
    ensures e.kind.SlotEnd? ==>
              && s.cell.state.Producing? && s.cell.slotEnd == Some(e.ts)
              && forall f :: f in Live(Pop(s, e).heap, s.cell.epoch) ==> f.kind.Interrupt?
    ensures e.kind.StopEnd? ==> Live(Pop(s, e).heap, s.cell.epoch) == {} && Ends(e.kind.stop, s.cell.state)
    ensures e.kind.Interrupt? ==> s.cell.state.Producing?
  {
    PopOk(cfg, s, e);
    assert e in Live(s.heap, s.cell.epoch);
    assert BreakEvents(Pop(s, e).heap) == BreakEvents(s.heap);
  }

  // ------------------------------------------------------------ parts

  lemma WorkStep(n: nat, slotLen: real)
    ensures Work(n + 1, slotLen) == Work(n, slotLen) + slotLen
  {
  }

  lemma CountPartOk(cfg: Config, s: Sim, d: Draws)
    requires QueueOk(s.heap, s.now, s.nextOrder, s.cell.epoch) && s.cell.slotEnd.None?
    requires BreakOk(BreakEvents(s.heap), s.cell, cfg.calendar, s.now)
    ensures var r := CountPart(s, d);
            && Base(cfg, r) && r.now == s.now && !r.cell.partActive
            && (r.cell.breakActive <==> s.cell.breakActive) && r.cell.breakWindow == s.cell.breakWindow
  {
  }

  /** Noting what is due changes nothing else. */
  lemma FlagsOk(cfg: Config, s: Sim, c: Cell, r: Sim)
    requires Base(cfg, s) && r == s.(cell := c)
    requires c == s.cell.(weldNok := c.weldNok, dressingDue := c.dressingDue, capChangeDue := c.capChangeDue)
    ensures Base(cfg, r) && Progress(r.cell, r.now) == Progress(s.cell, s.now)
  {
  }

  /** A finished part leaves no work in hand, whatever comes next. */
  lemma AfterPartOk(cfg: Config, s: Sim, d: Draws)
    requires ValidConfig(cfg) && ValidDraws(cfg, d)
    requires Base(cfg, s) && !s.cell.partActive
    ensures Inv(cfg, AfterPart(cfg, s, d))
    ensures Progress(AfterPart(cfg, s, d).cell, s.now) == 0.0
  {
    var mid := s.(cell := Noted(cfg, s.cell));
    FlagsOk(cfg, s, Noted(cfg, s.cell), mid);
    if s.cell.weldNok >= cfg.nokLimit {
      EnterFaultOk(cfg, mid, WELD_FAULT, None, d);
    } else {
      ResumeOk(cfg, mid, d);
    }
  }

  predicate Finishes(cfg: Config, s: Sim, e: Ev) {
    e.kind.SlotEnd? && Current(s, e) && s.cell.slotIdx + 1 >= cfg.points
  }

  lemma NextSlotOk(cfg: Config, s: Sim, s1: Sim)
    requires Base(cfg, s) && s.cell.partActive && s.cell.slotEnd == Some(s.now)
    requires forall e :: e in Live(s.heap, s.cell.epoch) ==> e.kind.Interrupt?
    requires Interrupts(Live(s.heap, s.cell.epoch)) && s.cell.state.Producing? && MaintenanceFirst(s.cell)
    requires s1 == s.(cell := s1.cell, image := s1.image, changes := s1.changes)
    requires s1.cell == s.cell.(slotEnd := None, slotIdx := s.cell.slotIdx + 1, slotRemaining := s.cell.slotLen,
                                pointsSinceCap := s1.cell.pointsSinceCap, partWeldOk := s1.cell.partWeldOk)
    requires s1.cell.slotIdx < cfg.points
    ensures Inv(cfg, ScheduleSlot(s1)) && Progress(ScheduleSlot(s1).cell, s.now) == Progress(s.cell, s.now)
  {
    WorkStep(s.cell.slotIdx, s.cell.slotLen);
    var slot := Ev(s1.now + s1.cell.slotRemaining, s1.nextOrder, Some(s1.cell.epoch), SlotEnd);
    ScheduleSlotOk(cfg, s1, slot);
    var r := ScheduleSlot(s1);
    assert DrivesProduction(slot, Live(r.heap, r.cell.epoch), slot.ts);
  }

  ghost predicate Interrupts(live: set<Ev>) {
    forall e, f :: e in live && f in live && e.kind.Interrupt? && f.kind.Interrupt? ==> e == f
  }

  lemma SlotEndOk(cfg: Config, s: Sim, e: Ev, d: Draws)
    requires ValidConfig(cfg) && ValidDraws(cfg, d)
    requires Inv(cfg, s) && IsFirst(e, s.heap) && Current(s, e) && e.kind.SlotEnd?
    ensures var p := Pop(s, e);
            && Inv(cfg, OnSlotEnd(cfg, p, d))
            && Progress(OnSlotEnd(cfg, p, d).cell, e.ts)
               == Progress(p.cell, e.ts) - if Finishes(cfg, s, e) then s.cell.cycle else 0.0
  {
    var p := Pop(s, e);
    CurrentEventOk(cfg, s, e);
    PopOk(cfg, s, e);
    var s1 := WeldPoint(p, d);
    if s1.cell.slotIdx < cfg.points {
      NextSlotOk(cfg, p, s1.(cell := s1.cell.(slotRemaining := s1.cell.slotLen)));
    } else {
      LastSlotOk(cfg, p, s1, d);
    }
  }

  lemma LastSlotOk(cfg: Config, s: Sim, s1: Sim, d: Draws)
    requires ValidConfig(cfg) && ValidDraws(cfg, d)
    requires Base(cfg, s) && s.cell.partActive && s.cell.slotEnd == Some(s.now)
    requires s1 == s.(cell := s1.cell, image := s1.image, changes := s1.changes)
    requires s1.cell == s.cell.(slotEnd := None, slotIdx := s.cell.slotIdx + 1,
                                pointsSinceCap := s1.cell.pointsSinceCap, partWeldOk := s1.cell.partWeldOk)
    requires s1.cell.slotIdx >= cfg.points
    ensures Inv(cfg, CompletePart(cfg, s1, d))
    ensures Progress(CompletePart(cfg, s1, d).cell, s.now) == Progress(s.cell, s.now) - s.cell.cycle
  {
    WholePart(cfg, s.cell, s.now);
    CountPartOk(cfg, s1, d);
    AfterPartOk(cfg, CountPart(s1, d), d);
  }

  /** At the end of its last slot a part has been worked for its whole cycle. */
  lemma WholePart(cfg: Config, c: Cell, now: real)
    requires PartOk(cfg, c, now) && c.partActive && c.slotEnd == Some(now) && c.slotIdx + 1 >= cfg.points
    ensures Progress(c, now) == c.cycle
  {
    WorkStep(c.slotIdx, c.slotLen);
  }

  // ------------------------------------------------------------ stops

  lemma OnInterruptOk(cfg: Config, s: Sim, e: Ev, what: Cut, d: Draws)
    requires ValidConfig(cfg) && ValidDraws(cfg, d)
    requires Inv(cfg, s) && IsFirst(e, s.heap) && Current(s, e) && e.kind == Interrupt(what)
    ensures var p := Pop(s, e);
            && Inv(cfg, OnInterrupt(p, what, d))
            && Progress(OnInterrupt(p, what, d).cell, e.ts) == Progress(p.cell, e.ts)
  {
    var p := Pop(s, e);
    CurrentEventOk(cfg, s, e);
    match what
    case FaultCut(code) => EnterFaultOk(cfg, p, code, None, d);
    case StarvedCut =>
      EnterOk(cfg, p, Starved, 0, AUTO_MODE, DefaultOrigin(Starved, 0));
      StopForOk(cfg, Enter(p, Starved, 0, AUTO_MODE, DefaultOrigin(Starved, 0)), d.flowS, StarvedStop);
    case BlockedCut =>
      EnterOk(cfg, p, Blocked, 0, AUTO_MODE, DefaultOrigin(Blocked, 0));
      StopForOk(cfg, Enter(p, Blocked, 0, AUTO_MODE, DefaultOrigin(Blocked, 0)), d.flowS, BlockedStop);
  }

  lemma StopEndOk(cfg: Config, s: Sim, e: Ev, stop: StopKind, d: Draws)
    requires ValidConfig(cfg) && ValidDraws(cfg, d)
    requires Inv(cfg, s) && IsFirst(e, s.heap) && Current(s, e) && e.kind == StopEnd(stop)
    ensures var p := Pop(s, e);
            && Inv(cfg, OnStopEnd(cfg, p, stop, d))
            && Progress(OnStopEnd(cfg, p, stop, d).cell, e.ts) == Progress(p.cell, e.ts)
  {
    CurrentEventOk(cfg, s, e);
    OnStopEndOk(cfg, Pop(s, e), stop, d, OnStopEnd(cfg, Pop(s, e), stop, d));
  }

  lemma FinishSetupOk(cfg: Config, p: Sim, capChange: bool, d: Draws, r: Sim)
    requires Base(cfg, p) && r == FinishSetup(p, capChange, d)
    ensures Base(cfg, r) && r.now == p.now && Progress(r.cell, r.now) == Progress(p.cell, p.now)
  {
  }

  lemma OnStopEndOk(cfg: Config, p: Sim, stop: StopKind, d: Draws, r: Sim)
    requires ValidConfig(cfg) && ValidDraws(cfg, d) && Base(cfg, p) && r == OnStopEnd(cfg, p, stop, d)
    ensures Inv(cfg, r) && Progress(r.cell, p.now) == Progress(p.cell, p.now)
  {
    if stop.FaultStop? && d.manual {
      var origin := OriginCode(StationOfFault(stop.code));
      EnterOk(cfg, p, Manual, 0, MANUAL_MODE, origin);
      StopForOk(cfg, Enter(p, Manual, 0, MANUAL_MODE, origin), d.manualS, ManualStop);
    } else {
      var mid := if stop.SetupStop? then FinishSetup(p, stop.capChange, d) else p;
      if stop.SetupStop? { FinishSetupOk(cfg, p, stop.capChange, d, mid); }
      assert r == Resume(cfg, mid, d);
      ResumeOk(cfg, mid, d);
    }
  }

  // ------------------------------------------------------------ breaks

  lemma OneBreakEvent(s: Sim, b: Ev, cal: Calendar)
    requires ValidSlot(cal, s.cell.breakWindow) && BreakEvents(s.heap) == {b} && IsBreak(b, s.cell, cal)
    requires s.cell.breakActive ==> StartOf(cal, s.cell.breakWindow) <= s.now
    ensures BreakOk(BreakEvents(s.heap), s.cell, cal, s.now)
  {
  }

  lemma TakeBreakOk(cfg: Config, s: Sim, r: Sim)
    requires ValidSlot(cfg.calendar, s.cell.breakWindow) && r == TakeBreak(cfg, s)
    requires StartOf(cfg.calendar, s.cell.breakWindow) <= s.now <= EndOf(cfg.calendar, s.cell.breakWindow)
    requires QueueOk(s.heap, s.now, s.nextOrder, s.cell.epoch) && PartOk(cfg, s.cell, s.now)
    requires BreakEvents(s.heap) == {}
    ensures Base(cfg, r) && r.now == s.now && r.cell == s.cell.(breakActive := true)
    ensures Live(r.heap, r.cell.epoch) == Live(s.heap, s.cell.epoch)
  {
    var mid, delay := s.(cell := s.cell.(breakActive := true)), EndOf(cfg.calendar, s.cell.breakWindow) - s.now;
    ScheduleOk(mid, delay, BreakEnd, None);
    OneBreakEvent(r, Ev(s.now + delay, s.nextOrder, None, BreakEnd), cfg.calendar);
  }

  /** The window in force gets its one break event, ahead of now. */
  lemma QueueBreakOk(cfg: Config, s: Sim, r: Sim)
    requires ValidSlot(cfg.calendar, s.cell.breakWindow) && !s.cell.breakActive && r == QueueBreak(cfg, s)
    requires EndOf(cfg.calendar, s.cell.breakWindow) > s.now && BreakEvents(s.heap) == {}
    requires QueueOk(s.heap, s.now, s.nextOrder, s.cell.epoch) && PartOk(cfg, s.cell, s.now)
    ensures Base(cfg, r) && r.now == s.now && r.cell == s.cell.(breakActive := r.cell.breakActive)
    ensures Live(r.heap, r.cell.epoch) == Live(s.heap, s.cell.epoch)
  {
    var start := StartOf(cfg.calendar, s.cell.breakWindow);
    if start <= s.now { TakeBreakOk(cfg, s, r); } else { AwaitBreakOk(cfg, s, start, start - s.now, r); }
  }

  lemma AwaitBreakOk(cfg: Config, s: Sim, start: real, delay: real, r: Sim)
    requires ValidSlot(cfg.calendar, s.cell.breakWindow) && !s.cell.breakActive
    requires start == StartOf(cfg.calendar, s.cell.breakWindow) && delay == start - s.now && delay >= 0.0
    requires BreakEvents(s.heap) == {} && PartOk(cfg, s.cell, s.now)
    requires QueueOk(s.heap, s.now, s.nextOrder, s.cell.epoch)
    requires r == Schedule(s, delay, BreakStart, None)
    ensures Base(cfg, r) && Live(r.heap, r.cell.epoch) == Live(s.heap, s.cell.epoch)
  {
    ScheduleOk(s, delay, BreakStart, None);
    OneBreakEvent(r, Ev(s.now + delay, s.nextOrder, None, BreakStart), cfg.calendar);
  }

  /** Arming past the current instant queues the one break event, ahead of now. */
  lemma ArmBreakOk(cfg: Config, s: Sim, after: real, r: Sim)
    requires ValidConfig(cfg) && s.now <= after && !s.cell.breakActive && r == ArmBreak(cfg, s, after)
    requires QueueOk(s.heap, s.now, s.nextOrder, s.cell.epoch) && PartOk(cfg, s.cell, s.now)
    requires BreakEvents(s.heap) == {}
    ensures Base(cfg, r) && r.now == s.now && Live(r.heap, r.cell.epoch) == Live(s.heap, s.cell.epoch)
    ensures r.cell == s.cell.(breakWindow := NextWindow(cfg.calendar, after), breakActive := r.cell.breakActive)
  {
    QueueBreakOk(cfg, s.(cell := s.cell.(breakWindow := NextWindow(cfg.calendar, after))), r);
  }

  lemma BreakEventPopped(cfg: Config, s: Sim, e: Ev)
    requires Inv(cfg, s) && IsFirst(e, s.heap) && OfBreak(e.kind)
    ensures var p := Pop(s, e);
            && QueueOk(p.heap, p.now, p.nextOrder, p.cell.epoch) && PartOk(cfg, p.cell, p.now)
            && BreakEvents(p.heap) == {} && ValidSlot(cfg.calendar, p.cell.breakWindow)
            && Live(p.heap, p.cell.epoch) == Live(s.heap, s.cell.epoch)
            && IsBreak(e, s.cell, cfg.calendar)
  {
    PopOk(cfg, s, e);
    assert e in BreakEvents(s.heap);
  }

  /** The cell goes on as it was, unless the break concerns it at once. */
  lemma TakeOver(cfg: Config, p: Sim, s: Sim, idle: bool, d: Draws, r: Sim)
    requires ValidConfig(cfg) && ValidDraws(cfg, d) && Base(cfg, s)
    requires Driven(Live(p.heap, p.cell.epoch), p.cell) && MaintenanceFirst(p.cell)
    requires Live(s.heap, s.cell.epoch) == Live(p.heap, p.cell.epoch) && s.now == p.now
    requires s.cell == p.cell.(breakWindow := s.cell.breakWindow, breakActive := s.cell.breakActive)
    requires p.cell.state.PlannedStop? ==> idle || s.cell.breakActive
    requires r == if idle then Resume(cfg, s, d) else s
    ensures Inv(cfg, r) && Progress(r.cell, p.now) == Progress(p.cell, p.now)
  {
    if idle {
      ResumeOk(cfg, s, d);
    } else {
      SameDriver(Live(p.heap, p.cell.epoch), p.cell, s.cell);
    }
  }

  lemma SameDriver(live: set<Ev>, c: Cell, d: Cell)
    requires Driven(live, c) && d == c.(breakWindow := d.breakWindow, breakActive := d.breakActive)
    requires c.state.PlannedStop? ==> d.breakActive
    ensures Driven(live, d)
  {
  }

  lemma OnBreakStartOk(cfg: Config, p: Sim, d: Draws, r: Sim)
    requires ValidConfig(cfg) && ValidDraws(cfg, d) && ValidSlot(cfg.calendar, p.cell.breakWindow)
    requires Driven(Live(p.heap, p.cell.epoch), p.cell) && MaintenanceFirst(p.cell)
    requires QueueOk(p.heap, p.now, p.nextOrder, p.cell.epoch) && PartOk(cfg, p.cell, p.now)
    requires BreakEvents(p.heap) == {} && p.now == StartOf(cfg.calendar, p.cell.breakWindow)
    requires r == OnBreakStart(cfg, p, d)
    ensures Inv(cfg, r) && Progress(r.cell, p.now) == Progress(p.cell, p.now)
  {
    var s1 := TakeBreak(cfg, p);
    TakeBreakOk(cfg, p, s1);
    TakeOver(cfg, p, s1, p.cell.state.Starved? || p.cell.state.Blocked?, d, r);
  }

  lemma BreakStartOk(cfg: Config, s: Sim, e: Ev, d: Draws)
    requires ValidConfig(cfg) && ValidDraws(cfg, d)
    requires Inv(cfg, s) && IsFirst(e, s.heap) && e.kind.BreakStart?
    ensures var p := Pop(s, e);
            && ValidSlot(cfg.calendar, p.cell.breakWindow)
            && Inv(cfg, OnBreakStart(cfg, p, d))
            && Progress(OnBreakStart(cfg, p, d).cell, e.ts) == Progress(p.cell, e.ts)
  {
    BreakEventPopped(cfg, s, e);
    OnBreakStartOk(cfg, Pop(s, e), d, OnBreakStart(cfg, Pop(s, e), d));
  }

  lemma LeaveBreakOk(cfg: Config, p: Sim, r: Sim)
    requires ValidConfig(cfg) && ValidSlot(cfg.calendar, p.cell.breakWindow) && r == LeaveBreak(cfg, p)
    requires QueueOk(p.heap, p.now, p.nextOrder, p.cell.epoch) && PartOk(cfg, p.cell, p.now)
    requires BreakEvents(p.heap) == {}
    ensures Base(cfg, r) && r.now == p.now && Live(r.heap, r.cell.epoch) == Live(p.heap, p.cell.epoch)
    ensures r.cell == p.cell.(breakWindow := r.cell.breakWindow, breakActive := r.cell.breakActive)
  {
    var after := RMax(p.now, EndOf(cfg.calendar, p.cell.breakWindow)) + 1.0;
    ArmBreakOk(cfg, p.(cell := p.cell.(breakActive := false)), after, r);
  }

  lemma OnBreakEndOk(cfg: Config, p: Sim, d: Draws, r: Sim)
    requires ValidConfig(cfg) && ValidDraws(cfg, d) && ValidSlot(cfg.calendar, p.cell.breakWindow)
    requires Driven(Live(p.heap, p.cell.epoch), p.cell) && MaintenanceFirst(p.cell)
    requires QueueOk(p.heap, p.now, p.nextOrder, p.cell.epoch) && PartOk(cfg, p.cell, p.now)
             && BreakEvents(p.heap) == {}
    requires r == OnBreakEnd(cfg, p, d)
    ensures Inv(cfg, r) && Progress(r.cell, p.now) == Progress(p.cell, p.now)
  {
    var s1 := LeaveBreak(cfg, p);
    LeaveBreakOk(cfg, p, s1);
    TakeOver(cfg, p, s1, p.cell.state.PlannedStop?, d, r);
  }

  lemma BreakEndOk(cfg: Config, s: Sim, e: Ev, d: Draws)
    requires ValidConfig(cfg) && ValidDraws(cfg, d)
    requires Inv(cfg, s) && IsFirst(e, s.heap) && e.kind.BreakEnd?
    ensures var p := Pop(s, e);
            && ValidSlot(cfg.calendar, p.cell.breakWindow)
            && Inv(cfg, OnBreakEnd(cfg, p, d))
            && Progress(OnBreakEnd(cfg, p, d).cell, e.ts) == Progress(p.cell, e.ts)
  {
    BreakEventPopped(cfg, s, e);
    OnBreakEndOk(cfg, Pop(s, e), d, OnBreakEnd(cfg, Pop(s, e), d));
  }

  // ------------------------------------------------------------ heartbeat and chaos

  lemma MultipleIsAhead(now: real, period: real)
    requires period > 0.0
    ensures NextMultiple(now, period) > now
  {
    var q := (now / period).Floor + 1;
    assert q as real > now / period;
    assert q as real * period > now / period * period;
    assert now / period * period == now;
  }

  /** Events that do not drive the cell leave its callbacks, its break and its part alone. */
  lemma BackgroundOk(cfg: Config, s: Sim, mid: Sim, delay: real, kind: Kind)
    requires Inv(cfg, s) && delay >= 0.0 && !DrivenByState(kind) && !OfBreak(kind)
    requires mid.heap == s.heap && mid.now == s.now && mid.nextOrder == s.nextOrder
    requires mid.cell == s.cell.(good := mid.cell.good, scrap := mid.cell.scrap,
                                 heartbeat := mid.cell.heartbeat, frozen := mid.cell.frozen)
    ensures Inv(cfg, Schedule(mid, delay, kind, None))
    ensures Progress(Schedule(mid, delay, kind, None).cell, s.now) == Progress(s.cell, s.now)
  {
    ScheduleOk(mid, delay, kind, None);
    var r := Schedule(mid, delay, kind, None);
    assert Live(r.heap, r.cell.epoch) == Live(s.heap, s.cell.epoch);
    assert BreakEvents(r.heap) == BreakEvents(s.heap);
    var b :| BreakEvents(s.heap) == {b} && IsBreak(b, s.cell, cfg.calendar);
    assert IsBreak(b, r.cell, cfg.calendar);
  }

  lemma HeartbeatOk(cfg: Config, p: Sim, r: Sim)
    requires Inv(cfg, p) && r == OnHeartbeat(p)
    ensures Inv(cfg, r) && Progress(r.cell, p.now) == Progress(p.cell, p.now)
  {
    var c := p.cell.(heartbeat := Masked(p.cell.heartbeat + 1));
    var mid := if p.cell.frozen then p else SetTag(p.(cell := c), Heartbeat, I(c.heartbeat));
    assert r == Schedule(mid, 1.0, HeartbeatTick, None);
    BackgroundOk(cfg, p, mid, 1.0, HeartbeatTick);
  }

  lemma FreezeStartOk(cfg: Config, p: Sim, r: Sim)
    requires ValidConfig(cfg) && Inv(cfg, p) && r == OnFreezeStart(cfg, p)
    ensures Inv(cfg, r) && Progress(r.cell, p.now) == Progress(p.cell, p.now)
  {
    if cfg.chaos.freeze.Some? {
      var delay, mid := cfg.chaos.freeze.value.duration, p.(cell := p.cell.(frozen := true));
      assert r == Schedule(mid, delay, FreezeEnd, None);
      BackgroundOk(cfg, p, mid, delay, FreezeEnd);
    }
  }

  lemma FreezeEndOk(cfg: Config, p: Sim, r: Sim)
    requires ValidConfig(cfg) && Inv(cfg, p) && r == OnFreezeEnd(cfg, p)
    ensures Inv(cfg, r) && Progress(r.cell, p.now) == Progress(p.cell, p.now)
  {
    if cfg.chaos.freeze.Some? {
      var every, mid := cfg.chaos.freeze.value.every, p.(cell := p.cell.(frozen := false));
      MultipleIsAhead(p.now, every);
      var delay := NextMultiple(p.now, every) - p.now;
      assert r == Schedule(mid, delay, FreezeStart, None);
      BackgroundOk(cfg, p, mid, delay, FreezeStart);
    }
  }

  lemma ResetOk(cfg: Config, p: Sim, r: Sim)
    requires ValidConfig(cfg) && Inv(cfg, p) && r == OnCounterReset(cfg, p)
    ensures Inv(cfg, r) && Progress(r.cell, p.now) == Progress(p.cell, p.now)
  {
    if cfg.chaos.resetEvery.Some? {
      var every := cfg.chaos.resetEvery.value;
      MultipleIsAhead(p.now, every);
      var delay := NextMultiple(p.now, every) - p.now;
      var s1 := SetCounters(p, 0, 0);
      var mid := SetTag(s1.(cell := s1.cell.(heartbeat := 0)), Heartbeat, I(0));
      assert r == Schedule(mid, delay, CounterReset, None);
      BackgroundOk(cfg, p, mid, delay, CounterReset);
    }
  }

  // ------------------------------------------------------------ one step

  /** Handling one event keeps the invariant; the work in hand shrinks by exactly a finished part. */
  lemma HandleOk(cfg: Config, s: Sim, e: Ev, d: Draws, p: Sim, r: Sim)
    requires ValidConfig(cfg) && ValidDraws(cfg, d) && Inv(cfg, s) && IsFirst(e, s.heap)
    requires p == Pop(s, e) && r == Handle(cfg, p, e, d)
    ensures Inv(cfg, r)
    ensures Progress(r.cell, e.ts) == Progress(p.cell, e.ts) - if Finishes(cfg, s, e) then s.cell.cycle else 0.0
  {
    if OfBreak(e.kind) {
      if e.kind.BreakStart? { BreakStartOk(cfg, s, e, d); } else { BreakEndOk(cfg, s, e, d); }
    } else if Current(s, e) {
      match e.kind
      case SlotEnd => SlotEndOk(cfg, s, e, d);
      case Interrupt(what) => OnInterruptOk(cfg, s, e, what, d);
      case StopEnd(stop) => StopEndOk(cfg, s, e, stop, d);
    } else {
      OtherEventOk(cfg, s, e);
      match e.kind
      case HeartbeatTick => HeartbeatOk(cfg, p, r);
      case FreezeStart => FreezeStartOk(cfg, p, r);
      case FreezeEnd => FreezeEndOk(cfg, p, r);
      case CounterReset => ResetOk(cfg, p, r);
      case _ =>
    }
  }
}
