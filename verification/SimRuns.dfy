/** Whole runs of the simulation: steps and forced faults, from any start. */
module SimRuns {
  import opened Basics
  import opened Facts
  import opened Shifts
  import opened Simulator
  import opened SimLaws
  import opened SimLog

  // ------------------------------------------------------------ starting

  lemma ScheduleNextOk(cfg: Config, s: Sim, kind: Kind, period: real, r: Sim)
    requires Inv(cfg, s) && period > 0.0 && !DrivenByState(kind) && !OfBreak(kind)
    requires r == ScheduleNext(s, kind, period)
    ensures Inv(cfg, r) && r.now == s.now && r.cell == s.cell
  {
    var delay := DelayIsAhead(s, kind, period, r);
    BackgroundOk(cfg, s, s, delay, kind);
  }

  lemma DelayIsAhead(s: Sim, kind: Kind, period: real, r: Sim) returns (delay: real)
    requires period > 0.0 && r == ScheduleNext(s, kind, period)
    ensures delay > 0.0 && r == Schedule(s, delay, kind, None)
  {
    MultipleIsAhead(s.now, period);
    delay := NextMultiple(s.now, period) - s.now;
  }

  lemma ArmChaosOk(cfg: Config, s: Sim, r: Sim)
    requires ValidConfig(cfg) && Inv(cfg, s) && r == ArmChaos(cfg, s)
    ensures Inv(cfg, r) && r.now == s.now && r.cell == s.cell
  {
    if cfg.chaos.enabled {
      var s1 := if cfg.chaos.freeze.Some? then ScheduleNext(s, FreezeStart, cfg.chaos.freeze.value.every) else s;
      if cfg.chaos.freeze.Some? { ScheduleNextOk(cfg, s, FreezeStart, cfg.chaos.freeze.value.every, s1); }
      if cfg.chaos.resetEvery.Some? { ScheduleNextOk(cfg, s1, CounterReset, cfg.chaos.resetEvery.value, r); }
    }
  }

  lemma CreatedOk(cfg: Config, startTs: real, kept: Retained, r: Sim)
    requires r == ApplyAtStart(cfg, Created(cfg, startTs, kept))
    ensures r.heap == {} && r.now == startTs
    ensures !r.cell.partActive && r.cell.slotEnd.None? && !r.cell.breakActive
  {
  }

  lemma StartCellOk(cfg: Config, s: Sim, d: Draws, r: Sim)
    requires ValidConfig(cfg) && ValidDraws(cfg, d)
    requires s.heap == {} && !s.cell.partActive && s.cell.slotEnd.None? && !s.cell.breakActive
    requires r == StartCell(cfg, s, d)
    ensures Inv(cfg, r) && r.now == s.now && Progress(r.cell, s.now) == 0.0
  {
    var s0 := Publish(s, StartWrites(cfg, s.cell));
    var s1 := Schedule(s0, 1.0, HeartbeatTick, None);
    ScheduleOk(s0, 1.0, HeartbeatTick, None);
    var s2 := ArmBreak(cfg, s1, s1.now);
    ArmBreakOk(cfg, s1, s1.now, s2);
    ResumeOk(cfg, s2, d);
  }

  lemma StartedOk(cfg: Config, s: Sim, d: Draws, r: Sim)
    requires ValidConfig(cfg) && ValidDraws(cfg, d)
    requires s.heap == {} && !s.cell.partActive && s.cell.slotEnd.None? && !s.cell.breakActive
    requires r == ArmChaos(cfg, StartCell(cfg, s, d))
    ensures Inv(cfg, r) && r.now == s.now && Progress(r.cell, r.now) == 0.0
  {
    var s1 := StartCell(cfg, s, d);
    StartCellOk(cfg, s, d, s1);
    ArmChaosOk(cfg, s1, r);
  }

  /** Every start, fresh or restored, inside a break or not. */
  lemma StartOk(cfg: Config, startTs: real, kept: Retained, d: Draws, r: Sim)
    requires ValidConfig(cfg) && ValidDraws(cfg, d) && r == Start(cfg, startTs, kept, d)
    ensures Inv(cfg, r) && r.now == startTs && Progress(r.cell, r.now) == 0.0
  {
    var s := ApplyAtStart(cfg, Created(cfg, startTs, kept));
    CreatedOk(cfg, startTs, kept, s);
    StartedOk(cfg, s, d, r);
  }

  // ------------------------------------------------------------ actions and runs

  /** The pacer's two ways of driving the engine. */
  datatype Action = Tick(d: Draws) | Force(code: int, duration: real, at: real, d: Draws)

  /** The forced faults that are refused or end: of an unknown code, or for a duration that is not
      negative and, where it is zero, has a configured one to fall back on. */
  predicate SafeForce(cfg: Config, code: int, duration: real) {
    StationOfFault(code).Some? ==> duration >= 0.0 && HasDuration(cfg, code, duration)
  }

  ghost predicate ValidAction(cfg: Config, a: Action) {
    ValidDraws(cfg, a.d) && (a.Force? ==> SafeForce(cfg, a.code, a.duration))
  }

  ghost predicate Sound(cfg: Config, s: Sim) { ValidConfig(cfg) && Inv(cfg, s) }

  /** One call; what it published is still pending. */
  ghost function Act(cfg: Config, s: Sim, a: Action): Sim
    requires Sound(cfg, s)
  {
    QueueNeverEmpty(cfg, s);
    match a
    case Tick(d) => Step(cfg, s, d)
    case Force(code, duration, at, d) => ForceFault(cfg, s, code, duration, at, d).0
  }

  ghost function Forcing(cfg: Config, s: Sim, code: int, duration: real, at: real, d: Draws): (Sim, Forced)
    requires Sound(cfg, s)
  {
    QueueNeverEmpty(cfg, s);
    ForceFault(cfg, s, code, duration, at, d)
  }

  /** `_drain`. */
  function Drained(s: Sim): Sim { s.(changes := []) }

  ghost function Next(cfg: Config, s: Sim, a: Action): Sim
    requires Sound(cfg, s)
  {
    Drained(Act(cfg, s, a))
  }

  /** The cycle of the part an action completes, if it completes one. */
  ghost function MadeBy(cfg: Config, s: Sim, a: Action): seq<real>
    requires Sound(cfg, s)
  {
    QueueNeverEmpty(cfg, s);
    if a.Tick? && Finishes(cfg, s, First(s.heap)) then [s.cell.cycle] else []
  }

  /** Time spent PRODUCING while the clock moves. */
  ghost function BusyDuring(cfg: Config, s: Sim, a: Action): real
    requires Sound(cfg, s)
  {
    if s.cell.state.Producing? then Act(cfg, s, a).now - s.now else 0.0
  }

  function Total(xs: seq<real>): real { if xs == [] then 0.0 else xs[0] + Total(xs[1..]) }

  /** One event: the invariant, the clock and the books. */
  lemma TickOk(cfg: Config, s: Sim, d: Draws, e: Ev, r: Sim)
    requires Sound(cfg, s) && ValidDraws(cfg, d)
    requires IsFirst(e, s.heap) && r == Handle(cfg, Pop(s, e), e, d)
    ensures Inv(cfg, r) && s.now <= r.now == e.ts
    ensures Progress(r.cell, r.now)
            == Progress(s.cell, s.now) + (if s.cell.state.Producing? then r.now - s.now else 0.0)
               - if Finishes(cfg, s, e) then s.cell.cycle else 0.0
  {
    PopOk(cfg, s, e);
    HandleOk(cfg, s, e, d, Pop(s, e), r);
    HandleTalks(cfg, Pop(s, e), e, d, r);
  }

  lemma AdvanceOk(cfg: Config, s: Sim, at: real)
    requires Sound(cfg, s) && forall e :: e in s.heap ==> at <= e.ts
    ensures var r := s.(now := RMax(s.now, at));
            && Inv(cfg, r) && s.now <= r.now
            && Progress(r.cell, r.now) == Progress(s.cell, s.now) + if s.cell.state.Producing? then r.now - s.now
                else 0.0
  {
    if s.cell.state.Producing? {
      var slot :| DrivesProduction(slot, Live(s.heap, s.cell.epoch), s.cell.slotEnd.value);
      assert slot in s.heap;
    }
  }

  lemma ForceOk(cfg: Config, s: Sim, code: int, duration: real, at: real, d: Draws, e: Ev, r: Sim)
    requires Sound(cfg, s) && ValidDraws(cfg, d) && SafeForce(cfg, code, duration)
    requires s.heap != {} && Numbered(s.heap) && e == First(s.heap) && r == ForceFault(cfg, s, code, duration, at, d).0
    ensures Inv(cfg, r) && s.now <= r.now
    ensures Progress(r.cell, r.now)
            == Progress(s.cell, s.now) + if s.cell.state.Producing? then r.now - s.now else 0.0
  {
    if e.ts > at {
      AdvanceOk(cfg, s, at);
      var s1 := s.(now := RMax(s.now, at));
      if duration >= 0.0 { EnterFaultOk(cfg, s1, code, Some(duration), d); }
    }
  }

  lemma ActOk(cfg: Config, s: Sim, a: Action, r: Sim)
    requires Sound(cfg, s) && ValidAction(cfg, a) && r == Act(cfg, s, a)
    ensures Inv(cfg, r) && s.now <= r.now
    ensures Progress(r.cell, r.now)
            == Progress(s.cell, s.now) + BusyDuring(cfg, s, a) - Total(MadeBy(cfg, s, a))
  {
    QueueNeverEmpty(cfg, s);
    var e := First(s.heap);
    match a
    case Tick(d) =>
      TickOk(cfg, s, d, e, r);
      assert Total([s.cell.cycle]) == s.cell.cycle + Total([]);
    case Force(code, duration, at, d) => ForceOk(cfg, s, code, duration, at, d, e, r);
  }

  ghost predicate ValidScript(cfg: Config, script: seq<Action>) {
    forall i :: 0 <= i < |script| ==> ValidAction(cfg, script[i])
  }

  lemma NextOk(cfg: Config, s: Sim, a: Action)
    requires Sound(cfg, s) && ValidAction(cfg, a)
    ensures Sound(cfg, Next(cfg, s, a))
  {
    ActOk(cfg, s, a, Act(cfg, s, a));
  }

  /** All but the last action, and the last one. */
  function Front(script: seq<Action>): seq<Action>
    requires script != []
  {
    script[..|script| - 1]
  }

  function Final(script: seq<Action>): Action
    requires script != []
  {
    script[|script| - 1]
  }

  lemma FrontOk(cfg: Config, script: seq<Action>)
    requires script != [] && ValidScript(cfg, script)
    ensures ValidScript(cfg, Front(script)) && ValidAction(cfg, Final(script))
  {
  }

  ghost function Run(cfg: Config, s: Sim, script: seq<Action>): (r: Sim)
    requires Sound(cfg, s) && ValidScript(cfg, script)
    ensures Sound(cfg, r)
    decreases |script|
  {
    if script == [] then s
    else
      FrontOk(cfg, script);
      var before := Run(cfg, s, Front(script));
      NextOk(cfg, before, Final(script));
      Next(cfg, before, Final(script))
  }

  ghost function Made(cfg: Config, s: Sim, script: seq<Action>): seq<real>
    requires Sound(cfg, s) && ValidScript(cfg, script)
    decreases |script|
  {
    if script == [] then []
    else
      FrontOk(cfg, script);
      Made(cfg, s, Front(script)) + MadeBy(cfg, Run(cfg, s, Front(script)), Final(script))
  }

  ghost function Busy(cfg: Config, s: Sim, script: seq<Action>): real
    requires Sound(cfg, s) && ValidScript(cfg, script)
    decreases |script|
  {
    if script == [] then 0.0
    else
      FrontOk(cfg, script);
      Busy(cfg, s, Front(script)) + BusyDuring(cfg, Run(cfg, s, Front(script)), Final(script))
  }

  // ------------------------------------------------------------ never stuck, never driven twice

  ghost predicate NothingPast(s: Sim) { forall e :: e in s.heap ==> s.now <= e.ts }

  ghost function CurrentSlotEnds(s: Sim): set<Ev> { set e | e in s.heap && Current(s, e) && e.kind.SlotEnd? }

  ghost function CurrentInterrupts(s: Sim): set<Ev> { set e | e in s.heap && Current(s, e) && e.kind.Interrupt? }

  ghost function CurrentStopEnds(s: Sim): set<Ev> { set e | e in s.heap && Current(s, e) && e.kind.StopEnd? }

  ghost predicate OneDriver(s: Sim) {
    match s.cell.state
    case Producing =>
      && |CurrentSlotEnds(s)| == 1 && |CurrentInterrupts(s)| <= 1 && |CurrentStopEnds(s)| == 0
      && forall e :: e in CurrentSlotEnds(s) ==> s.cell.slotEnd == Some(e.ts)
    case PlannedStop =>
      |CurrentSlotEnds(s)| == |CurrentInterrupts(s)| == |CurrentStopEnds(s)| == 0 && s.cell.breakActive
    case _ =>
      && |CurrentSlotEnds(s)| == |CurrentInterrupts(s)| == 0 && |CurrentStopEnds(s)| == 1
      && forall e :: e in CurrentStopEnds(s) ==> Ends(e.kind.stop, s.cell.state)
  }

  ghost predicate OneBreak(cfg: Config, s: Sim) {
    && ValidSlot(cfg.calendar, s.cell.breakWindow)
    && |BreakEvents(s.heap)| == 1
    && forall b :: b in BreakEvents(s.heap) ==> IsBreak(b, s.cell, cfg.calendar)
  }

  lemma SingletonSize(s: set<Ev>, e: Ev)
    requires s == {e}
    ensures |s| == 1
  {
  }

  lemma AtMostOne(s: set<Ev>)
    requires forall e, f :: e in s && f in s ==> e == f
    ensures |s| <= 1
  {
    EvsInhabited(s);
    if s != {} {
      var e :| e in s;
      SingletonSize(s, e);
    }
  }

  lemma ProducingIsDriven(s: Sim, slot: Ev)
    requires s.cell.state.Producing? && s.cell.slotEnd.Some?
    requires DrivesProduction(slot, Live(s.heap, s.cell.epoch), s.cell.slotEnd.value)
    ensures OneDriver(s)
  {
    var live := Live(s.heap, s.cell.epoch);
    assert forall e :: e in CurrentSlotEnds(s) || e in CurrentInterrupts(s) || e in CurrentStopEnds(s) ==> e in live;
    assert CurrentSlotEnds(s) == {slot};
    assert CurrentStopEnds(s) == {};
    AtMostOne(CurrentInterrupts(s));
  }

  lemma StopIsDriven(s: Sim, e: Ev)
    requires !s.cell.state.Producing? && !s.cell.state.PlannedStop?
    requires Live(s.heap, s.cell.epoch) == {e} && e.kind.StopEnd? && Ends(e.kind.stop, s.cell.state)
    ensures OneDriver(s)
  {
    var live := Live(s.heap, s.cell.epoch);
    assert forall f :: f in CurrentSlotEnds(s) || f in CurrentInterrupts(s) || f in CurrentStopEnds(s) ==> f in live;
    assert e in live;
    assert CurrentStopEnds(s) == {e};
    assert CurrentSlotEnds(s) == {} && CurrentInterrupts(s) == {};
  }

  lemma SoundIsDriven(cfg: Config, s: Sim)
    requires Sound(cfg, s)
    ensures NothingPast(s) && OneDriver(s) && OneBreak(cfg, s)
  {
    var live := Live(s.heap, s.cell.epoch);
    var b :| BreakEvents(s.heap) == {b} && IsBreak(b, s.cell, cfg.calendar);
    SingletonSize(BreakEvents(s.heap), b);
    match s.cell.state
    case Producing =>
      var slot :| DrivesProduction(slot, live, s.cell.slotEnd.value);
      ProducingIsDriven(s, slot);
    case PlannedStop =>
      assert forall e :: e in CurrentSlotEnds(s) || e in CurrentInterrupts(s) || e in CurrentStopEnds(s) ==> e in live;
      assert CurrentSlotEnds(s) == {} && CurrentInterrupts(s) == {} && CurrentStopEnds(s) == {};
    case _ =>
      var e :| live == {e} && e.kind.StopEnd? && Ends(e.kind.stop, s.cell.state);
      StopIsDriven(s, e);
  }

  /** From any start, over every run: nothing is queued in the past, every state is driven by exactly
      what must end it, and exactly one break event is queued. */
  lemma NeverStuckNeverDrivenTwice(cfg: Config, startTs: real, kept: Retained, d: Draws, s: Sim, script: seq<Action>)
    requires ValidConfig(cfg) && ValidDraws(cfg, d) && ValidScript(cfg, script)
    requires s == Drained(Start(cfg, startTs, kept, d))
    ensures Sound(cfg, s)
    ensures var r := Run(cfg, s, script); NothingPast(r) && OneDriver(r) && OneBreak(cfg, r)
  {
    StartOk(cfg, startTs, kept, d, Start(cfg, startTs, kept, d));
    SoundIsDriven(cfg, Run(cfg, s, script));
  }

  // ------------------------------------------------------------ working time is conserved

  lemma {:induction false} TotalAppend(a: seq<real>, b: seq<real>)
    ensures Total(a + b) == Total(a) + Total(b)
  {
    if a == [] {
      assert a + b == b;
    } else {
      assert (a + b)[0] == a[0] && (a + b)[1..] == a[1..] + b;
      TotalAppend(a[1..], b);
    }
  }

  /** Over every run, with any faults, stops, setups, breaks and forced faults: the time spent
      PRODUCING is exactly the cycles of the parts completed plus the progress of the part in hand. */
  lemma {:induction false} WorkIsConserved(cfg: Config, s: Sim, script: seq<Action>)
    requires Sound(cfg, s) && ValidScript(cfg, script)
    ensures Busy(cfg, s, script) + Progress(s.cell, s.now)
            == Total(Made(cfg, s, script)) + Progress(Run(cfg, s, script).cell, Run(cfg, s, script).now)
    decreases |script|
  {
    if script != [] {
      FrontOk(cfg, script);
      WorkIsConserved(cfg, s, Front(script));
      var t, a := Run(cfg, s, Front(script)), Final(script);
      ActOk(cfg, t, a, Act(cfg, t, a));
      TotalAppend(Made(cfg, s, Front(script)), MadeBy(cfg, t, a));
    }
  }

  lemma {:induction false} EveryCycleIsLong(cfg: Config, s: Sim, script: seq<Action>)
    requires Sound(cfg, s) && ValidScript(cfg, script)
    ensures forall i :: 0 <= i < |Made(cfg, s, script)| ==> Made(cfg, s, script)[i] > cfg.theoretical
    decreases |script|
  {
    if script != [] {
      FrontOk(cfg, script);
      EveryCycleIsLong(cfg, s, Front(script));
      LongCycle(cfg, Run(cfg, s, Front(script)), Final(script));
    }
  }

  lemma LongCycle(cfg: Config, s: Sim, a: Action)
    requires Sound(cfg, s) && ValidAction(cfg, a)
    ensures forall i :: 0 <= i < |MadeBy(cfg, s, a)| ==> MadeBy(cfg, s, a)[i] > cfg.theoretical
  {
    QueueNeverEmpty(cfg, s);
    var e := First(s.heap);
    if a.Tick? && Finishes(cfg, s, e) { FinishedPartIsWhole(cfg, s, e); }
  }

  lemma FinishedPartIsWhole(cfg: Config, s: Sim, e: Ev)
    requires Sound(cfg, s) && IsFirst(e, s.heap) && Finishes(cfg, s, e)
    ensures s.cell.partActive && s.cell.cycle > cfg.theoretical
  {
    CurrentEventOk(cfg, s, e);
  }

  /** n times x. */
  function Times(n: nat, x: real): real { if n == 0 then 0.0 else Times(n - 1, x) + x }

  lemma {:induction false} LongCyclesAddUp(xs: seq<real>, x: real)
    requires forall i :: 0 <= i < |xs| ==> xs[i] > x
    ensures Times(|xs|, x) <= Total(xs)
    decreases |xs|
  {
    if xs != [] { LongCyclesAddUp(xs[1..], x); }
  }

  lemma ProgressIsPositive(cfg: Config, s: Sim)
    requires Sound(cfg, s)
    ensures Progress(s.cell, s.now) >= 0.0
  {
    if s.cell.partActive { WorkIsPositive(s.cell.slotIdx, s.cell.slotLen); }
  }

  lemma {:induction false} WorkIsPositive(n: nat, slotLen: real)
    requires slotLen >= 0.0
    ensures Work(n, slotLen) >= 0.0
  {
    if n > 0 { WorkIsPositive(n - 1, slotLen); }
  }

  /** Performance never exceeds one: the parts of a run, at the theoretical cycle, fit in its PRODUCING
      time and the work the first part had already received. */
  lemma PartsFitInTime(cfg: Config, s: Sim, script: seq<Action>)
    requires Sound(cfg, s) && ValidScript(cfg, script)
    ensures Times(|Made(cfg, s, script)|, cfg.theoretical) <= Busy(cfg, s, script) + Progress(s.cell, s.now)
  {
    WorkIsConserved(cfg, s, script);
    EveryCycleIsLong(cfg, s, script);
    ProgressIsPositive(cfg, Run(cfg, s, script));
    LongCyclesAddUp(Made(cfg, s, script), cfg.theoretical);
  }

  // ------------------------------------------------------------ the published log

  /** What every call of the run returned, in order. */
  ghost function Log(cfg: Config, s: Sim, script: seq<Action>): seq<SimChange>
    requires Sound(cfg, s) && ValidScript(cfg, script)
    decreases |script|
  {
    if script == [] then []
    else
      FrontOk(cfg, script);
      Log(cfg, s, Front(script)) + Act(cfg, Run(cfg, s, Front(script)), Final(script)).changes
  }

  ghost predicate Chronological(cs: seq<SimChange>, lo: real, hi: real) {
    && (forall i :: 0 <= i < |cs| ==> lo <= cs[i].ts <= hi)
    && (forall i, j :: 0 <= i < j < |cs| ==> cs[i].ts <= cs[j].ts)
  }

  lemma ActTells(cfg: Config, s: Sim, a: Action, r: Sim)
    requires Sound(cfg, s) && ValidAction(cfg, a) && s.changes == [] && r == Act(cfg, s, a)
    ensures Tells(s.image, r)
  {
    QueueNeverEmpty(cfg, s);
    var e := First(s.heap);
    match a
    case Tick(d) =>
      HandleTalks(cfg, Pop(s, e), e, d, r);
      assert Tells(s.image, Pop(s, e));
    case Force(code, duration, at, d) => ForceTalks(cfg, s, code, duration, at, d, r);
  }

  /** Over every run, published times never go back, every change is a change, and a client that
      replays them holds exactly the current image. */
  lemma {:induction false} LogIsFaithful(cfg: Config, s: Sim, script: seq<Action>)
    requires Sound(cfg, s) && ValidScript(cfg, script) && s.changes == []
    ensures Chronological(Log(cfg, s, script), s.now, Run(cfg, s, script).now)
    ensures s.now <= Run(cfg, s, script).now
    ensures Replayed(s.image, Log(cfg, s, script)) == Run(cfg, s, script).image
    ensures Novel(s.image, Log(cfg, s, script))
    decreases |script|
  {
    if script != [] {
      FrontOk(cfg, script);
      LogIsFaithful(cfg, s, Front(script));
      var t, a, before := Run(cfg, s, Front(script)), Final(script), Log(cfg, s, Front(script));
      var r := Act(cfg, t, a);
      RunIsDrained(cfg, s, Front(script));
      ActOk(cfg, t, a, r);
      ActTells(cfg, t, a, r);
      ReplayAppend(s.image, before, r.changes);
      ChronologicalAppend(before, r.changes, s.now, t.now, r.now);
    }
  }

  lemma RunIsDrained(cfg: Config, s: Sim, script: seq<Action>)
    requires Sound(cfg, s) && ValidScript(cfg, script) && s.changes == []
    ensures Run(cfg, s, script).changes == []
  {
    if script != [] { FrontOk(cfg, script); }
  }

  lemma ChronologicalAppend(a: seq<SimChange>, b: seq<SimChange>, lo: real, mid: real, hi: real)
    requires lo <= mid <= hi && Chronological(a, lo, mid) && Stamped(b, hi)
    ensures Chronological(a + b, lo, hi)
  {
    var c := a + b;
    assert forall i :: 0 <= i < |c| ==> c[i] == if i < |a| then a[i] else b[i - |a|];
  }

  // ------------------------------------------------------------ what a handler may change

  ghost predicate CountsOne(c: Cell, d: Cell) {
    || (d.good == Masked(c.good + 1) && d.scrap == c.scrap)
    || (d.good == c.good && d.scrap == Masked(c.scrap + 1))
  }

  predicate SameCounts(c: Cell, d: Cell) { d.good == c.good && d.scrap == c.scrap }

  /** The part in hand, if any, was taken just now. */
  predicate Fresh(c: Cell, cycle: real) { c.partActive ==> c.cycle == cycle && c.state.Producing? }

  predicate SameBreak(c: Cell, d: Cell) { d.breakWindow == c.breakWindow }

  /** Counters alone, the part in hand kept or a new one taken. */
  predicate Follows(c: Cell, d: Cell, cycle: real) { SameCounts(c, d) && MayTake(c, d, cycle) }

  lemma AfterPartFollows(cfg: Config, s: Sim, d: Draws, r: Sim)
    requires cfg.points > 0 && r == AfterPart(cfg, s, d)
    ensures Follows(s.cell, r.cell, d.cycle) && SameBreak(s.cell, r.cell)
  {
    var mid := s.(cell := Noted(cfg, s.cell));
    assert r == if s.cell.weldNok >= cfg.nokLimit then EnterFault(mid, WELD_FAULT, None, d) else Resume(cfg, mid, d);
  }

  lemma SlotFollows(cfg: Config, s: Sim, d: Draws, r: Sim)
    requires cfg.points > 0 && r == OnSlotEnd(cfg, s, d)
    ensures if s.cell.slotIdx + 1 >= cfg.points
            then CountsOne(s.cell, r.cell) && Fresh(r.cell, d.cycle)
            else SameCounts(s.cell, r.cell) && SamePart(s.cell, r.cell)
    ensures SameBreak(s.cell, r.cell)
  {
    var s1 := WeldPoint(s, d);
    if s1.cell.slotIdx >= cfg.points { AfterPartFollows(cfg, CountPart(s1, d), d, r); }
  }

  lemma StopFollows(cfg: Config, s: Sim, stop: StopKind, d: Draws, r: Sim)
    requires cfg.points > 0 && r == OnStopEnd(cfg, s, stop, d)
    ensures Follows(s.cell, r.cell, d.cycle) && SameBreak(s.cell, r.cell)
  {
    if !(stop.FaultStop? && d.manual) {
      var mid := if stop.SetupStop? then FinishSetup(s, stop.capChange, d) else s;
      assert r == Resume(cfg, mid, d);
    }
  }

  lemma InterruptFollows(s: Sim, what: Cut, d: Draws, r: Sim)
    requires r == OnInterrupt(s, what, d)
    ensures Follows(s.cell, r.cell, d.cycle) && SameBreak(s.cell, r.cell)
  {
  }

  lemma BreakStartFollows(cfg: Config, s: Sim, d: Draws, r: Sim)
    requires ValidConfig(cfg) && ValidSlot(cfg.calendar, s.cell.breakWindow) && r == OnBreakStart(cfg, s, d)
    ensures Follows(s.cell, r.cell, d.cycle) && SameBreak(s.cell, r.cell)
  {
    var s1 := TakeBreak(cfg, s);
    assert r == if s.cell.state.Starved? || s.cell.state.Blocked? then Resume(cfg, s1, d) else s1;
  }

  lemma ArmedCell(cfg: Config, s: Sim, after: real, r: Sim)
    requires ValidConfig(cfg) && ValidSlot(cfg.calendar, s.cell.breakWindow) && r == LeaveBreak(cfg, s)
    requires after == RMax(s.now, EndOf(cfg.calendar, s.cell.breakWindow)) + 1.0
    ensures r.cell == s.cell.(breakWindow := NextWindow(cfg.calendar, after), breakActive := r.cell.breakActive)
  {
  }

  lemma BreakEndFollows(cfg: Config, s: Sim, d: Draws, r: Sim, after: real)
    requires ValidConfig(cfg) && ValidSlot(cfg.calendar, s.cell.breakWindow) && r == OnBreakEnd(cfg, s, d)
    requires after == RMax(s.now, EndOf(cfg.calendar, s.cell.breakWindow)) + 1.0
    ensures Follows(s.cell, r.cell, d.cycle) && r.cell.breakWindow == NextWindow(cfg.calendar, after)
  {
    var mid := LeaveBreak(cfg, s);
    ArmedCell(cfg, s, after, mid);
    assert r == if s.cell.state.PlannedStop? then Resume(cfg, mid, d) else mid;
  }

  /** Heartbeat and chaos touch the counters at most, and never the epoch. */
  lemma HostFollows(cfg: Config, s: Sim, r: Sim)
    requires ValidConfig(cfg)
    requires r == OnHeartbeat(s) || r == OnFreezeStart(cfg, s) || r == OnFreezeEnd(cfg, s)
    ensures SameCounts(s.cell, r.cell) && SamePart(s.cell, r.cell)
    ensures SameBreak(s.cell, r.cell) && r.cell.epoch == s.cell.epoch
  {
  }

  lemma ResetFollows(cfg: Config, s: Sim, r: Sim)
    requires ValidConfig(cfg) && r == OnCounterReset(cfg, s)
    ensures SamePart(s.cell, r.cell)
    ensures SameBreak(s.cell, r.cell) && r.cell.epoch == s.cell.epoch
  {
  }

  /** Every handler at once. */
  lemma HandleFollows(cfg: Config, s: Sim, e: Ev, d: Draws, r: Sim)
    requires ValidConfig(cfg) && ValidSlot(cfg.calendar, s.cell.breakWindow) && r == Handle(cfg, s, e, d)
    requires e.epoch.Some? <==> DrivenByState(e.kind)
    ensures if Finishes(cfg, s, e) then CountsOne(s.cell, r.cell) && Fresh(r.cell, d.cycle)
            else MayTake(s.cell, r.cell, d.cycle) && (!e.kind.CounterReset? ==> SameCounts(s.cell, r.cell))
    ensures !e.kind.BreakEnd? ==> SameBreak(s.cell, r.cell)
    ensures !OfBreak(e.kind) && !Current(s, e) ==> r.cell.epoch == s.cell.epoch
  {
    if DrivenByState(e.kind) && !Current(s, e) {
      assert r == s;
    } else {
      match e.kind
      case SlotEnd => SlotFollows(cfg, s, d, r);
      case Interrupt(what) => InterruptFollows(s, what, d, r);
      case StopEnd(stop) => StopFollows(cfg, s, stop, d, r);
      case BreakStart => BreakStartFollows(cfg, s, d, r);
      case BreakEnd => BreakEndFollows(cfg, s, d, r, RMax(s.now, EndOf(cfg.calendar, s.cell.breakWindow)) + 1.0);
      case CounterReset => ResetFollows(cfg, s, r);
      case _ => HostFollows(cfg, s, r);
    }
  }

  // ------------------------------------------------------------ parts and counters

  ghost predicate Counted(c: Cell, d: Cell, made: seq<real>) {
    if made != [] then |made| == 1 && CountsOne(c, d) else SameCounts(c, d)
  }

  /** The event `step` would take. */
  ghost function Due(cfg: Config, s: Sim): (e: Ev)
    requires Sound(cfg, s)
    ensures IsFirst(e, s.heap)
  {
    QueueNeverEmpty(cfg, s);
    First(s.heap)
  }

  ghost predicate IsReset(cfg: Config, s: Sim, a: Action)
    requires Sound(cfg, s)
  {
    a.Tick? && Due(cfg, s).kind.CounterReset?
  }

  /** Each completed part moves exactly one counter by one; nothing else but a reset moves them. */
  lemma PartsAreCounted(cfg: Config, s: Sim, a: Action, r: Sim)
    requires Sound(cfg, s) && ValidAction(cfg, a) && r == Act(cfg, s, a) && !IsReset(cfg, s, a)
    ensures Counted(s.cell, r.cell, MadeBy(cfg, s, a))
  {
    QueueNeverEmpty(cfg, s);
    if a.Tick? { HandleFollows(cfg, Pop(s, First(s.heap)), First(s.heap), a.d, r); }
  }

  /** No action of the run is a chaos reset of the counters. */
  ghost predicate NoReset(cfg: Config, s: Sim, script: seq<Action>)
    requires Sound(cfg, s) && ValidScript(cfg, script)
    decreases |script|
  {
    if script == [] then true
    else
      FrontOk(cfg, script);
      NoReset(cfg, s, Front(script)) && !IsReset(cfg, Run(cfg, s, Front(script)), Final(script))
  }

  function Parts(c: Cell): nat { c.good + c.scrap }

  ghost predicate Wrapped(c: Cell, d: Cell, n: nat, k: nat) { Parts(d) + k * 0x1_0000_0000 == Parts(c) + n }

  /** d's counters are c's after n parts, each wrap losing 2^32. */
  ghost predicate CountersMoved(c: Cell, d: Cell, n: nat) { exists k: nat :: Wrapped(c, d, n, k) }

  lemma OneMore(c: Cell, d: Cell, e: Cell, before: nat, made: seq<real>, after: nat)
    requires CountersMoved(c, d, before) && Counted(d, e, made) && after == before + |made|
    ensures CountersMoved(c, e, after)
  {
    var k: nat :| Wrapped(c, d, before, k);
    var x := if e.scrap == d.scrap && e.good == Masked(d.good + 1) then d.good + 1 else d.scrap + 1;
    var wraps := if made == [] then 0 else x / 0x1_0000_0000;
    assert Wrapped(c, e, after, k + wraps);
  }

  lemma CountersMove(cfg: Config, c: Cell, before: nat, s: Sim, a: Action, next: Sim, after: nat)
    requires Sound(cfg, s) && ValidAction(cfg, a) && !IsReset(cfg, s, a) && next == Next(cfg, s, a)
    requires CountersMoved(c, s.cell, before) && after == before + |MadeBy(cfg, s, a)|
    ensures CountersMoved(c, next.cell, after)
  {
    PartsAreCounted(cfg, s, a, Act(cfg, s, a));
    OneMore(c, s.cell, next.cell, before, MadeBy(cfg, s, a), after);
  }

  /** Over every run: the two counters together advance by the number of parts completed, up to wraps. */
  lemma {:induction false} CountersAgree(cfg: Config, s: Sim, script: seq<Action>)
    requires Sound(cfg, s) && ValidScript(cfg, script) && NoReset(cfg, s, script)
    ensures CountersMoved(s.cell, Run(cfg, s, script).cell, |Made(cfg, s, script)|)
    decreases |script|
  {
    if script == [] {
      assert Wrapped(s.cell, s.cell, 0, 0);
    } else {
      FrontOk(cfg, script);
      CountersAgree(cfg, s, Front(script));
      var t, a := Run(cfg, s, Front(script)), Final(script);
      CountersMove(cfg, s.cell, |Made(cfg, s, Front(script))|, t, a, Next(cfg, t, a), |Made(cfg, s, script)|);
    }
  }

  // ------------------------------------------------------------ every part drawn is made, once

  /** The cycle drawn for the part an action starts, if it starts one. */
  ghost function TakenBy(cfg: Config, s: Sim, a: Action): seq<real>
    requires Sound(cfg, s)
  {
    if Act(cfg, s, a).cell.partActive && (!s.cell.partActive || MadeBy(cfg, s, a) != []) then [a.d.cycle] else []
  }

  function InHand(c: Cell): seq<real> { if c.partActive then [c.cycle] else [] }

  lemma ActTakes(cfg: Config, s: Sim, a: Action, r: Sim)
    requires Sound(cfg, s) && ValidAction(cfg, a) && r == Act(cfg, s, a)
    ensures if MadeBy(cfg, s, a) != [] then s.cell.partActive && Fresh(r.cell, a.d.cycle)
            else MayTake(s.cell, r.cell, a.d.cycle)
  {
    QueueNeverEmpty(cfg, s);
    if a.Tick? {
      var e := First(s.heap);
      if Finishes(cfg, s, e) { FinishedPartIsWhole(cfg, s, e); }
      HandleFollows(cfg, Pop(s, e), e, a.d, r);
    }
  }

  /** One action: what was in hand and what is drawn is what is made and what is in hand. */
  lemma PartsInOrder(cfg: Config, s: Sim, a: Action, r: Sim)
    requires Sound(cfg, s) && ValidAction(cfg, a) && r == Act(cfg, s, a)
    ensures InHand(s.cell) + TakenBy(cfg, s, a) == MadeBy(cfg, s, a) + InHand(r.cell)
  {
    ActTakes(cfg, s, a, r);
  }

  ghost function Taken(cfg: Config, s: Sim, script: seq<Action>): seq<real>
    requires Sound(cfg, s) && ValidScript(cfg, script)
    decreases |script|
  {
    if script == [] then []
    else
      FrontOk(cfg, script);
      Taken(cfg, s, Front(script)) + TakenBy(cfg, Run(cfg, s, Front(script)), Final(script))
  }

  lemma Exchange(hand: seq<real>, drawn: seq<real>, made: seq<real>, mid: seq<real>, one: seq<real>, done: seq<real>,
                 last: seq<real>)
    requires hand + drawn == made + mid && mid + one == done + last
    ensures hand + (drawn + one) == (made + done) + last
  {
    calc {
      hand + (drawn + one);
      (hand + drawn) + one;
      (made + mid) + one;
      made + (mid + one);
      made + (done + last);
      (made + done) + last;
    }
  }

  /** Over every run: the cycles drawn, after the part in hand at the start, are exactly the cycles
      completed followed by the part in hand at the end: none lost, repeated, reordered or shortened. */
  lemma {:induction false} EveryPartIsMadeOnce(cfg: Config, s: Sim, script: seq<Action>)
    requires Sound(cfg, s) && ValidScript(cfg, script)
    ensures InHand(s.cell) + Taken(cfg, s, script) == Made(cfg, s, script) + InHand(Run(cfg, s, script).cell)
    decreases |script|
  {
    if script != [] {
      FrontOk(cfg, script);
      EveryPartIsMadeOnce(cfg, s, Front(script));
      var t, a := Run(cfg, s, Front(script)), Final(script);
      PartsInOrder(cfg, t, a, Act(cfg, t, a));
      Exchange(InHand(s.cell), Taken(cfg, s, Front(script)), Made(cfg, s, Front(script)), InHand(t.cell),
               TakenBy(cfg, t, a), MadeBy(cfg, t, a), InHand(Next(cfg, t, a).cell));
    }
  }

  // ------------------------------------------------------------ planned breaks

  /** A planned stop is only ever inside its window. */
  lemma PlannedStopIsInWindow(cfg: Config, s: Sim)
    requires Sound(cfg, s) && s.cell.state.PlannedStop?
    ensures s.cell.breakActive
    ensures StartOf(cfg.calendar, s.cell.breakWindow) <= s.now <= EndOf(cfg.calendar, s.cell.breakWindow)
  {
    var b :| BreakEvents(s.heap) == {b} && IsBreak(b, s.cell, cfg.calendar);
    assert b in BreakEvents(s.heap);
  }

  /** It is left only by its window's end, at that very instant. */
  lemma PlannedStopEndsOnTime(cfg: Config, s: Sim, a: Action, r: Sim)
    requires Sound(cfg, s) && ValidAction(cfg, a) && r == Act(cfg, s, a)
    requires s.cell.state.PlannedStop? && r.cell.epoch != s.cell.epoch
    ensures a.Tick? && Due(cfg, s).kind.BreakEnd? && r.now == EndOf(cfg.calendar, s.cell.breakWindow)
  {
    var e := Due(cfg, s);
    QueueNeverEmpty(cfg, s);
    assert e in s.heap;
    assert Current(s, e) ==> e in Live(s.heap, s.cell.epoch);
    if a.Tick? {
      if OfBreak(e.kind) {
        BreakEventPopped(cfg, s, e);
        HandleTalks(cfg, Pop(s, e), e, a.d, r);
      } else {
        assert First(s.heap) == e;
        HandleFollows(cfg, Pop(s, e), e, a.d, r);
      }
    }
  }

  // ------------------------------------------------------------ every window is armed, in order

  lemma AtBreakEnd(cfg: Config, s: Sim, e: Ev, d: Draws, r: Sim)
    requires Sound(cfg, s) && IsFirst(e, s.heap) && e.kind.BreakEnd?
    requires r == Handle(cfg, Pop(s, e), e, d)
    ensures r.now == EndOf(cfg.calendar, s.cell.breakWindow)
    ensures RollsOver(cfg.calendar, s.cell.breakWindow, r.cell.breakWindow)
  {
    BreakEventPopped(cfg, s, e);
    HandleTalks(cfg, Pop(s, e), e, d, r);
    BreakEndFollows(cfg, Pop(s, e), d, r, e.ts + 1.0);
    NextRollsOver(cfg.calendar, s.cell.breakWindow, e.ts + 1.0, r.cell.breakWindow);
  }

  lemma NextRollsOver(cal: Calendar, w: Slot, after: real, next: Slot)
    requires ValidCalendar(cal) && ValidSlot(cal, w) && after == EndOf(cal, w) + 1.0 && next == NextWindow(cal, after)
    ensures RollsOver(cal, w, next)
  {
    ArmingIsNext(cal, w);
  }

  /** From one window to a later one: the very next exactly where the calendar leaves it a second and the
      search still looks at it. */
  ghost predicate RollsOver(cal: Calendar, before: Slot, after: Slot)
    requires ValidCalendar(cal) && ValidSlot(cal, before)
  {
    Earlier(before, after) && (after == Succ(cal, before) <==> Followed(cal, before))
  }

  /** The window in force changes only at its own end, and rolls over. */
  lemma WindowsFollow(cfg: Config, s: Sim, a: Action, r: Sim)
    requires Sound(cfg, s) && ValidAction(cfg, a) && r == Act(cfg, s, a)
    ensures var before, after := s.cell.breakWindow, r.cell.breakWindow;
            if a.Tick? && Due(cfg, s).kind.BreakEnd?
            then r.now == EndOf(cfg.calendar, before) && RollsOver(cfg.calendar, before, after)
            else after == before
  {
    var e := Due(cfg, s);
    QueueNeverEmpty(cfg, s);
    if a.Tick? {
      assert e == First(s.heap);
      if e.kind.BreakEnd? {
        AtBreakEnd(cfg, s, e, a.d, r);
      } else {
        HandleFollows(cfg, Pop(s, e), e, a.d, r);
      }
    }
  }

  function SuccN(cal: Calendar, w: Slot, n: nat): Slot
    decreases n
  {
    if n == 0 then w else Succ(cal, SuccN(cal, w, n - 1))
  }

  ghost predicate EndsBreak(cfg: Config, s: Sim, a: Action)
    requires Sound(cfg, s)
  {
    a.Tick? && Due(cfg, s).kind.BreakEnd?
  }

  /** How many breaks end during a run. */
  ghost function BreakEnds(cfg: Config, s: Sim, script: seq<Action>): nat
    requires Sound(cfg, s) && ValidScript(cfg, script)
    decreases |script|
  {
    if script == [] then 0
    else
      FrontOk(cfg, script);
      BreakEnds(cfg, s, Front(script)) + if EndsBreak(cfg, Run(cfg, s, Front(script)), Final(script)) then 1 else 0
  }

  lemma SuccNIsValid(cal: Calendar, w: Slot, n: nat)
    requires ValidCalendar(cal) && ValidSlot(cal, w)
    ensures ValidSlot(cal, SuccN(cal, w, n))
  {
  }

  /** The first n windows from w on are followed by the very next ones. */
  ghost predicate FollowedFor(cal: Calendar, w: Slot, n: nat)
    requires ValidCalendar(cal) && ValidSlot(cal, w)
    decreases n
  {
    if n == 0 then true
    else
      SuccNIsValid(cal, w, n - 1);
      FollowedFor(cal, w, n - 1) && Followed(cal, SuccN(cal, w, n - 1))
  }

  /** Over every run, after n breaks the window armed is the n-th after the first, as long as the calendar
      lets each of them be followed: none is skipped, none comes twice. */
  lemma {:induction false} BreaksNeverSkipped(cfg: Config, s: Sim, script: seq<Action>)
    requires Sound(cfg, s) && ValidScript(cfg, script)
    ensures FollowedFor(cfg.calendar, s.cell.breakWindow, BreakEnds(cfg, s, script)) ==>
              Run(cfg, s, script).cell.breakWindow
              == SuccN(cfg.calendar, s.cell.breakWindow, BreakEnds(cfg, s, script))
    decreases |script|
  {
    if script != [] {
      FrontOk(cfg, script);
      BreaksNeverSkipped(cfg, s, Front(script));
      var t, a := Run(cfg, s, Front(script)), Final(script);
      WindowsFollow(cfg, t, a, Act(cfg, t, a));
      CountBreak(cfg.calendar, s.cell.breakWindow, BreakEnds(cfg, s, Front(script)), BreakEnds(cfg, s, script),
                 t.cell.breakWindow, Next(cfg, t, a).cell.breakWindow);
    }
  }

  /** Breaks that start at whole minutes and end in time always are. */
  lemma {:induction false} WholeMinutesFollowForever(cal: Calendar, minutes: seq<int>, w: Slot, n: nat)
    requires ValidCalendar(cal) && EndsInTime(cal) && ValidSlot(cal, w)
    requires |minutes| == |cal.starts| && forall i :: 0 <= i < |minutes| ==> cal.starts[i] == minutes[i] as real * 60.0
    ensures FollowedFor(cal, w, n)
    decreases n
  {
    if n > 0 {
      WholeMinutesFollowForever(cal, minutes, w, n - 1);
      SuccNIsValid(cal, w, n - 1);
      WholeMinutesFollow(cal, minutes, SuccN(cal, w, n - 1));
    }
  }

  lemma CountBreak(cal: Calendar, first: Slot, k: nat, n: nat, before: Slot, after: Slot)
    requires ValidCalendar(cal) && ValidSlot(cal, first) && ValidSlot(cal, before)
    requires FollowedFor(cal, first, k) ==> before == SuccN(cal, first, k)
    requires (n == k && after == before) || (n == k + 1 && RollsOver(cal, before, after))
    ensures FollowedFor(cal, first, n) ==> after == SuccN(cal, first, n)
  {
  }

  // ------------------------------------------------------------ forced faults

  /** Only a known code, while producing and with nothing due, gets through. */
  ghost predicate GetsThrough(cfg: Config, s: Sim, code: int, at: real)
    requires Sound(cfg, s)
  {
    at < Due(cfg, s).ts && s.cell.state.Producing? && StationOfFault(code).Some?
  }

  lemma RefusedIsSafe(cfg: Config, s: Sim, code: int, duration: real, at: real, d: Draws)
    requires Sound(cfg, s) && !GetsThrough(cfg, s, code, at)
    ensures Sound(cfg, Forcing(cfg, s, code, duration, at, d).0)
    ensures Forcing(cfg, s, code, duration, at, d).1 == Refused
  {
    QueueNeverEmpty(cfg, s);
    if Due(cfg, s).ts > at { AdvanceOk(cfg, s, at); }
  }

  /** A negative duration queues the end of the fault in the past. */
  lemma NegativeIsPast(cfg: Config, s: Sim, code: int, duration: real, at: real, d: Draws)
    requires Sound(cfg, s) && GetsThrough(cfg, s, code, at) && duration < 0.0
    ensures !NothingPast(Forcing(cfg, s, code, duration, at, d).0)
  {
    QueueNeverEmpty(cfg, s);
    var r := Forcing(cfg, s, code, duration, at, d).0;
    var s1 := s.(now := RMax(s.now, at));
    var s2 := Enter(s1, Fault, code, AUTO_MODE, DefaultOrigin(Fault, code));
    var e := Ev(s1.now + duration, s2.nextOrder, Some(s2.cell.epoch), StopEnd(FaultStop(code)));
    assert e in r.heap && e.ts < r.now;
  }

  /** Without a duration the call raises too late: the cell is in a fault that nothing will end. */
  lemma RaisesTooLate(cfg: Config, s: Sim, code: int, duration: real, at: real, d: Draws)
    requires Sound(cfg, s) && GetsThrough(cfg, s, code, at) && !HasDuration(cfg, code, duration)
    ensures var (r, how) := Forcing(cfg, s, code, duration, at, d);
            how == KeyError && r.cell.state.Fault? && CurrentStopEnds(r) == {} && !OneDriver(r)
  {
    QueueNeverEmpty(cfg, s);
    AdvanceOk(cfg, s, at);
    var s1 := s.(now := RMax(s.now, at));
    EnterOk(cfg, s1, Fault, code, AUTO_MODE, DefaultOrigin(Fault, code));
    var r := Enter(s1, Fault, code, AUTO_MODE, DefaultOrigin(Fault, code));
    assert forall e :: e in CurrentStopEnds(r) ==> e in Live(r.heap, r.cell.epoch);
    assert CurrentStopEnds(r) == {};
  }

  /** A forced fault leaves a sound state exactly when it is refused, or has a duration and that is not
      negative. */
  lemma ForcedFaultIsSafeIff(cfg: Config, s: Sim, code: int, duration: real, at: real, d: Draws)
    requires Sound(cfg, s) && ValidDraws(cfg, d)
    ensures Sound(cfg, Forcing(cfg, s, code, duration, at, d).0)
            <==> !GetsThrough(cfg, s, code, at) || (duration >= 0.0 && HasDuration(cfg, code, duration))
  {
    QueueNeverEmpty(cfg, s);
    var r := Forcing(cfg, s, code, duration, at, d).0;
    if !GetsThrough(cfg, s, code, at) {
      RefusedIsSafe(cfg, s, code, duration, at, d);
    } else if SafeForce(cfg, code, duration) {
      ForceOk(cfg, s, code, duration, at, d, First(s.heap), r);
    } else {
      if duration < 0.0 { NegativeIsPast(cfg, s, code, duration, at, d); } else {
        RaisesTooLate(cfg, s, code, duration, at, d);
      }
      if Sound(cfg, r) { SoundIsDriven(cfg, r); }
    }
  }

  /** The trigger file "202 -1", while producing: an event is left in the past. */
  lemma ForcedForMinusOne(cfg: Config, s: Sim, at: real, d: Draws)
    requires Sound(cfg, s) && ValidDraws(cfg, d) && s.cell.state.Producing? && at < Due(cfg, s).ts
    ensures Forcing(cfg, s, 202, -1.0, at, d).1 == Started
    ensures !NothingPast(Forcing(cfg, s, 202, -1.0, at, d).0) && !Sound(cfg, Forcing(cfg, s, 202, -1.0, at, d).0)
  {
    NegativeIsPast(cfg, s, 202, -1.0, at, d);
    ForcedFaultIsSafeIff(cfg, s, 202, -1.0, at, d);
  }

  /** The trigger file "900 0", while producing and with 900 not configured: the cell is stuck. */
  lemma ForcedWithoutDuration(cfg: Config, s: Sim, at: real, d: Draws)
    requires Sound(cfg, s) && ValidDraws(cfg, d) && s.cell.state.Producing? && at < Due(cfg, s).ts
    requires 900 !in cfg.faults
    ensures var (r, how) := Forcing(cfg, s, 900, 0.0, at, d);
            how == KeyError && r.cell.state.Fault? && CurrentStopEnds(r) == {} && !Sound(cfg, r)
  {
    RaisesTooLate(cfg, s, 900, 0.0, at, d);
    ForcedFaultIsSafeIff(cfg, s, 900, 0.0, at, d);
  }
}
