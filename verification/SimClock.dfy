/** What runs beside the cell over whole runs: the heartbeat, its freezes and the chaos resets of the counters. */
module SimClock {
  import opened Basics
  import opened Facts
  import opened Shifts
  import opened Simulator
  import opened SimLaws
  import opened SimLog
  import opened SimRuns
  import opened Wear
  import opened SimStops

  predicate Side(k: Kind) { !DrivenByState(k) && !OfBreak(k) }

  /** The queued events of the heartbeat, of its freezes and of the resets. */
  ghost function Beats(heap: set<Ev>): set<Ev> { set e | e in heap && e.kind.HeartbeatTick? }

  ghost function Freezes(heap: set<Ev>): set<Ev> { set e | e in heap && (e.kind.FreezeStart? || e.kind.FreezeEnd?) }

  ghost function Resets(heap: set<Ev>): set<Ev> { set e | e in heap && e.kind.CounterReset? }

  predicate IsMultiple(t: real, period: real)
    requires period > 0.0
  {
    (t / period).Floor as real * period == t
  }

  /** Exactly one beat is queued, at this time. */
  ghost predicate BeatAt(s: Sim, at: real) { exists e :: Beats(s.heap) == {e} && e.ts == at }

  /** Where freezes are configured exactly one of their events is queued, the end of one exactly while the heartbeat
      is frozen; elsewhere there is none and it never is. */
  ghost predicate FreezeQueued(cfg: Config, s: Sim) {
    if cfg.chaos.enabled && cfg.chaos.freeze.Some?
    then exists e :: Freezes(s.heap) == {e} && (e.kind.FreezeEnd? <==> s.cell.frozen)
    else Freezes(s.heap) == {} && !s.cell.frozen
  }

  /** Where resets are configured exactly one is queued, at a multiple of their period. */
  ghost predicate ResetQueued(cfg: Config, s: Sim)
    requires ValidConfig(cfg)
  {
    if cfg.chaos.enabled && cfg.chaos.resetEvery.Some?
    then exists e :: Resets(s.heap) == {e} && IsMultiple(e.ts, cfg.chaos.resetEvery.value)
    else Resets(s.heap) == {}
  }

  // ------------------------------------------------------------ the cell leaves them alone

  ghost predicate SidesKept(s: Sim, r: Sim) {
    && (forall e: Ev :: Side(e.kind) ==> (e in r.heap <==> e in s.heap))
    && r.cell.frozen == s.cell.frozen && r.cell.heartbeat == s.cell.heartbeat
  }

  lemma KeptSets(s: Sim, r: Sim)
    requires SidesKept(s, r)
    ensures Beats(r.heap) == Beats(s.heap) && Freezes(r.heap) == Freezes(s.heap) && Resets(r.heap) == Resets(s.heap)
  {
    forall e: Ev | Side(e.kind) ensures e in r.heap <==> e in s.heap {}
  }

  lemma ResumeSides(cfg: Config, s: Sim, d: Draws, r: Sim)
    requires cfg.points > 0 && r == Resume(cfg, s, d)
    ensures SidesKept(s, r)
  {
  }

  lemma FaultSides(s: Sim, code: int, duration: Option<real>, d: Draws, r: Sim)
    requires r == EnterFault(s, code, duration, d)
    ensures SidesKept(s, r)
  {
  }

  lemma SlotSides(cfg: Config, s: Sim, d: Draws, r: Sim)
    requires cfg.points > 0 && r == OnSlotEnd(cfg, s, d)
    ensures SidesKept(s, r)
  {
    var s1 := WeldPoint(s, d);
    if s1.cell.slotIdx >= cfg.points {
      var s2 := CountPart(s1, d);
      var mid := s2.(cell := Noted(cfg, s2.cell));
      FaultSides(mid, WELD_FAULT, None, d, EnterFault(mid, WELD_FAULT, None, d));
      ResumeSides(cfg, mid, d, Resume(cfg, mid, d));
    }
  }

  lemma InterruptSides(s: Sim, what: Cut, d: Draws, r: Sim)
    requires r == OnInterrupt(s, what, d)
    ensures SidesKept(s, r)
  {
  }

  lemma StopEndSides(cfg: Config, s: Sim, stop: StopKind, d: Draws, r: Sim)
    requires cfg.points > 0 && r == OnStopEnd(cfg, s, stop, d)
    ensures SidesKept(s, r)
  {
    var mid := if stop.SetupStop? then FinishSetup(s, stop.capChange, d) else s;
    ResumeSides(cfg, mid, d, Resume(cfg, mid, d));
  }

  lemma TakeSides(cfg: Config, s: Sim, r: Sim)
    requires ValidConfig(cfg) && ValidSlot(cfg.calendar, s.cell.breakWindow)
    requires r == TakeBreak(cfg, s) || r == LeaveBreak(cfg, s)
    ensures SidesKept(s, r)
  {
  }

  lemma KeptOn(s: Sim, mid: Sim, r: Sim)
    requires SidesKept(s, mid) && SidesKept(mid, r)
    ensures SidesKept(s, r)
  {
  }

  lemma BreakSides(cfg: Config, s: Sim, e: Ev, d: Draws, r: Sim)
    requires ValidConfig(cfg) && ValidSlot(cfg.calendar, s.cell.breakWindow)
    requires OfBreak(e.kind) && r == Handle(cfg, s, e, d)
    ensures SidesKept(s, r)
  {
    var mid := if e.kind.BreakStart? then TakeBreak(cfg, s) else LeaveBreak(cfg, s);
    TakeSides(cfg, s, mid);
    if r != mid {
      ResumeSides(cfg, mid, d, r);
      KeptOn(s, mid, r);
    }
  }

  lemma CellSides(cfg: Config, s: Sim, e: Ev, d: Draws, r: Sim)
    requires ValidConfig(cfg) && ValidSlot(cfg.calendar, s.cell.breakWindow)
    requires !Side(e.kind) && r == Handle(cfg, s, e, d)
    ensures SidesKept(s, r)
  {
    if DrivenByState(e.kind) && !Current(s, e) {
      assert r == s;
    } else {
      match e.kind
      case SlotEnd => SlotSides(cfg, s, d, r);
      case Interrupt(what) => InterruptSides(s, what, d, r);
      case StopEnd(stop) => StopEndSides(cfg, s, stop, d, r);
      case _ => BreakSides(cfg, s, e, d, r);
    }
  }

  lemma ForceSides(cfg: Config, s: Sim, a: Action, r: Sim)
    requires Sound(cfg, s) && a.Force? && r == Act(cfg, s, a)
    ensures SidesKept(s, r)
  {
    QueueNeverEmpty(cfg, s);
    var s1 := s.(now := RMax(s.now, a.at));
    FaultSides(s1, a.code, Some(a.duration), a.d, EnterFault(s1, a.code, Some(a.duration), a.d));
  }

  // ------------------------------------------------------------ their own events

  lemma WholeMultiple(k: int, period: real, t: real)
    requires period > 0.0 && t == k as real * period
    ensures IsMultiple(t, period)
  {
    assert t / period == k as real;
    assert (t / period).Floor == k;
  }

  /** The grid of the chaos events is absolute: the next multiple of the period, at most one period ahead. */
  lemma NextIsMultiple(now: real, period: real)
    requires period > 0.0
    ensures var next := NextMultiple(now, period); IsMultiple(next, period) && now < next <= now + period
  {
    var q := (now / period).Floor;
    MultipleIsAhead(now, period);
    WholeMultiple(q + 1, period, NextMultiple(now, period));
    assert q as real <= now / period;
    assert q as real * period <= now / period * period == now;
    assert (q + 1) as real * period == q as real * period + period;
  }

  lemma BeatNext(s: Sim, at: real, e: Ev, r: Sim)
    requires BeatAt(s, at) && e in s.heap && e.kind.HeartbeatTick? && r == OnHeartbeat(Pop(s, e))
    ensures e.ts == at && BeatAt(r, at + 1.0)
    ensures Freezes(r.heap) == Freezes(s.heap) && Resets(r.heap) == Resets(s.heap) && r.cell.frozen == s.cell.frozen
    ensures r.cell.heartbeat == if s.cell.frozen then s.cell.heartbeat else (s.cell.heartbeat + 1) % 0x1_0000_0000
  {
    assert e in Beats(s.heap);
    var next := Ev(at + 1.0, s.nextOrder, None, HeartbeatTick);
    assert r.heap == s.heap - {e} + {next};
    assert Beats(r.heap) == {next};
  }

  lemma FreezeNext(cfg: Config, s: Sim, e: Ev, r: Sim)
    requires ValidConfig(cfg) && FreezeQueued(cfg, s) && e in s.heap
    requires (e.kind.FreezeStart? && r == OnFreezeStart(cfg, Pop(s, e)))
             || (e.kind.FreezeEnd? && r == OnFreezeEnd(cfg, Pop(s, e)))
    ensures FreezeQueued(cfg, r) && r.cell.frozen == e.kind.FreezeStart?
    ensures Beats(r.heap) == Beats(s.heap) && Resets(r.heap) == Resets(s.heap)
    ensures r.cell.heartbeat == s.cell.heartbeat
    ensures forall f :: f in Freezes(r.heap) ==>
              if e.kind.FreezeStart? then f.kind.FreezeEnd? && f.ts == e.ts + cfg.chaos.freeze.value.duration
              else f.kind.FreezeStart? && IsMultiple(f.ts, cfg.chaos.freeze.value.every) && e.ts < f.ts
  {
    assert e in Freezes(s.heap);
    var f := cfg.chaos.freeze.value;
    if e.kind.FreezeStart? {
      var next := Ev(e.ts + f.duration, s.nextOrder, None, FreezeEnd);
      assert r.heap == s.heap - {e} + {next};
      assert Freezes(r.heap) == {next};
    } else {
      NextIsMultiple(e.ts, f.every);
      var next := Ev(e.ts + (NextMultiple(e.ts, f.every) - e.ts), s.nextOrder, None, FreezeStart);
      assert r.heap == s.heap - {e} + {next};
      assert Freezes(r.heap) == {next};
    }
  }

  /** A reset clears the counters and the heartbeat. */
  lemma ResetNext(cfg: Config, s: Sim, e: Ev, r: Sim)
    requires ValidConfig(cfg) && ResetQueued(cfg, s) && e in s.heap && e.kind.CounterReset?
    requires r == OnCounterReset(cfg, Pop(s, e))
    ensures ResetQueued(cfg, r) && r.cell.good == 0 && r.cell.scrap == 0 && r.cell.heartbeat == 0
    ensures Beats(r.heap) == Beats(s.heap) && Freezes(r.heap) == Freezes(s.heap) && r.cell.frozen == s.cell.frozen
  {
    assert e in Resets(s.heap);
    var every := cfg.chaos.resetEvery.value;
    NextIsMultiple(e.ts, every);
    var next := Ev(e.ts + (NextMultiple(e.ts, every) - e.ts), s.nextOrder, None, CounterReset);
    assert r.heap == s.heap - {e} + {next};
    assert Resets(r.heap) == {next};
  }

  // ------------------------------------------------------------ one action

  ghost predicate Running(cfg: Config, s: Sim, at: real)
    requires ValidConfig(cfg)
  {
    BeatAt(s, at) && FreezeQueued(cfg, s) && ResetQueued(cfg, s)
  }

  ghost predicate IsBeat(cfg: Config, s: Sim, a: Action)
    requires Sound(cfg, s)
  {
    a.Tick? && Due(cfg, s).kind.HeartbeatTick?
  }

  lemma SameSides(cfg: Config, s: Sim, r: Sim, at: real)
    requires ValidConfig(cfg) && Running(cfg, s, at) && r.cell.frozen == s.cell.frozen
    requires Beats(r.heap) == Beats(s.heap) && Freezes(r.heap) == Freezes(s.heap) && Resets(r.heap) == Resets(s.heap)
    ensures Running(cfg, r, at)
  {
  }

  lemma PoppedSides(s: Sim, e: Ev)
    requires !Side(e.kind)
    ensures SidesKept(s, Pop(s, e))
  {
  }

  /** The beat of a queued freeze or reset event leaves the others queued. */
  lemma SideTick(cfg: Config, s: Sim, e: Ev, d: Draws, at: real, r: Sim)
    requires Sound(cfg, s) && Running(cfg, s, at) && e in s.heap && Side(e.kind)
    requires ValidSlot(cfg.calendar, s.cell.breakWindow) && r == Handle(cfg, Pop(s, e), e, d)
    ensures Running(cfg, r, if e.kind.HeartbeatTick? then at + 1.0 else at)
    ensures r.cell.frozen == (e.kind.FreezeStart? || (s.cell.frozen && !e.kind.FreezeEnd?))
  {
    match e.kind
    case HeartbeatTick => BeatNext(s, at, e, r);
    case CounterReset => ResetNext(cfg, s, e, r);
    case _ => FreezeNext(cfg, s, e, r);
  }

  lemma ActRuns(cfg: Config, s: Sim, a: Action, at: real, r: Sim)
    requires Sound(cfg, s) && ValidAction(cfg, a) && Running(cfg, s, at) && r == Act(cfg, s, a)
    ensures Running(cfg, r, if IsBeat(cfg, s, a) then at + 1.0 else at)
  {
    var e := Due(cfg, s);
    DuePops(cfg, s, e);
    if a.Force? {
      ForceSides(cfg, s, a, r);
      KeptSets(s, r);
      SameSides(cfg, s, r, at);
    } else if Side(e.kind) {
      SideTick(cfg, s, e, a.d, at, r);
    } else {
      PoppedSides(s, e);
      CellSides(cfg, Pop(s, e), e, a.d, r);
      KeptSets(s, r);
      SameSides(cfg, s, r, at);
    }
  }

  // ------------------------------------------------------------ whole runs

  lemma CellStarts(cfg: Config, s: Sim, d: Draws, r: Sim)
    requires ValidConfig(cfg) && s.heap == {} && r == StartCell(cfg, s, d)
    ensures BeatAt(r, s.now + 1.0) && Freezes(r.heap) == {} && Resets(r.heap) == {}
    ensures r.cell.frozen == s.cell.frozen && r.now == s.now
  {
    var s0 := Publish(s, StartWrites(cfg, s.cell));
    var s1 := Schedule(s0, 1.0, HeartbeatTick, None);
    var s2 := ArmBreak(cfg, s1, s1.now);
    var e := Ev(s.now + 1.0, s.nextOrder, None, HeartbeatTick);
    assert s1.heap == {e};
    assert SidesKept(s1, s2);
    ResumeSides(cfg, s2, d, r);
    KeptSets(s1, s2);
    KeptSets(s2, r);
    assert Beats(s1.heap) == {e};
  }

  lemma ScheduledNext(s: Sim, kind: Kind, period: real, r: Sim)
    requires period > 0.0 && r == ScheduleNext(s, kind, period)
    ensures exists e :: r.heap == s.heap + {e} && e.kind == kind && IsMultiple(e.ts, period)
    ensures r.cell == s.cell && r.now == s.now
  {
    NextIsMultiple(s.now, period);
    var e := Ev(s.now + (NextMultiple(s.now, period) - s.now), s.nextOrder, None, kind);
    assert r.heap == s.heap + {e};
  }

  lemma ChaosStarts(cfg: Config, s: Sim, at: real, r: Sim)
    requires ValidConfig(cfg) && BeatAt(s, at) && Freezes(s.heap) == {} && Resets(s.heap) == {} && !s.cell.frozen
    requires r == ArmChaos(cfg, s)
    ensures Running(cfg, r, at)
  {
    if cfg.chaos.enabled {
      var s1 := if cfg.chaos.freeze.Some? then ScheduleNext(s, FreezeStart, cfg.chaos.freeze.value.every) else s;
      if cfg.chaos.freeze.Some? { FreezeArmed(cfg, s, at, s1); }
      if cfg.chaos.resetEvery.Some? { ResetArmed(cfg, s1, at, r); }
    }
  }

  lemma FreezeArmed(cfg: Config, s: Sim, at: real, r: Sim)
    requires ValidConfig(cfg) && cfg.chaos.enabled && cfg.chaos.freeze.Some?
    requires BeatAt(s, at) && Freezes(s.heap) == {} && Resets(s.heap) == {} && !s.cell.frozen
    requires r == ScheduleNext(s, FreezeStart, cfg.chaos.freeze.value.every)
    ensures BeatAt(r, at) && FreezeQueued(cfg, r) && Resets(r.heap) == {}
  {
    ScheduledNext(s, FreezeStart, cfg.chaos.freeze.value.every, r);
    var e :| r.heap == s.heap + {e} && e.kind == FreezeStart;
    assert Freezes(r.heap) == {e} && Beats(r.heap) == Beats(s.heap) && Resets(r.heap) == Resets(s.heap);
  }

  lemma ResetArmed(cfg: Config, s: Sim, at: real, r: Sim)
    requires ValidConfig(cfg) && cfg.chaos.enabled && cfg.chaos.resetEvery.Some?
    requires BeatAt(s, at) && FreezeQueued(cfg, s) && Resets(s.heap) == {}
    requires r == ScheduleNext(s, CounterReset, cfg.chaos.resetEvery.value)
    ensures Running(cfg, r, at)
  {
    ScheduledNext(s, CounterReset, cfg.chaos.resetEvery.value, r);
    var e :| r.heap == s.heap + {e} && e.kind == CounterReset && IsMultiple(e.ts, cfg.chaos.resetEvery.value);
    assert Resets(r.heap) == {e} && Beats(r.heap) == Beats(s.heap) && Freezes(r.heap) == Freezes(s.heap);
  }

  lemma StartRuns(cfg: Config, startTs: real, kept: Retained, d: Draws, r: Sim)
    requires ValidConfig(cfg) && r == Start(cfg, startTs, kept, d)
    ensures Running(cfg, r, startTs + 1.0)
  {
    var s := ApplyAtStart(cfg, Created(cfg, startTs, kept));
    var s1 := StartCell(cfg, s, d);
    CellStarts(cfg, s, d, s1);
    ChaosStarts(cfg, s1, startTs + 1.0, r);
  }

  /** The beat finds the heartbeat not frozen. */
  ghost predicate IsLiveBeat(cfg: Config, s: Sim, a: Action)
    requires Sound(cfg, s)
  {
    IsBeat(cfg, s, a) && !s.cell.frozen
  }

  ghost function BeatBy(cfg: Config, s: Sim, a: Action): nat
    requires Sound(cfg, s)
  {
    if IsBeat(cfg, s, a) then 1 else 0
  }

  ghost function LiveBeatBy(cfg: Config, s: Sim, a: Action): nat
    requires Sound(cfg, s)
  {
    if IsLiveBeat(cfg, s, a) then 1 else 0
  }

  /** Beats of a run, and those of them that find the heartbeat not frozen. */
  ghost function BeatsHeard(cfg: Config, s: Sim, script: seq<Action>): nat
    requires Sound(cfg, s) && ValidScript(cfg, script)
    decreases |script|
  {
    if script == [] then 0
    else
      FrontOk(cfg, script);
      BeatsHeard(cfg, s, Front(script)) + BeatBy(cfg, Run(cfg, s, Front(script)), Final(script))
  }

  ghost function LiveBeats(cfg: Config, s: Sim, script: seq<Action>): nat
    requires Sound(cfg, s) && ValidScript(cfg, script)
    decreases |script|
  {
    if script == [] then 0
    else
      FrontOk(cfg, script);
      LiveBeats(cfg, s, Front(script)) + LiveBeatBy(cfg, Run(cfg, s, Front(script)), Final(script))
  }

  ghost predicate WrapsBy(first: nat, n: nat, count: nat, wraps: nat) { count + wraps * 0x1_0000_0000 == first + n }

  /** The count is the first one advanced by n, each wrap losing 2^32. */
  ghost predicate Advanced(first: nat, n: nat, count: nat) { exists wraps: nat :: WrapsBy(first, n, count, wraps) }

  lemma LastRuns(cfg: Config, s: Sim, a: Action, at: real, next: Sim)
    requires Sound(cfg, s) && ValidAction(cfg, a) && Running(cfg, s, at) && next == Next(cfg, s, a)
    ensures Running(cfg, next, if IsBeat(cfg, s, a) then at + 1.0 else at)
  {
    var r, later := Act(cfg, s, a), if IsBeat(cfg, s, a) then at + 1.0 else at;
    ActRuns(cfg, s, a, at, r);
    SameSides(cfg, r, next, later);
  }

  /** Over every run the heartbeat keeps time: its next beat is one second after the start and one more for every
      beat so far. A freeze, where there are any, is always on its way to its start or its end, and a reset to the
      next multiple of its period. */
  lemma {:induction false} HeartbeatKeepsTime(cfg: Config, s: Sim, script: seq<Action>, at: real, beats: nat)
    requires Sound(cfg, s) && ValidScript(cfg, script) && Running(cfg, s, at)
    requires beats == BeatsHeard(cfg, s, script)
    ensures Running(cfg, Run(cfg, s, script), at + beats as real)
    decreases |script|
  {
    if script != [] {
      FrontOk(cfg, script);
      var t, a, before := Run(cfg, s, Front(script)), Final(script), BeatsHeard(cfg, s, Front(script));
      HeartbeatKeepsTime(cfg, s, Front(script), at, before);
      LastRuns(cfg, t, a, at + before as real, Run(cfg, s, script));
    }
  }

  /** One action counts one live beat, or clears the count, or leaves it. */
  lemma ActBeats(cfg: Config, s: Sim, a: Action, r: Sim)
    requires Sound(cfg, s) && ValidAction(cfg, a) && r == Act(cfg, s, a) && !IsReset(cfg, s, a)
    ensures r.cell.heartbeat == if IsLiveBeat(cfg, s, a) then (s.cell.heartbeat + 1) % 0x1_0000_0000
                                else s.cell.heartbeat
  {
    var e := Due(cfg, s);
    DuePops(cfg, s, e);
    if a.Force? {
      ForceSides(cfg, s, a, r);
    } else if Side(e.kind) {
      SideBeats(cfg, Pop(s, e), e, r);
    } else {
      CellSides(cfg, Pop(s, e), e, a.d, r);
    }
  }

  lemma SideBeats(cfg: Config, s: Sim, e: Ev, r: Sim)
    requires ValidConfig(cfg) && Side(e.kind) && !e.kind.CounterReset?
    requires r == if e.kind.HeartbeatTick? then OnHeartbeat(s)
                  else if e.kind.FreezeStart? then OnFreezeStart(cfg, s) else OnFreezeEnd(cfg, s)
    ensures r.cell.heartbeat == if e.kind.HeartbeatTick? && !s.cell.frozen
                                then (s.cell.heartbeat + 1) % 0x1_0000_0000 else s.cell.heartbeat
  {
  }

  /** Where no reset comes between, the heartbeat has counted the beats that did not find it frozen, up to wraps. */
  lemma {:induction false} HeartbeatCounts(cfg: Config, s: Sim, script: seq<Action>, live: nat, end: Sim)
    requires Sound(cfg, s) && ValidScript(cfg, script) && NoReset(cfg, s, script)
    requires live == LiveBeats(cfg, s, script) && end == Run(cfg, s, script)
    ensures Advanced(s.cell.heartbeat, live, end.cell.heartbeat)
    decreases |script|
  {
    if script == [] {
      assert WrapsBy(s.cell.heartbeat, 0, end.cell.heartbeat, 0);
    } else {
      FrontOk(cfg, script);
      var t, a, before := Run(cfg, s, Front(script)), Final(script), LiveBeats(cfg, s, Front(script));
      HeartbeatCounts(cfg, s, Front(script), before, t);
      BeatCounts(cfg, t, a, end, s.cell.heartbeat, before, live);
    }
  }

  lemma BeatCounts(cfg: Config, s: Sim, a: Action, next: Sim, first: nat, before: nat, live: nat)
    requires Sound(cfg, s) && ValidAction(cfg, a) && next == Next(cfg, s, a) && !IsReset(cfg, s, a)
    requires Advanced(first, before, s.cell.heartbeat)
    requires live == before + LiveBeatBy(cfg, s, a)
    ensures Advanced(first, live, next.cell.heartbeat)
  {
    ActBeats(cfg, s, a, Act(cfg, s, a));
    CountsOn(first, before, live, s.cell.heartbeat, next.cell.heartbeat);
  }

  lemma CountsOn(first: nat, before: nat, live: nat, count: nat, next: nat)
    requires Advanced(first, before, count)
    requires (live == before && next == count) || (live == before + 1 && next == (count + 1) % 0x1_0000_0000)
    ensures Advanced(first, live, next)
  {
    var wraps: nat :| WrapsBy(first, before, count, wraps);
    var more := if live == before then 0 else (count + 1) / 0x1_0000_0000;
    assert WrapsBy(first, live, next, wraps + more);
  }

  /** The same from any start. */
  lemma HeartbeatStarts(cfg: Config, startTs: real, kept: Retained, d: Draws, s: Sim)
    requires ValidConfig(cfg) && ValidDraws(cfg, d) && s == Drained(Start(cfg, startTs, kept, d))
    ensures Sound(cfg, s) && Running(cfg, s, startTs + 1.0)
  {
    StartOk(cfg, startTs, kept, d, Start(cfg, startTs, kept, d));
    StartRuns(cfg, startTs, kept, d, Start(cfg, startTs, kept, d));
    SameSides(cfg, Start(cfg, startTs, kept, d), s, startTs + 1.0);
  }
}
