/** Stopping the simulation, cleanly or not, and starting it again from its last saved state. */
module SimRestarts {
  import opened Basics
  import opened Facts
  import opened Shifts
  import opened Simulator
  import opened SimLaws
  import opened SimLog
  import opened SimRuns

  /** What a saved state holds of a cell. */
  function RetainedOf(c: Cell): Retained {
    Retained(c.good, c.scrap, c.heartbeat, c.pointsSinceCap, c.partsSinceCap, c.partsSinceDressing,
             c.nextDressing, c.nextCapChange)
  }

  /** The chaos injector may overwrite the counters of a simulation that starts. */
  function AtStart(cfg: Config, kept: Retained): Retained {
    if cfg.chaos.enabled && cfg.chaos.counters.Some?
    then kept.(good := Masked(cfg.chaos.counters.value.0), scrap := Masked(cfg.chaos.counters.value.1))
    else kept
  }

  lemma StartCellKeeps(cfg: Config, s: Sim, d: Draws, r: Sim)
    requires ValidConfig(cfg) && r == StartCell(cfg, s, d)
    ensures RetainedOf(r.cell) == RetainedOf(s.cell)
  {
    var s1 := Schedule(Publish(s, StartWrites(cfg, s.cell)), 1.0, HeartbeatTick, None);
    var s2 := ArmBreak(cfg, s1, s1.now);
    assert r == Resume(cfg, s2, d);
  }

  lemma ArmKeepsCell(cfg: Config, s: Sim, r: Sim)
    requires ValidConfig(cfg) && r == ArmChaos(cfg, s)
    ensures r.cell == s.cell
  {
  }

  lemma StartTakesUp(cfg: Config, startTs: real, kept: Retained, d: Draws, r: Sim)
    requires ValidConfig(cfg) && r == Start(cfg, startTs, kept, d)
    ensures RetainedOf(r.cell) == AtStart(cfg, kept)
  {
    var s := ApplyAtStart(cfg, Created(cfg, startTs, kept));
    var s1 := StartCell(cfg, s, d);
    StartCellKeeps(cfg, s, d, s1);
    ArmKeepsCell(cfg, s1, r);
  }

  // ------------------------------------------------------------ what clients see across a restart

  /** Nothing in the log is later than t. */
  predicate PublishedBy(cs: seq<SimChange>, t: real) { cs == [] || cs[|cs| - 1].ts <= t }

  lemma LogsJoin(a: seq<SimChange>, b: seq<SimChange>, c: seq<SimChange>, lo: real, last: real, mid: real, hi: real)
    requires lo <= mid <= hi && Chronological(a, lo, last) && Chronological(c, mid, hi)
    requires Stamped(b, mid) && b != []
    ensures Chronological(a + b + c, lo, hi) <==> PublishedBy(a, mid)
  {
    var all := a + b + c;
    assert all[|a|] == b[0];
    if PublishedBy(a, mid) {
      assert forall i :: 0 <= i < |a| ==> all[i] == a[i] && a[i].ts <= mid;
      assert forall i :: |a| <= i < |a| + |b| ==> all[i] == b[i - |a|];
      assert forall i :: |a| + |b| <= i < |all| ==> all[i] == c[i - |a| - |b|];
    } else {
      assert all[|a| - 1] == a[|a| - 1];
    }
  }

  lemma {:induction false} ReplayedOver(base: Image, cs: seq<SimChange>)
    ensures Replayed(base, cs) == base + Replayed(map[], cs)
    decreases |cs|
  {
    if cs != [] {
      var none: Image := map[];
      var one := none[cs[0].tag := cs[0].value];
      ReplayedOver(base[cs[0].tag := cs[0].value], cs[1..]);
      ReplayedOver(one, cs[1..]);
      assert base[cs[0].tag := cs[0].value] == base + one;
    }
  }

  /** A full publication makes up for whatever was missed before it. */
  lemma FullImageWins(base: Image, r: Sim)
    requires Tells(map[], r) && FullImage(r.image)
    ensures Replayed(base, r.changes) == r.image && r.changes != []
  {
    ReplayedOver(base, r.changes);
    assert CellState in r.image;
  }

  /** Save at s, run on, stop, and start again from what was saved. To a client that stays connected,
      published times go back nowhere exactly when nothing was published past the resume point: for a
      clean stop nothing is published after the save, for a crash the lookahead must cover it. Its image
      is that of the new run in any case. */
  lemma RestartContinues(cfg: Config, s: Sim, script: seq<Action>, clean: bool, now: Option<real>, lookahead: real,
                         saved: Persisted, d: Draws, r: Sim, after: seq<Action>)
    requires Sound(cfg, s) && s.changes == [] && ValidScript(cfg, script)
    requires ValidDraws(cfg, d) && lookahead >= 0.0 && ValidScript(cfg, after)
    requires saved == Snapshot(s, clean, now, lookahead)
    requires r == Start(cfg, saved.ResumeTs(), saved.retained, d)
    ensures Sound(cfg, Drained(r))
    ensures saved.ResumeTs() == saved.simTime + (if clean then 0.0 else lookahead)
    ensures s.now <= saved.simTime && (now.Some? ==> now.value <= saved.simTime)
    ensures var seen, end := Log(cfg, s, script) + r.changes + Log(cfg, Drained(r), after), Run(cfg, Drained(r), after);
            && (Chronological(seen, s.now, end.now) <==> PublishedBy(Log(cfg, s, script), saved.ResumeTs()))
            && Replayed(s.image, seen) == end.image
  {
    var resumed, before := Drained(r), Log(cfg, s, script);
    StartOk(cfg, saved.ResumeTs(), saved.retained, d, r);
    StartTells(cfg, saved.ResumeTs(), saved.retained, d, r);
    LogIsFaithful(cfg, s, script);
    LogIsFaithful(cfg, resumed, after);
    var base := Run(cfg, s, script).image;
    FullImageWins(base, r);
    LogsJoin(before, r.changes, Log(cfg, resumed, after), s.now, Run(cfg, s, script).now, r.now,
             Run(cfg, resumed, after).now);
    ReplayAppend(s.image, before, r.changes);
    ReplayAppend(s.image, before + r.changes, Log(cfg, resumed, after));
  }

  /** Counters, wear and thresholds are taken up as they were at the save; so the counters fall back by
      exactly the parts completed since, up to wraps. */
  lemma RestartFallsBack(cfg: Config, s: Sim, script: seq<Action>, clean: bool, now: Option<real>, lookahead: real,
                         saved: Persisted, d: Draws, r: Sim)
    requires Sound(cfg, s) && ValidScript(cfg, script)
    requires saved == Snapshot(s, clean, now, lookahead)
    requires r == Start(cfg, saved.ResumeTs(), saved.retained, d)
    ensures RetainedOf(r.cell) == AtStart(cfg, RetainedOf(s.cell))
    ensures NoReset(cfg, s, script) && AtStart(cfg, saved.retained) == saved.retained ==>
              CountersMoved(r.cell, Run(cfg, s, script).cell, |Made(cfg, s, script)|)
  {
    StartTakesUp(cfg, saved.ResumeTs(), saved.retained, d, r);
    if NoReset(cfg, s, script) && AtStart(cfg, saved.retained) == saved.retained {
      CountersAgree(cfg, s, script);
      SameStart(s.cell, r.cell, Run(cfg, s, script).cell, |Made(cfg, s, script)|);
    }
  }

  lemma SameStart(c: Cell, d: Cell, e: Cell, n: nat)
    requires Parts(c) == Parts(d) && CountersMoved(c, e, n)
    ensures CountersMoved(d, e, n)
  {
    var k: nat :| Wrapped(c, e, n, k);
    assert Wrapped(d, e, n, k);
  }
}
