/** The gaps a whole session of the collector stores are those its watchdog should record. */
module Observing {
  import opened Basics
  import opened Facts
  import opened Tracking
  import opened Storage
  import opened History
  import opened Collecting
  import W = Watching

  // ------------------------------------------------------------ what the watchdog hears of a session

  function BeatSignals(beats: seq<int>, now: real): seq<W.Signal> {
    if beats == [] then [] else [W.Beat(beats[0], now)] + BeatSignals(beats[1..], now)
  }

  function SignalsOf(c: Call): seq<W.Signal> {
    match c
    case Process(batch, now) => BeatSignals(Beats(batch), now)
    case Tick(now) => [W.Poll(now)]
    case Connect(now) => [W.Connected(now)]
    case Drain(_) => []
  }

  function Signals(cs: seq<Call>): seq<W.Signal> { if cs == [] then [] else SignalsOf(cs[0]) + Signals(cs[1..]) }

  /** The watchdog the call finds, once a first run has been told where observation starts. */
  function Primed(p: Pipe, c: Call): W.Watch {
    if c.Process? && c.batch != [] && p.firstRun then W.Seed(p.watch, Oldest(c.batch)) else p.watch
  }

  // ------------------------------------------------------------ only its operations matter

  lemma {:induction false} RecordedAppend(db: Db, w: W.Watch, a: seq<W.Signal>, b: seq<W.Signal>, lim: W.Limits)
    ensures W.WatchAfter(w, a + b, lim) == W.WatchAfter(W.WatchAfter(w, a, lim), b, lim)
    ensures W.Recorded(db, w, a + b, lim) == W.Recorded(W.Recorded(db, w, a, lim), W.WatchAfter(w, a, lim), b, lim)
    decreases |a|
  {
    if a == [] {
      assert a + b == b;
    } else {
      assert (a + b)[0] == a[0] && (a + b)[1..] == a[1..] + b;
      var r := W.React(w, a[0], lim);
      RecordedAppend(ApplyOps(db, r.ops), r.watch, a[1..], b, lim);
    }
  }

  lemma GapOpAgrees(a: Db, b: Db, op: Op)
    requires a.gaps == b.gaps && OnGaps(op)
    ensures ApplyOp(a, op).gaps == ApplyOp(b, op).gaps
  {
  }

  lemma {:induction false} GapOpsAgree(a: Db, b: Db, ops: seq<Op>)
    requires a.gaps == b.gaps && AllOnGaps(ops)
    ensures ApplyOps(a, ops).gaps == ApplyOps(b, ops).gaps
    decreases |ops|
  {
    if ops != [] {
      GapOpAgrees(a, b, ops[0]);
      GapOpsAgree(ApplyOp(a, ops[0]), ApplyOp(b, ops[0]), ops[1..]);
    }
  }

  lemma {:induction false} OtherOpsKeepGaps(db: Db, ops: seq<Op>)
    requires NoneOnGaps(ops)
    ensures ApplyOps(db, ops).gaps == db.gaps
    decreases |ops|
  {
    if ops != [] {
      assert !OnGaps(ops[0]);
      OtherOpsKeepGaps(ApplyOp(db, ops[0]), ops[1..]);
    }
  }

  lemma {:induction false} RecordedAgrees(a: Db, b: Db, w: W.Watch, ss: seq<W.Signal>, lim: W.Limits)
    requires a.gaps == b.gaps
    ensures W.Recorded(a, w, ss, lim).gaps == W.Recorded(b, w, ss, lim).gaps
    decreases |ss|
  {
    if ss != [] {
      var r := W.React(w, ss[0], lim);
      GapOpsAgree(a, b, r.ops);
      RecordedAgrees(ApplyOps(a, r.ops), ApplyOps(b, r.ops), r.watch, ss[1..], lim);
    }
  }

  /** The tracker's operations in the same transaction leave the gaps alone. */
  lemma GapsOfWrite(db: Db, before: seq<Op>, ops: seq<Op>, after: seq<Op>)
    requires NoneOnGaps(ops) && AllOnGaps(after)
    ensures ApplyOps(db, before + ops + after).gaps == ApplyOps(ApplyOps(db, before), after).gaps
  {
    var mid := ApplyOps(db, before);
    ApplyOpsAppend(db, before + ops, after);
    ApplyOpsAppend(db, before, ops);
    OtherOpsKeepGaps(mid, ops);
    GapOpsAgree(ApplyOps(mid, ops), mid, after);
  }

  lemma {:induction false} HeardIsRecorded(db: Db, w: W.Watch, beats: seq<int>, now: real, lim: W.Limits)
    ensures var heard, ss := Heard(w, beats, now, lim), BeatSignals(beats, now);
            W.WatchAfter(w, ss, lim) == heard.watch && W.Recorded(db, w, ss, lim) == ApplyOps(db, heard.ops)
    decreases |beats|
  {
    if beats != [] {
      var first := W.React(w, W.Beat(beats[0], now), lim);
      var rest := Heard(first.watch, beats[1..], now, lim);
      assert BeatSignals(beats, now)[1..] == BeatSignals(beats[1..], now);
      HeardIsRecorded(ApplyOps(db, first.ops), first.watch, beats[1..], now, lim);
      ApplyOpsAppend(db, first.ops, rest.ops);
    }
  }

  lemma OneSignal(db: Db, w: W.Watch, s: W.Signal, lim: W.Limits)
    ensures W.WatchAfter(w, [s], lim) == W.React(w, s, lim).watch
    ensures W.Recorded(db, w, [s], lim) == ApplyOps(db, W.React(w, s, lim).ops)
  {
    assert [s][1..] == [];
    assert W.Recorded(ApplyOps(db, W.React(w, s, lim).ops), W.React(w, s, lim).watch, [], lim)
           == ApplyOps(db, W.React(w, s, lim).ops);
  }

  // ------------------------------------------------------------ one call

  lemma DraftRecords(p: Pipe, c: Call, cfg: Config, db: Db, d: Draft)
    requires !c.Connect? && (c.Process? ==> c.batch != []) && d == Prepare(p, c, cfg)
    ensures d.pipe.watch == W.WatchAfter(Primed(p, c), SignalsOf(c), cfg.lim)
    ensures ApplyOps(ApplyOps(db, d.before), d.after) == W.Recorded(db, Primed(p, c), SignalsOf(c), cfg.lim)
  {
    match c
    case Process(batch, now) => HeardIsRecorded(db, Primed(p, c), Beats(batch), now, cfg.lim);
    case Tick(now) => OneSignal(db, p.watch, W.Poll(now), cfg.lim);
    case Drain(_) =>
  }

  lemma CallRecords(p: Pipe, c: Call, cfg: Config, q: Pipe)
    requires Do(p, c, cfg) == Success(q)
    ensures q.watch == W.WatchAfter(Primed(p, c), SignalsOf(c), cfg.lim)
    ensures q.db.gaps == W.Recorded(p.db, Primed(p, c), SignalsOf(c), cfg.lim).gaps
    ensures q.firstRun == (p.firstRun && !(c.Process? && c.batch != []))
  {
    if c.Connect? {
      OneSignal(p.db, p.watch, W.Connected(c.now), cfg.lim);
    } else if !(c.Process? && c.batch == []) {
      var out, d := Handed(p, c, cfg), Prepare(p, c, cfg);
      var step := ApplyAll(p.tracker, out.groups).value;
      AllTrackerOps(p.tracker, out.groups);
      PreparedOps(p, c, cfg);
      DraftRecords(p, c, cfg, p.db, d);
      GapsOfWrite(p.db, d.before, step.ops, d.after);
      WriteRecords(d.pipe.(assembler := out.state, tracker := step.tracker), d.before + step.ops + d.after, d.now,
                   d.force, cfg, q);
    }
  }

  lemma WriteRecords(p: Pipe, ops: seq<Op>, now: real, force: bool, cfg: Config, q: Pipe)
    requires q == Write(p, ops, now, force, cfg)
    ensures q.watch == p.watch && q.firstRun == p.firstRun && q.db.gaps == ApplyOps(p.db, ops).gaps
  {
  }

  // ------------------------------------------------------------ whole sessions

  /** Once observation has begun, the gaps stored are those the watchdog alone would record. */
  lemma {:induction false} SessionRecords(t: Trace, cs: seq<Call>, cfg: Config, end: Trace)
    requires !t.pipe.firstRun && Session(t, cs, cfg) == Success(end)
    ensures end.pipe.watch == W.WatchAfter(t.pipe.watch, Signals(cs), cfg.lim)
    ensures end.pipe.db.gaps == W.Recorded(t.pipe.db, t.pipe.watch, Signals(cs), cfg.lim).gaps
    decreases |cs|
  {
    if cs != [] {
      var c, q := cs[0], Do(t.pipe, cs[0], cfg).value;
      CallRecords(t.pipe, c, cfg, q);
      SessionRecords(Trace(q, t.received + Received(c), t.handed + GroupsOf(t.pipe, c, cfg)), cs[1..], cfg, end);
      RecordedAppend(t.pipe.db, t.pipe.watch, SignalsOf(c), Signals(cs[1..]), cfg.lim);
      RecordedAgrees(q.db, W.Recorded(t.pipe.db, t.pipe.watch, SignalsOf(c), cfg.lim), q.watch, Signals(cs[1..]),
                     cfg.lim);
    }
  }

  /** A session on a database without an open gap adds exactly the heartbeat intervals that went
      unobserved, counted from the stored progress mark. */
  lemma SessionGapsAreStored(db: Db, now: real, cs: seq<Call>, cfg: Config, end: Trace)
    requires Consistent(db) && db.lastSeen.Some? && W.AllClosed(db.gaps)
    requires Session(Opening(db, now), cs, cfg) == Success(end)
    ensures end.pipe.db.gaps == W.Gaps(db.lastSeen.value, now, true, [], Signals(cs), cfg.lim) + db.gaps
  {
    RepairIsIdle(db);
    assert (set t | t in db.gaps && db.gaps[t].None?) == {};
    SessionRecords(Opening(db, now), cs, cfg, end);
    W.SessionGaps(db, db.lastSeen.value, now, Signals(cs), cfg.lim);
  }

  /** On a first run nothing is recorded before the first batch, whose oldest change starts it all. */
  lemma {:induction false} BeforeObservation(t: Trace, cs: seq<Call>, cfg: Config, end: Trace)
    requires t.pipe.firstRun && t.pipe.watch.lastBeat.None? && t.pipe.watch.gapStart.None?
    requires forall i :: 0 <= i < |cs| ==> !cs[i].Process? || cs[i].batch == []
    requires Session(t, cs, cfg) == Success(end)
    ensures end.pipe.firstRun && end.pipe.db.gaps == t.pipe.db.gaps
    ensures end.pipe.watch.lastBeat.None? && end.pipe.watch.gapStart.None?
    ensures end.pipe.watch.lastWall == W.WallAfter(t.pipe.watch.lastWall, Signals(cs))
    decreases |cs|
  {
    if cs != [] {
      var c, q := cs[0], Do(t.pipe, cs[0], cfg).value;
      CallRecords(t.pipe, c, cfg, q);
      Unheard(t.pipe.db, t.pipe.watch, c, cfg.lim);
      WallStep(t.pipe.watch.lastWall, SignalsOf(c), Signals(cs[1..]));
      BeforeObservation(Trace(q, t.received + Received(c), t.handed + GroupsOf(t.pipe, c, cfg)), cs[1..], cfg, end);
    }
  }

  lemma WallStep(wall: real, one: seq<W.Signal>, rest: seq<W.Signal>)
    requires |one| <= 1
    ensures W.WallAfter(wall, one + rest) == W.WallAfter(W.WallAfter(wall, one), rest)
  {
    if one == [] {
      assert one + rest == rest;
    } else {
      assert (one + rest)[0] == one[0] && (one + rest)[1..] == rest && one[1..] == [];
    }
  }

  lemma Unheard(db: Db, w: W.Watch, c: Call, lim: W.Limits)
    requires w.lastBeat.None? && w.gapStart.None? && (c.Process? ==> c.batch == [])
    ensures var after := W.WatchAfter(w, SignalsOf(c), lim); after.lastBeat.None? && after.gapStart.None?
    ensures W.Recorded(db, w, SignalsOf(c), lim).gaps == db.gaps
    ensures |SignalsOf(c)| <= 1
    ensures W.WatchAfter(w, SignalsOf(c), lim).lastWall == W.WallAfter(w.lastWall, SignalsOf(c))
  {
    if c.Tick? { OneSignal(db, w, W.Poll(c.now), lim); }
    if c.Connect? { OneSignal(db, w, W.Connected(c.now), lim); }
  }

  lemma FirstBatchRecords(t: Trace, batch: seq<Change>, now: real, cs: seq<Call>, cfg: Config, end: Trace)
    requires t.pipe.firstRun && t.pipe.watch.lastBeat.None? && t.pipe.watch.gapStart.None? && batch != []
    requires W.AllClosed(t.pipe.db.gaps)
    requires Session(t, [Process(batch, now)] + cs, cfg) == Success(end)
    ensures end.pipe.db.gaps
            == W.Gaps(Oldest(batch), t.pipe.watch.lastWall, true, [], Signals([Process(batch, now)] + cs), cfg.lim)
               + t.pipe.db.gaps
  {
    var c, all := Process(batch, now), [Process(batch, now)] + cs;
    assert all[1..] == cs;
    var q, w := Do(t.pipe, c, cfg).value, W.Seed(t.pipe.watch, Oldest(batch));
    CallRecords(t.pipe, c, cfg, q);
    SessionRecords(Trace(q, t.received + Received(c), t.handed + GroupsOf(t.pipe, c, cfg)), cs, cfg, end);
    RecordedAppend(t.pipe.db, w, SignalsOf(c), Signals(cs), cfg.lim);
    RecordedAgrees(q.db, W.Recorded(t.pipe.db, w, SignalsOf(c), cfg.lim), q.watch, Signals(cs), cfg.lim);
    assert w == W.Start(t.pipe.watch.lastWall, Some(Oldest(batch)), None);
    W.SessionGaps(t.pipe.db, Oldest(batch), t.pipe.watch.lastWall, Signals(all), cfg.lim);
  }

  lemma {:induction false} SessionAppend(t: Trace, a: seq<Call>, b: seq<Call>, cfg: Config)
    requires Session(t, a + b, cfg).Success?
    ensures Session(t, a, cfg).Success? && Session(Session(t, a, cfg).value, b, cfg) == Session(t, a + b, cfg)
    decreases |a|
  {
    if a == [] {
      assert a + b == b;
    } else {
      assert (a + b)[0] == a[0] && (a + b)[1..] == a[1..] + b;
      var q := Do(t.pipe, a[0], cfg).value;
      SessionAppend(Trace(q, t.received + Received(a[0]), t.handed + GroupsOf(t.pipe, a[0], cfg)), a[1..], b, cfg);
    }
  }

  /** A first run adds exactly the intervals that went unobserved since its oldest change. */
  lemma FirstRunGapsAreStored(db: Db, now: real, before: seq<Call>, batch: seq<Change>, at: real, after: seq<Call>,
                              cfg: Config, end: Trace)
    requires Consistent(db) && db.lastSeen.None? && W.AllClosed(db.gaps) && batch != []
    requires forall i :: 0 <= i < |before| ==> !before[i].Process? || before[i].batch == []
    requires Session(Opening(db, now), before + ([Process(batch, at)] + after), cfg) == Success(end)
    ensures end.pipe.db.gaps
            == W.Gaps(Oldest(batch), W.WallAfter(now, Signals(before)), true, [],
                      Signals([Process(batch, at)] + after), cfg.lim)
               + db.gaps
  {
    var t := Opening(db, now);
    RepairIsIdle(db);
    assert (set g | g in db.gaps && db.gaps[g].None?) == {};
    SessionAppend(t, before, [Process(batch, at)] + after, cfg);
    var mid := Session(t, before, cfg).value;
    BeforeObservation(t, before, cfg, mid);
    FirstBatchRecords(mid, batch, at, after, cfg, end);
  }
}
