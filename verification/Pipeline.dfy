/** backend/app/collector/pipeline.py: the assembler, the tracker, the watchdog and the store wired
    together. Each `Process`, `Tick` or `Drain` is one transaction. */
module Collecting {
  import opened Basics
  import opened Facts
  import opened Tracking
  import opened Storage
  import opened History
  import A = Assembling
  import W = Watching

  datatype Config = Config(settle: real, lim: W.Limits, flushEvery: real)

  datatype Pipe = Pipe(
    tracker: Tracker, assembler: A.State, watch: W.Watch, db: Db,
    maxTs: Option<int>, writtenTs: Option<int>, lastFlush: real, firstRun: bool)

  /** A collector that has just resumed from the database. */
  function Begin(db: Db, now: real): Pipe {
    var live := Restart(db);
    Pipe(live.tracker, A.IDLE, W.Start(now, live.db.lastSeen,
        MaxOf(set t | t in live.db.gaps && live.db.gaps[t].None?)),
         live.db, live.db.lastSeen, live.db.lastSeen, 0.0, live.db.lastSeen.None?)
  }

  function SafeLastSeen(maxTs: Option<int>, assembler: A.State): Option<int> {
    if maxTs.None? then None
    else
      var oldest := MinOf(assembler.pending.Keys);
      if oldest.Some? then Some(Min(maxTs.value, oldest.value - 1)) else maxTs
  }

  /** The progress mark that goes with a transaction, if any. */
  function Mark(p: Pipe, ops: seq<Op>, now: real, force: bool, cfg: Config): Option<int> {
    var seen := SafeLastSeen(p.maxTs, p.assembler);
    var due := now - p.lastFlush >= cfg.flushEvery;
    var newer := seen.Some? && (p.writtenTs.None? || seen.value > p.writtenTs.value);
    if newer && (ops != [] || due || force) then seen else None
  }

  function Write(p: Pipe, ops: seq<Op>, now: real, force: bool, cfg: Config): Pipe {
    var mark := Mark(p, ops, now, force, cfg);
    if ops == [] && mark.None? then p
    else
      var stored := p.(db := SeenUpTo(ApplyOps(p.db, ops), mark));
      if mark.Some? then stored.(writtenTs := mark, lastFlush := now) else stored
  }

  function Oldest(batch: seq<Change>): int
    requires batch != []
  {
    if |batch| == 1 then batch[0].ts else Min(batch[0].ts, Oldest(batch[1..]))
  }

  function Newest(batch: seq<Change>): int
    requires batch != []
  {
    if |batch| == 1 then batch[0].ts else Max(batch[0].ts, Newest(batch[1..]))
  }

  function InsertTs(ts: int, sorted: seq<int>): seq<int> {
    if sorted == [] || ts <= sorted[0] then [ts] + sorted else [sorted[0]] + InsertTs(ts, sorted[1..])
  }

  /** The heartbeats of a batch by timestamp. */
  function Beats(batch: seq<Change>): seq<int> {
    if batch == [] then []
    else if batch[0].tag == Heartbeat then InsertTs(batch[0].ts, Beats(batch[1..])) else Beats(batch[1..])
  }

  function Others(batch: seq<Change>): seq<Change> {
    if batch == [] then []
    else (if batch[0].tag == Heartbeat then [] else [batch[0]]) + Others(batch[1..])
  }

  function Heard(w: W.Watch, beats: seq<int>, now: real, lim: W.Limits): W.Reaction
    decreases |beats|
  {
    if beats == [] then W.Reaction(w, [])
    else
      var first := W.React(w, W.Beat(beats[0], now), lim);
      var rest := Heard(first.watch, beats[1..], now, lim);
      W.Reaction(rest.watch, first.ops + rest.ops)
  }

  datatype Call =
    | Process(batch: seq<Change>, now: real)
    | Tick(now: real)
    | Connect(now: real)
    | Drain(now: real)

  /** The groups a call hands to the tracker. */
  function Handed(p: Pipe, c: Call, cfg: Config): A.Output {
    match c
    case Process(batch, now) => A.Feed(p.assembler, Others(batch), now, cfg.settle)
    case Tick(now) => A.Poll(p.assembler, now, cfg.settle)
    case Connect(_) => A.Output(p.assembler, [])
    case Drain(_) => A.Flush(p.assembler)
  }

  /** A transaction about to be written: the operations of the tracker go between those of the watchdog. */
  datatype Draft = Draft(pipe: Pipe, before: seq<Op>, after: seq<Op>, now: real, force: bool)

  function Prepare(p: Pipe, c: Call, cfg: Config): Draft
    requires !c.Connect? && (c.Process? ==> c.batch != [])
  {
    match c
    case Process(batch, now) =>
      var w := if p.firstRun then W.Seed(p.watch, Oldest(batch)) else p.watch;
      var heard := Heard(w, Beats(batch), now, cfg.lim);
      var newest := Newest(batch);
      Draft(p.(watch := heard.watch, firstRun := false,
               maxTs := Some(if p.maxTs.None? then newest else Max(p.maxTs.value, newest))),
            heard.ops, [], now, false)
    case Tick(now) =>
      var silent := W.React(p.watch, W.Poll(now), cfg.lim);
      Draft(p.(watch := silent.watch), [], silent.ops, now, false)
    case Drain(now) => Draft(p, [], [], now, true)
  }

  function Do(p: Pipe, c: Call, cfg: Config): Result<Pipe> {
    if c.Connect? then Success(p.(watch := W.React(p.watch, W.Connected(c.now), cfg.lim).watch))
    else if c.Process? && c.batch == [] then Success(p)
    else
      var out := Handed(p, c, cfg);
      match ApplyAll(p.tracker, out.groups)
      case Failure(e) => Failure(e)
      case Success(step) =>
        var d := Prepare(p, c, cfg);
        Success(Write(d.pipe.(assembler := out.state, tracker := step.tracker),
                      d.before + step.ops + d.after, d.now, d.force, cfg))
  }

  // ------------------------------------------------------------ the watchdog only writes gaps

  predicate OnGaps(op: Op) { op.OpenGap? || op.CloseGap? || op.ClosedGap? }

  ghost predicate AllOnGaps(ops: seq<Op>) { forall i :: 0 <= i < |ops| ==> OnGaps(ops[i]) }

  ghost predicate NoneOnGaps(ops: seq<Op>) { forall i :: 0 <= i < |ops| ==> !OnGaps(ops[i]) }

  /** Equal tables, gaps and progress mark apart. */
  predicate SameFacts(a: Db, b: Db) {
    a.cell == b.cell && a.stations == b.stations && a.stops == b.stops && a.counters == b.counters && a.welds == b.welds
  }

  lemma {:induction false} GapOpsKeepFacts(db: Db, ops: seq<Op>)
    requires AllOnGaps(ops)
    ensures SameFacts(ApplyOps(db, ops), db)
    decreases |ops|
  {
    if ops != [] {
      GapOpKeepsFacts(db, ops[0]);
      GapOpsKeepFacts(ApplyOp(db, ops[0]), ops[1..]);
    }
  }

  lemma GapOpKeepsFacts(db: Db, op: Op)
    requires OnGaps(op)
    ensures SameFacts(ApplyOp(db, op), db)
  {
  }

  lemma FactOpAgrees(a: Db, b: Db, op: Op)
    requires SameFacts(a, b) && !OnGaps(op)
    ensures SameFacts(ApplyOp(a, op), ApplyOp(b, op))
  {
  }

  lemma {:induction false} FactOpsAgree(a: Db, b: Db, ops: seq<Op>)
    requires SameFacts(a, b) && NoneOnGaps(ops)
    ensures SameFacts(ApplyOps(a, ops), ApplyOps(b, ops))
    decreases |ops|
  {
    if ops != [] {
      FactOpAgrees(a, b, ops[0]);
      FactOpsAgree(ApplyOp(a, ops[0]), ApplyOp(b, ops[0]), ops[1..]);
    }
  }

  lemma {:induction false} StationOps(mem: Memory, latest: Latest, ts: int, changed: set<Tag>, n: nat)
    requires n <= 3
    ensures NoneOnGaps(StationParts(mem, latest, ts, changed, n).ops)
  {
    if n > 0 { StationOps(mem, latest, ts, changed, n - 1); }
  }

  lemma TrackerOps(t: Tracker, g: Group)
    requires Apply(t, g).Success?
    ensures NoneOnGaps(Apply(t, g).value.ops)
  {
    var latest, changed := Learn(t.latest, g), Changed(g);
    var cell := CellPart(t.mem, latest, g.ts, changed).value;
    assert NoneOnGaps(cell.ops);
    StationOps(cell.mem, latest, g.ts, changed, 3);
    var stations := StationParts(cell.mem, latest, g.ts, changed, 3);
    var counter := CounterPart(stations.mem, latest, g.ts, changed);
    assert NoneOnGaps(counter.ops);
    assert NoneOnGaps(WeldPart(counter.mem, latest, g.ts, changed).ops);
  }

  lemma {:induction false} AllTrackerOps(t: Tracker, gs: seq<Group>)
    requires ApplyAll(t, gs).Success?
    ensures NoneOnGaps(ApplyAll(t, gs).value.ops)
    decreases |gs|
  {
    if gs != [] {
      TrackerOps(t, gs[0]);
      AllTrackerOps(Apply(t, gs[0]).value.tracker, gs[1..]);
    }
  }

  lemma {:induction false} HeardOps(w: W.Watch, beats: seq<int>, now: real, lim: W.Limits)
    ensures AllOnGaps(Heard(w, beats, now, lim).ops)
    decreases |beats|
  {
    if beats != [] { HeardOps(W.React(w, W.Beat(beats[0], now), lim).watch, beats[1..], now, lim); }
  }

  /** A transaction stores the tracker's operations, whatever the watchdog writes before or after. */
  lemma FactsOfWrite(db: Db, before: seq<Op>, ops: seq<Op>, after: seq<Op>)
    requires AllOnGaps(before) && NoneOnGaps(ops) && AllOnGaps(after)
    ensures SameFacts(ApplyOps(db, before + ops + after), ApplyOps(db, ops))
  {
    ApplyOpsAppend(db, before + ops, after);
    ApplyOpsAppend(db, before, ops);
    GapOpsKeepFacts(db, before);
    FactOpsAgree(ApplyOps(db, before), db, ops);
    GapOpsKeepFacts(ApplyOps(db, before + ops), after);
  }

  // ------------------------------------------------------------ what a call stores

  lemma WriteStores(p: Pipe, ops: seq<Op>, now: real, force: bool, cfg: Config)
    ensures var q := Write(p, ops, now, force, cfg);
            && q == p.(db := q.db, writtenTs := q.writtenTs, lastFlush := q.lastFlush)
            && SameFacts(q.db, ApplyOps(p.db, ops))
            && (q.writtenTs != p.writtenTs ==>
                  && q.writtenTs.Some? && q.writtenTs == SafeLastSeen(p.maxTs, p.assembler)
                  && q.db.lastSeen.Some? && q.writtenTs.value <= q.db.lastSeen.value
                  && (p.writtenTs.Some? ==> p.writtenTs.value < q.writtenTs.value))
  {
  }

  lemma PreparedOps(p: Pipe, c: Call, cfg: Config)
    requires !c.Connect? && (c.Process? ==> c.batch != [])
    ensures var d := Prepare(p, c, cfg);
            && AllOnGaps(d.before) && AllOnGaps(d.after)
            && d.pipe.db == p.db && d.pipe.writtenTs == p.writtenTs
  {
    if c.Process? {
      var w := if p.firstRun then W.Seed(p.watch, Oldest(c.batch)) else p.watch;
      HeardOps(w, Beats(c.batch), c.now, cfg.lim);
    }
  }

  lemma CallStores(p: Pipe, c: Call, cfg: Config)
    requires Do(p, c, cfg).Success? && !c.Connect? && !(c.Process? && c.batch == [])
    ensures var q, out := Do(p, c, cfg).value, Handed(p, c, cfg);
            var step := ApplyAll(p.tracker, out.groups).value;
            && q.assembler == out.state && q.tracker == step.tracker
            && SameFacts(q.db, ApplyOps(p.db, step.ops))
  {
    var out, d := Handed(p, c, cfg), Prepare(p, c, cfg);
    var step := ApplyAll(p.tracker, out.groups).value;
    AllTrackerOps(p.tracker, out.groups);
    PreparedOps(p, c, cfg);
    FactsOfWrite(p.db, d.before, step.ops, d.after);
    WriteStores(d.pipe.(assembler := out.state, tracker := step.tracker), d.before + step.ops + d.after, d.now,
        d.force, cfg);
  }

  /** Whenever the progress mark moves, it stays below every change still waiting in the assembler. */
  lemma MarkIsSafe(p: Pipe, c: Call, cfg: Config)
    requires Do(p, c, cfg).Success?
    ensures var q := Do(p, c, cfg).value;
            q.writtenTs != p.writtenTs ==>
              && q.writtenTs.Some?
              && (forall t :: t in q.assembler.pending ==> q.writtenTs.value < t)
              && q.db.lastSeen.Some? && q.writtenTs.value <= q.db.lastSeen.value
              && (p.writtenTs.Some? ==> p.writtenTs.value < q.writtenTs.value)
  {
    if !c.Connect? && !(c.Process? && c.batch == []) {
      var out, d := Handed(p, c, cfg), Prepare(p, c, cfg);
      var step := ApplyAll(p.tracker, out.groups).value;
      var ready := d.pipe.(assembler := out.state, tracker := step.tracker);
      PreparedOps(p, c, cfg);
      WriteStores(ready, d.before + step.ops + d.after, d.now, d.force, cfg);
      SafeIsOlder(ready.maxTs, out.state);
    }
  }

  lemma SafeIsOlder(maxTs: Option<int>, assembler: A.State)
    ensures SafeLastSeen(maxTs, assembler).Some? ==>
              forall t :: t in assembler.pending ==> SafeLastSeen(maxTs, assembler).value < t
  {
    assert forall t :: t in assembler.pending ==> t in assembler.pending.Keys;
  }

  // ------------------------------------------------------------ sessions

  /** A session: where it stands, what it received, what it handed to the tracker. */
  datatype Trace = Trace(pipe: Pipe, received: seq<Change>, handed: seq<Group>)

  function Received(c: Call): seq<Change> { if c.Process? then Others(c.batch) else [] }

  function GroupsOf(p: Pipe, c: Call, cfg: Config): seq<Group> {
    if c.Connect? || (c.Process? && c.batch == []) then [] else Handed(p, c, cfg).groups
  }

  function Session(t: Trace, cs: seq<Call>, cfg: Config): Result<Trace>
    decreases |cs|
  {
    if cs == [] then Success(t)
    else match Do(t.pipe, cs[0], cfg)
      case Failure(e) => Failure(e)
      case Success(q) =>
        Session(Trace(q, t.received + Received(cs[0]), t.handed + GroupsOf(t.pipe, cs[0], cfg)), cs[1..], cfg)
  }

  /** The database holds exactly what the tracker made of the groups handed to it; every change received
      is waiting in the assembler or was handed over; and every value there is one that was received. */
  ghost predicate Accounted(l: Live, t: Trace) {
    && ApplyAll(l.tracker, t.handed).Success?
    && t.pipe.tracker == ApplyAll(l.tracker, t.handed).value.tracker
    && SameFacts(t.pipe.db, ApplyOps(l.db, ApplyAll(l.tracker, t.handed).value.ops))
    && (forall c :: c in t.received ==>
          A.Holds(t.pipe.assembler.pending, c.ts, c.tag) || A.Carries(t.handed, c.ts, c.tag))
    && A.HoldsOf(t.pipe.assembler.pending, t.received) && A.CarriesOf(t.handed, t.received)
  }

  lemma HandedHolds(p: Pipe, c: Call, cfg: Config, ts: int, tag: Tag)
    ensures var out := Handed(p, c, cfg);
            (A.Holds(p.assembler.pending, ts, tag) || A.Mentions(Received(c), ts, tag))
            ==> A.Holds(out.state.pending, ts, tag) || A.Carries(out.groups, ts, tag)
  {
    match c
    case Process(batch, now) => A.CallHolds(p.assembler, A.FeedCall(Others(batch), now), cfg.settle, ts, tag);
    case Tick(now) => A.CallHolds(p.assembler, A.PollCall(now), cfg.settle, ts, tag);
    case Connect(_) =>
    case Drain(_) => A.ListedCarries(p.assembler.pending, false, ts, tag);
  }

  /** A call hands over, and keeps waiting, only values that were received. */
  lemma HandedOf(p: Pipe, c: Call, cfg: Config, before: seq<Change>, all: seq<Change>)
    requires A.HoldsOf(p.assembler.pending, before) && all == before + Received(c)
    ensures var out := Handed(p, c, cfg); A.HoldsOf(out.state.pending, all) && A.CarriesOf(out.groups, all)
  {
    assert A.HoldsOf(p.assembler.pending, all);
    match c
    case Process(batch, now) => A.CallOf(p.assembler, A.FeedCall(Others(batch), now), cfg.settle, all);
    case Tick(now) => A.CallOf(p.assembler, A.PollCall(now), cfg.settle, all);
    case Connect(_) =>
    case Drain(_) => A.ListedOf(p.assembler.pending, false, all);
  }

  lemma ValuesAreReceived(t: Trace, c: Call, cfg: Config, q: Pipe, received: seq<Change>, handed: seq<Group>)
    requires A.HoldsOf(t.pipe.assembler.pending, t.received) && A.CarriesOf(t.handed, t.received)
    requires Do(t.pipe, c, cfg) == Success(q)
    requires received == t.received + Received(c) && handed == t.handed + GroupsOf(t.pipe, c, cfg)
    ensures A.HoldsOf(q.assembler.pending, received) && A.CarriesOf(handed, received)
  {
    HandedOf(t.pipe, c, cfg, t.received, received);
    assert A.CarriesOf(t.handed, received);
    if !c.Connect? && !(c.Process? && c.batch == []) { CallStores(t.pipe, c, cfg); }
    A.CarriesOfAppend(t.handed, GroupsOf(t.pipe, c, cfg), received);
  }

  lemma CallAccounts(l: Live, t: Trace, c: Call, cfg: Config)
    requires Accounted(l, t) && Do(t.pipe, c, cfg).Success?
    ensures Accounted(l, Trace(Do(t.pipe, c, cfg).value, t.received + Received(c), t.handed + GroupsOf(t.pipe, c, cfg)))
  {
    var gs := GroupsOf(t.pipe, c, cfg);
    var q := Do(t.pipe, c, cfg).value;
    if gs == [] { assert t.handed + gs == t.handed; }
    ValuesAreReceived(t, c, cfg, q, t.received + Received(c), t.handed + gs);
    if c.Connect? || (c.Process? && c.batch == []) {
      assert Received(c) == [] && t.received + Received(c) == t.received;
    } else {
      CallStores(t.pipe, c, cfg);
      StoredSoFar(l, t, q, gs);
    }
    forall ch | ch in t.received + Received(c)
      ensures A.Holds(q.assembler.pending, ch.ts, ch.tag) || A.Carries(t.handed + gs, ch.ts, ch.tag)
    {
      HandedHolds(t.pipe, c, cfg, ch.ts, ch.tag);
      A.CarriesAppend(t.handed, gs, ch.ts, ch.tag);
    }
  }

  lemma StoredSoFar(l: Live, t: Trace, q: Pipe, gs: seq<Group>)
    requires Accounted(l, t) && ApplyAll(t.pipe.tracker, gs).Success?
    requires SameFacts(q.db, ApplyOps(t.pipe.db, ApplyAll(t.pipe.tracker, gs).value.ops))
    ensures ApplyAll(l.tracker, t.handed + gs).Success?
    ensures ApplyAll(l.tracker, t.handed + gs).value.tracker == ApplyAll(t.pipe.tracker, gs).value.tracker
    ensures SameFacts(q.db, ApplyOps(l.db, ApplyAll(l.tracker, t.handed + gs).value.ops))
  {
    var first, rest := ApplyAll(l.tracker, t.handed).value, ApplyAll(t.pipe.tracker, gs).value;
    var ops, more := first.ops, rest.ops;
    ApplyAllAppend(l.tracker, t.handed, gs);
    ApplyOpsAppend(l.db, ops, more);
    AllTrackerOps(t.pipe.tracker, gs);
    FactOpsAgree(t.pipe.db, ApplyOps(l.db, ops), more);
  }

  lemma {:induction false} SessionAccounts(l: Live, t: Trace, cs: seq<Call>, cfg: Config)
    requires Accounted(l, t) && Session(t, cs, cfg).Success?
    ensures Accounted(l, Session(t, cs, cfg).value)
    decreases |cs|
  {
    if cs != [] {
      CallAccounts(l, t, cs[0], cfg);
      var q := Do(t.pipe, cs[0], cfg).value;
      SessionAccounts(l, Trace(q, t.received + Received(cs[0]), t.handed + GroupsOf(t.pipe, cs[0], cfg)), cs[1..], cfg);
    }
  }

  function Opening(db: Db, now: real): Trace { Trace(Begin(db, now), [], []) }

  lemma OpeningIsAccounted(db: Db, now: real)
    requires Consistent(db)
    ensures Accounted(Restart(db), Opening(db, now))
  {
    RepairIsIdle(db);
  }

  /** Over every session on a database the collector wrote: the tables hold exactly what the tracker
      makes of the groups handed to it, and no change received is lost. */
  lemma SessionIsAccounted(db: Db, now: real, cs: seq<Call>, cfg: Config)
    requires Consistent(db) && Session(Opening(db, now), cs, cfg).Success?
    ensures Accounted(Restart(db), Session(Opening(db, now), cs, cfg).value)
  {
    OpeningIsAccounted(db, now);
    SessionAccounts(Restart(db), Opening(db, now), cs, cfg);
  }

  /** Whenever a call moves the progress mark, every change received up to that mark has been handed
      to the tracker, so its outcome is in the database with the mark. */
  lemma ProgressIsStored(db: Db, now: real, cs: seq<Call>, c: Call, cfg: Config)
    requires Consistent(db)
    requires Session(Opening(db, now), cs + [c], cfg).Success?
    ensures Session(Opening(db, now), cs, cfg).Success?
    ensures var before, after := Session(Opening(db, now), cs, cfg).value,
            Session(Opening(db, now), cs + [c], cfg).value;
            after.pipe.writtenTs != before.pipe.writtenTs ==>
              && after.pipe.writtenTs.Some?
              && Accounted(Restart(db), after)
              && (forall ch :: ch in after.received && ch.ts <= after.pipe.writtenTs.value ==>
                    A.Carries(after.handed, ch.ts, ch.tag))
              && A.CarriesOf(after.handed, after.received)
  {
    SessionIsAccounted(db, now, cs + [c], cfg);
    SessionSnoc(Opening(db, now), cs, c, cfg);
    MarkIsSafe(Session(Opening(db, now), cs, cfg).value.pipe, c, cfg);
  }

  lemma {:induction false} SessionSnoc(t: Trace, cs: seq<Call>, c: Call, cfg: Config)
    requires Session(t, cs + [c], cfg).Success?
    ensures Session(t, cs, cfg).Success? && Do(Session(t, cs, cfg).value.pipe, c, cfg).Success?
    ensures Session(t, cs + [c], cfg).value.pipe == Do(Session(t, cs, cfg).value.pipe, c, cfg).value
    decreases |cs|
  {
    if cs == [] {
      assert cs + [c] == [c];
      assert [c][1..] == [];
    } else {
      assert (cs + [c])[0] == cs[0] && (cs + [c])[1..] == cs[1..] + [c];
      var q := Do(t.pipe, cs[0], cfg).value;
      SessionSnoc(Trace(q, t.received + Received(cs[0]), t.handed + GroupsOf(t.pipe, cs[0], cfg)), cs[1..], c, cfg);
    }
  }

  // ------------------------------------------------------------ end to end

  function AssemblerCalls(cs: seq<Call>): seq<A.Call> {
    if cs == [] then []
    else
      var rest := AssemblerCalls(cs[1..]);
      match cs[0]
      case Process(batch, now) => if batch == [] then rest else [A.FeedCall(Others(batch), now)] + rest
      case Tick(now) => [A.PollCall(now)] + rest
      case _ => rest
  }

  ghost predicate NoDrain(cs: seq<Call>) { forall i :: 0 <= i < |cs| ==> !cs[i].Drain? }

  lemma {:induction false} HandsOver(t: Trace, cs: seq<Call>, now: real, cfg: Config)
    requires NoDrain(cs) && Session(t, cs + [Drain(now)], cfg).Success?
    ensures var end := Session(t, cs + [Drain(now)], cfg).value;
            && end.handed == t.handed + A.Session(t.pipe.assembler, AssemblerCalls(cs), cfg.settle).groups
            && end.received == t.received + A.Fed(AssemblerCalls(cs))
    decreases |cs|
  {
    var all := cs + [Drain(now)];
    var q := Do(t.pipe, all[0], cfg).value;
    var next := Trace(q, t.received + Received(all[0]), t.handed + GroupsOf(t.pipe, all[0], cfg));
    if cs == [] {
      assert all == [Drain(now)] && all[1..] == [];
      assert Session(next, [], cfg) == Success(next);
      assert next.received == t.received + A.Fed([]);
    } else {
      assert all[0] == cs[0] && all[1..] == cs[1..] + [Drain(now)];
      HandsOver(next, cs[1..], now, cfg);
      var calls, rest := AssemblerCalls(cs), AssemblerCalls(cs[1..]);
      if calls == rest {
        assert next.handed == t.handed && next.received == t.received;
      } else {
        assert calls[1..] == rest;
        A.Reassociate(t.handed, GroupsOf(t.pipe, cs[0], cfg), A.Session(q.assembler, rest, cfg.settle).groups);
        A.Reassociate(t.received, Received(cs[0]), A.Fed(rest));
      }
    }
  }

  /** End to end: whatever the arrival order and however feeds, polls, heartbeats and reconnections
      interleave, a session that is drained and in which nothing came late stores exactly what the
      tracker makes of the received changes grouped by timestamp and sorted. */
  lemma DrainedSessionStoresTheBatch(db: Db, now: real, cs: seq<Call>, end: real, cfg: Config)
    requires Consistent(db) && NoDrain(cs)
    requires Session(Opening(db, now), cs + [Drain(end)], cfg).Success?
    requires A.NoneLate(Session(Opening(db, now), cs + [Drain(end)], cfg).value.handed)
    ensures var done := Session(Opening(db, now), cs + [Drain(end)], cfg).value;
            var batch := ApplyAll(Restart(db).tracker, A.Batch(done.received));
            && done.handed == A.Batch(done.received)
            && batch.Success?
            && SameFacts(done.pipe.db, ApplyOps(db, batch.value.ops))
            && Consistent(done.pipe.db)
  {
    var t0 := Opening(db, now);
    var done := Session(t0, cs + [Drain(end)], cfg).value;
    RepairIsIdle(db);
    SessionIsAccounted(db, now, cs + [Drain(end)], cfg);
    HandsOver(t0, cs, end, cfg);
    var calls := AssemblerCalls(cs);
    assert done.handed == A.Session(A.IDLE, calls, cfg.settle).groups;
    assert done.received == A.Fed(calls);
    A.StreamingEqualsBatch(calls, cfg.settle);
    ApplyAllInStep(Restart(db).tracker, db, done.handed);
  }

  /** The same when changes do come late: what a drained session hands over is, on time, the changes that came
      in time, grouped and sorted, and flagged, call by call, the others; and the tables hold what the
      tracker makes of it all. */
  lemma DrainedSessionHandsOver(db: Db, now: real, cs: seq<Call>, end: real, cfg: Config, done: Trace)
    requires Consistent(db) && NoDrain(cs) && Session(Opening(db, now), cs + [Drain(end)], cfg) == Success(done)
    ensures var calls := AssemblerCalls(cs);
            && done.received == A.Fed(calls)
            && A.OnTime(done.handed) == A.Batch(A.TimelyFed(A.IDLE, calls, cfg.settle))
            && A.Flagged(done.handed) == A.TardyFed(A.IDLE, calls, cfg.settle)
            && ApplyAll(Restart(db).tracker, done.handed).Success?
            && SameFacts(done.pipe.db, ApplyOps(db, ApplyAll(Restart(db).tracker, done.handed).value.ops))
  {
    var t0, calls := Opening(db, now), AssemblerCalls(cs);
    RepairIsIdle(db);
    SessionIsAccounted(db, now, cs + [Drain(end)], cfg);
    HandsOver(t0, cs, end, cfg);
    assert done.handed == A.Session(A.IDLE, calls, cfg.settle).groups;
    A.SessionOutput(calls, cfg.settle);
  }

  // ------------------------------------------------------------ the class

  /** A loop over groups stands before group `i`: what is left decides the outcome. */
  ghost predicate Reached(t0: Tracker, gs: seq<Group>, i: nat, t: Tracker, ops: seq<Op>)
  {
    && i <= |gs|
    && ApplyAll(t0, gs) == match ApplyAll(t, gs[i..])
                           case Failure(e) => Failure(e)
                           case Success(rest) => Success(Step(rest.tracker, ops + rest.ops))
  }

  lemma ReachStart(t: Tracker, gs: seq<Group>)
    ensures Reached(t, gs, 0, t, [])
  {
    assert gs[0..] == gs;
    var all := ApplyAll(t, gs);
    if all.Success? { assert [] + all.value.ops == all.value.ops; }
  }

  lemma ReachEnd(t0: Tracker, gs: seq<Group>, t: Tracker, ops: seq<Op>)
    requires Reached(t0, gs, |gs|, t, ops)
    ensures ApplyAll(t0, gs) == Success(Step(t, ops))
  {
    assert ops + [] == ops;
  }

  lemma ReachNext(t0: Tracker, gs: seq<Group>, i: nat, t: Tracker, ops: seq<Op>)
    requires i < |gs| && Reached(t0, gs, i, t, ops)
    ensures Apply(t, gs[i]).Failure? ==> ApplyAll(t0, gs).Failure?
    ensures Apply(t, gs[i]).Success? ==>
              Reached(t0, gs, i + 1, Apply(t, gs[i]).value.tracker, ops + Apply(t, gs[i]).value.ops)
  {
    assert gs[i..][0] == gs[i] && gs[i..][1..] == gs[i + 1..];
    if Apply(t, gs[i]).Success? {
      var first := Apply(t, gs[i]).value;
      var rest := ApplyAll(first.tracker, gs[i + 1..]);
      if rest.Success? { A.Reassociate(ops, first.ops, rest.value.ops); }
    }
  }

  /** Once the machines have moved, one write is left to do. */
  lemma Transacts(p: Pipe, c: Call, cfg: Config, ready: Pipe, groups: seq<Group>, ops: seq<Op>, all: seq<Op>)
    requires !c.Connect? && (c.Process? ==> c.batch != [])
    requires Handed(p, c, cfg) == A.Output(ready.assembler, groups)
    requires ApplyAll(p.tracker, groups) == Success(Step(ready.tracker, ops))
    requires ready == Prepare(p, c, cfg).pipe.(assembler := ready.assembler, tracker := ready.tracker)
    requires all == Prepare(p, c, cfg).before + ops + Prepare(p, c, cfg).after
    ensures Do(p, c, cfg) == Success(Write(ready, all, Prepare(p, c, cfg).now, Prepare(p, c, cfg).force, cfg))
  {
  }

  lemma TickTransacts(p: Pipe, now: real, cfg: Config, ready: Pipe, groups: seq<Group>, ops: seq<Op>,
                      silent: seq<Op>)
    requires A.Poll(p.assembler, now, cfg.settle) == A.Output(ready.assembler, groups)
    requires ApplyAll(p.tracker, groups) == Success(Step(ready.tracker, ops))
    requires W.Reaction(ready.watch, silent) == W.React(p.watch, W.Poll(now), cfg.lim)
    requires ready == p.(assembler := ready.assembler, tracker := ready.tracker, watch := ready.watch)
    ensures Do(p, Tick(now), cfg) == Success(Write(ready, ops + silent, now, false, cfg))
  {
    var d := Draft(p.(watch := ready.watch), [], silent, now, false);
    TickDrafts(p, now, cfg, d);
    Emits(d, ops, ops + silent);
    Transacts(p, Tick(now), cfg, ready, groups, ops, ops + silent);
  }

  lemma TickDrafts(p: Pipe, now: real, cfg: Config, d: Draft)
    requires W.Reaction(d.pipe.watch, d.after) == W.React(p.watch, W.Poll(now), cfg.lim)
    requires d == Draft(p.(watch := d.pipe.watch), [], d.after, now, false)
    ensures Prepare(p, Tick(now), cfg) == d
  {
  }

  lemma Emits(d: Draft, ops: seq<Op>, all: seq<Op>)
    requires d.before == [] && all == ops + d.after
    ensures all == d.before + ops + d.after
  {
  }

  class Collector {
    const cfg: Config
    const tracker: StopTracker
    const assembler: A.ChangeAssembler
    const watchdog: W.HeartbeatWatchdog
    const store: CollectorStore
    var maxTs: Option<int>
    var writtenTs: Option<int>
    var lastFlush: real
    var firstRun: bool

    ghost predicate Wired()
    {
      assembler.settle == cfg.settle && watchdog.lim == cfg.lim
    }

    function View(): Pipe
      reads this, tracker, assembler, watchdog, store
    {
      Pipe(tracker.View(), assembler.View(), watchdog.View(), store.db, maxTs, writtenTs, lastFlush, firstRun)
    }

    /** Wires the machines from what `resume` returned. */
    constructor (cfg: Config, store: CollectorStore, mem: Memory, lastSeen: Option<int>, openGap: Option<int>,
                 now: real)
      ensures Wired() && this.store == store && fresh(tracker) && fresh(assembler) && fresh(watchdog)
      ensures View() == Pipe(Tracker(mem, map[]), A.IDLE, W.Start(now, lastSeen, openGap), store.db,
                             lastSeen, lastSeen, 0.0, lastSeen.None?)
    {
      this.cfg, this.store := cfg, store;
      tracker := new StopTracker(mem);
      assembler := new A.ChangeAssembler(cfg.settle);
      watchdog := new W.HeartbeatWatchdog(cfg.lim, now, lastSeen, openGap);
      maxTs, writtenTs, lastFlush, firstRun := lastSeen, lastSeen, 0.0, lastSeen.None?;
    }

    method Consume(batch: seq<Change>, now: real) returns (ok: bool)
      requires Wired() && batch != []
      modifies this, tracker, assembler, watchdog, store
      ensures ok <==> Do(old(View()), Process(batch, now), cfg).Success?
      ensures ok ==> Do(old(View()), Process(batch, now), cfg) == Success(View())
    {
      ghost var before := View();
      var heard := HearBatch(batch, now);
      var groups := assembler.FeedChanges(Others(batch), now);
      var applied, tracked := Track(groups);
      if !applied { return false; }
      NoteNewest(batch);
      assert heard + tracked + [] == heard + tracked;
      Transacts(before, Process(batch, now), cfg, View(), groups, tracked, heard + tracked);
      Commit(heard + tracked, now, false);
      ok := true;
    }

    method HearBatch(batch: seq<Change>, now: real) returns (heard: seq<Op>)
      requires Wired() && batch != []
      modifies this`firstRun, watchdog
      ensures var w := if old(firstRun) then W.Seed(old(watchdog.View()), Oldest(batch)) else old(watchdog.View());
              W.Reaction(watchdog.View(), heard) == Heard(w, Beats(batch), now, cfg.lim)
      ensures !firstRun
    {
      if firstRun {
        watchdog.SeedFirst(Oldest(batch));
        firstRun := false;
      }
      heard := Hear(Beats(batch), now);
    }

    method NoteNewest(batch: seq<Change>)
      requires batch != []
      modifies this`maxTs
      ensures maxTs == Some(if old(maxTs).None? then Newest(batch) else Max(old(maxTs).value, Newest(batch)))
    {
      var newest := Newest(batch);
      maxTs := Some(if maxTs.None? then newest else Max(maxTs.value, newest));
    }

    method Hear(beats: seq<int>, now: real) returns (ops: seq<Op>)
      requires Wired()
      modifies watchdog
      ensures W.Reaction(watchdog.View(), ops) == Heard(old(watchdog.View()), beats, now, cfg.lim)
    {
      ops := [];
      assert beats[0..] == beats;
      assert forall r: W.Reaction :: [] + r.ops == r.ops;
      for i := 0 to |beats|
        invariant Heard(old(watchdog.View()), beats, now, cfg.lim).watch
                  == Heard(watchdog.View(), beats[i..], now, cfg.lim).watch
        invariant Heard(old(watchdog.View()), beats, now, cfg.lim).ops
                  == ops + Heard(watchdog.View(), beats[i..], now, cfg.lim).ops
      {
        assert beats[i..][0] == beats[i] && beats[i..][1..] == beats[i + 1..];
        var more := watchdog.OnHeartbeat(beats[i], now);
        ops := ops + more;
      }
    }

    method TickOnce(now: real) returns (ok: bool)
      requires Wired()
      modifies this, tracker, assembler, watchdog, store
      ensures ok <==> Do(old(View()), Tick(now), cfg).Success?
      ensures ok ==> Do(old(View()), Tick(now), cfg) == Success(View())
    {
      ghost var before := View();
      var groups := assembler.PollGroups(now);
      var applied, ops := Track(groups);
      if !applied { return false; }
      var silent := watchdog.PollSilence(now);
      TickTransacts(before, now, cfg, View(), groups, ops, silent);
      Commit(ops + silent, now, false);
      ok := true;
    }

    method DrainOnShutdown(now: real) returns (ok: bool)
      requires Wired()
      modifies this, tracker, assembler, watchdog, store
      ensures ok <==> Do(old(View()), Drain(now), cfg).Success?
      ensures ok ==> Do(old(View()), Drain(now), cfg) == Success(View())
    {
      ghost var before := View();
      var groups := assembler.FlushGroups();
      var applied, ops := Track(groups);
      if !applied { return false; }
      Transacts(before, Drain(now), cfg, View(), groups, ops, ops);
      Commit(ops, now, true);
      ok := true;
    }

    method Track(groups: seq<Group>) returns (ok: bool, ops: seq<Op>)
      modifies tracker
      ensures ok <==> ApplyAll(old(tracker.View()), groups).Success?
      ensures ok ==> ApplyAll(old(tracker.View()), groups) == Success(Step(tracker.View(), ops))
    {
      ops := [];
      ghost var t0 := tracker.View();
      ReachStart(t0, groups);
      for i := 0 to |groups|
        invariant Reached(t0, groups, i, tracker.View(), ops)
      {
        ReachNext(t0, groups, i, tracker.View(), ops);
        var r := tracker.ApplyGroup(groups[i]);
        if r.Failure? { return false, []; }
        ops := ops + r.value;
      }
      ReachEnd(t0, groups, tracker.View(), ops);
      ok := true;
    }

    /** Never past the oldest change still waiting in the assembler. */
    method SafeMark() returns (seen: Option<int>)
      ensures seen == SafeLastSeen(maxTs, assembler.View())
    {
      if maxTs.None? { return None; }
      var oldest := assembler.OldestPending();
      seen := if oldest.Some? then Some(Min(maxTs.value, oldest.value - 1)) else maxTs;
    }

    method Commit(ops: seq<Op>, now: real, force: bool)
      modifies this, store
      ensures View() == Write(old(View()), ops, now, force, cfg)
    {
      var seen := SafeMark();
      var due := now - lastFlush >= cfg.flushEvery;
      var newer := seen.Some? && (writtenTs.None? || seen.value > writtenTs.value);
      var mark := if newer && (ops != [] || due || force) then seen else None;
      if ops == [] && mark.None? { return; }
      store.Apply(ops, mark);
      if mark.Some? {
        writtenTs := mark;
        lastFlush := now;
      }
    }
  }
}
