/** Whole-run theorems about restarts, redelivery and the operation log. */
module Transparency {
  import opened Basics
  import opened Facts
  import opened Tracking
  import opened Storage
  import opened History
  import opened Restarting

  // ------------------------------------------------------------ restarts at any commit

  /** One transaction: apply a batch of groups and commit its operations. */
  function Commit(l: Live, gs: seq<Group>): Result<Live> {
    match ApplyAll(l.tracker, gs)
    case Failure(e) => Failure(e)
    case Success(step) => Success(Live(step.tracker, ApplyOps(l.db, step.ops)))
  }

  /** A crash after a commit: a new tracker resumes from the database, and the new subscription
      replays the server's current values. */
  function Resubscribe(db: Db, image: Latest): Result<Live> { Commit(Restart(db), Replay(image)) }

  /** Every segment is a transaction followed by a crash and a restart. */
  function Interrupted(l: Live, image: Latest, segments: seq<seq<Group>>): Result<Live>
    decreases |segments|
  {
    if segments == [] then Success(l)
    else match Commit(l, segments[0])
      case Failure(e) => Failure(e)
      case Success(committed) =>
        var now := Image(image, segments[0]);
        match Resubscribe(committed.db, now)
        case Failure(e) => Failure(e)
        case Success(back) => Interrupted(back, now, segments[1..])
  }

  function Flatten<T>(xs: seq<seq<T>>): seq<T> {
    if xs == [] then [] else xs[0] + Flatten(xs[1..])
  }

  /** Splitting a stream into transactions does not change what ends up stored. */
  lemma CommitAppend(l: Live, a: seq<Group>, b: seq<Group>)
    requires Commit(l, a + b).Success?
    ensures Commit(l, a).Success? && Commit(Commit(l, a).value, b) == Commit(l, a + b)
  {
    ApplyAllAppend(l.tracker, a, b);
    var first := ApplyAll(l.tracker, a).value;
    ApplyOpsAppend(l.db, first.ops, ApplyAll(first.tracker, b).value.ops);
  }

  /** The tracker of an ordered stream: settled, and knowing exactly the server's current values. */
  ghost predicate Current(t: Tracker, image: Latest) {
    Settled(t) && t.latest == image && Heartbeat !in image
  }

  ghost predicate Future(t: Tracker, gs: seq<Group>) {
    Ordered(gs) && (gs != [] ==> OlderThan(t.latest, gs[0].ts))
  }

  lemma {:induction false} StreamStaysCurrent(t: Tracker, image: Latest, gs: seq<Group>, later: seq<Group>)
    requires Current(t, image) && Future(t, gs + later)
    requires ApplyAll(t, gs).Success?
    ensures var after := ApplyAll(t, gs).value.tracker;
            Current(after, Image(image, gs)) && Future(after, later)
    decreases |gs|
  {
    if gs == [] {
      assert gs + later == later;
    } else {
      assert (gs + later)[0] == gs[0] && (gs + later)[1..] == gs[1..] + later;
      var next := AfterFirst(t, gs, ApplyAll(t, gs).value.tracker);
      NextIsCurrent(t, image, gs[0], next);
      FutureTail(t, gs + later);
      ImageTail(image, gs, next.latest);
      StreamStaysCurrent(next, next.latest, gs[1..], later);
    }
  }

  lemma NextIsCurrent(t: Tracker, image: Latest, g: Group, next: Tracker)
    requires Current(t, image) && OlderThan(t.latest, g.ts)
    requires Apply(t, g).Success? && next == Apply(t, g).value.tracker
    ensures Current(next, Image(image, [g]))
  {
    ApplySettles(t, g);
  }

  lemma ImageTail(image: Latest, gs: seq<Group>, next: Latest)
    requires gs != [] && next == Image(image, [gs[0]])
    ensures Image(image, gs) == Image(next, gs[1..])
  {
    assert [gs[0]][1..] == [];
  }

  /** Restart transparency: however often the collector crashes and resubscribes, an ordered stream
      leaves the same tracker and the same database as if it had never stopped. */
  lemma {:induction false} RestartsAreInvisible(l: Live, image: Latest, segments: seq<seq<Group>>)
    requires Sound(l) && Current(l.tracker, image) && Future(l.tracker, Flatten(segments))
    requires Commit(l, Flatten(segments)).Success?
    ensures Interrupted(l, image, segments) == Commit(l, Flatten(segments))
    decreases |segments|
  {
    if segments != [] {
      var first, rest := segments[0], Flatten(segments[1..]);
      CommitAppend(l, first, rest);
      var committed := Commit(l, first).value;
      StreamStaysCurrent(l.tracker, image, first, rest);
      ApplyAllInStep(l.tracker, l.db, first);
      RepairIsIdle(committed.db);
      ReplaySilentIff(committed.tracker);
      RestartsAreInvisible(committed, Image(image, first), segments[1..]);
    }
  }

  /** The same from a collector that has just started, on any database it wrote. */
  lemma RestartTransparency(db: Db, segments: seq<seq<Group>>)
    requires Consistent(db) && Ordered(Flatten(segments))
    requires Commit(Restart(db), Flatten(segments)).Success?
    ensures Interrupted(Restart(db), map[], segments) == Commit(Restart(db), Flatten(segments))
  {
    RepairIsIdle(db);
    RestartsAreInvisible(Restart(db), map[], segments);
  }

  // ------------------------------------------------------------ redelivery

  ghost predicate FullImage(g: Group) {
    && (forall tag :: tag in CELL_TAGS ==> tag in g.values)
    && (forall st :: StationState(st) in g.values && StationFault(st) in g.values)
    && (forall tag :: tag in {Good, Scrap, CycleTime, LastCycle} ==> tag in g.values)
    && (forall tag :: tag in {WeldCurrent, WeldPoints, WeldOk} ==> tag in g.values)
  }

  /** Whatever a group can still bring is already stored, part by part. */
  ghost predicate CellAbsorbs(mem: Memory, latest: Latest) {
    && CellKnown(latest) && mem.lastCell.Some?
    && (mem.lastCell.value.row == CellValues(latest)
        || forall tag :: tag in CELL_TAGS ==> latest[tag].ts <= mem.lastCell.value.ts)
  }

  ghost predicate StationAbsorbs(mem: Memory, latest: Latest, st: Station) {
    && StationKnown(latest, st) && st in mem.lastStation
    && (mem.lastStation[st].row == StationValues(latest, st)
        || (latest[StationState(st)].ts <= mem.lastStation[st].ts
            && latest[StationFault(st)].ts <= mem.lastStation[st].ts))
  }

  ghost predicate CounterAbsorbs(mem: Memory, latest: Latest) {
    && CounterKnown(latest) && mem.lastCounter.Some?
    && latest[Good].ts <= mem.lastCounter.value && latest[Scrap].ts <= mem.lastCounter.value
  }

  ghost predicate WeldAbsorbs(mem: Memory, latest: Latest) {
    WeldKnown(latest) && mem.lastWeld.Some? && latest[WeldCurrent].ts <= mem.lastWeld.value
  }

  ghost predicate SamplesAbsorb(mem: Memory, latest: Latest) { CounterAbsorbs(mem, latest) && WeldAbsorbs(mem, latest) }

  ghost predicate Absorbing(t: Tracker) {
    CellAbsorbs(t.mem, t.latest) && (forall st :: StationAbsorbs(t.mem, t.latest, st)) && SamplesAbsorb(t.mem, t.latest)
  }

  /** The tracker has seen this group: every value it carries is known, or superseded. */
  ghost predicate Delivered(t: Tracker, g: Group) {
    forall tag :: tag in Changed(g) ==>
                    tag in t.latest && (g.ts < t.latest[tag].ts || t.latest[tag] == Known(g.ts, g.values[tag]))
  }

  ghost predicate AllDelivered(t: Tracker, gs: seq<Group>) { forall g :: g in gs ==> Delivered(t, g) }

  lemma NotNewer(t: Tracker, g: Group, tags: set<Tag>)
    requires Delivered(t, g) && Changed(g) * tags != {}
    ensures exists tag :: tag in tags && tag in t.latest && g.ts <= t.latest[tag].ts
  {
    TagsInhabited(Changed(g) * tags);
    var tag :| tag in Changed(g) * tags;
    assert tag in tags && g.ts <= t.latest[tag].ts;
  }

  lemma RedeliveryIsSilent(t: Tracker, g: Group)
    requires Absorbing(t) && Delivered(t, g)
    ensures Apply(t, g) == Success(Step(t, []))
  {
    var changed := Changed(g);
    assert Learn(t.latest, g) == t.latest;
    assert CellPart(t.mem, t.latest, g.ts, changed) == Success(Outcome(t.mem, [])) by {
      if changed * CELL_TAGS != {} { NotNewer(t, g, CELL_TAGS); }
    }
    forall st ensures StationPart(t.mem, t.latest, g.ts, changed, st).ops == [] {
      assert StationAbsorbs(t.mem, t.latest, st);
      if changed * {StationState(st), StationFault(st)} != {} { NotNewer(t, g, {StationState(st), StationFault(st)}); }
    }
    StationPartsSilent(t.mem, t.latest, g.ts, changed);
    assert CounterPart(t.mem, t.latest, g.ts, changed) == Outcome(t.mem, []) by {
      if changed * {Good, Scrap} != {} { NotNewer(t, g, {Good, Scrap}); }
    }
    assert WeldPart(t.mem, t.latest, g.ts, changed) == Outcome(t.mem, []);
  }

  lemma {:induction false} RedeliveriesAreSilent(t: Tracker, again: seq<Group>)
    requires Absorbing(t) && forall g :: g in again ==> Delivered(t, g)
    ensures ApplyAll(t, again) == Success(Step(t, []))
    decreases |again|
  {
    if again != [] {
      RedeliveryIsSilent(t, again[0]);
      RedeliveriesAreSilent(t, again[1..]);
    }
  }

  lemma LearntUpTo(latest: Latest, g: Group)
    requires latest == map[] || OlderThan(latest, g.ts)
    ensures forall tag :: tag in Learn(latest, g) ==> Learn(latest, g)[tag].ts <= g.ts
  {
  }

  lemma CellIsAbsorbed(t: Tracker, g: Group)
    requires (t.latest == map[] && FullImage(g)) || (CellAbsorbs(t.mem, t.latest) && OlderThan(t.latest, g.ts))
    requires Apply(t, g).Success?
    ensures CellAbsorbs(Apply(t, g).value.tracker.mem, Learn(t.latest, g))
  {
    CellPartAbsorbs(t, g, Learn(t.latest, g), Changed(g));
    CellMemory(t, g);
  }

  lemma CellPartAbsorbs(t: Tracker, g: Group, latest: Latest, changed: set<Tag>)
    requires (t.latest == map[] && FullImage(g)) || (CellAbsorbs(t.mem, t.latest) && OlderThan(t.latest, g.ts))
    requires latest == Learn(t.latest, g) && changed == Changed(g)
    requires CellPart(t.mem, latest, g.ts, changed).Success?
    ensures CellAbsorbs(CellPart(t.mem, latest, g.ts, changed).value.mem, latest)
  {
    LearntUpTo(t.latest, g);
    if changed * CELL_TAGS == {} {
      assert CellState !in changed && CellFault !in changed && CellOrigin !in changed;
      assert t.latest != map[];
    }
  }

  lemma StationIsAbsorbed(t: Tracker, g: Group, st: Station)
    requires (t.latest == map[] && FullImage(g)) || (StationAbsorbs(t.mem, t.latest, st) && OlderThan(t.latest, g.ts))
    requires Apply(t, g).Success?
    ensures StationAbsorbs(Apply(t, g).value.tracker.mem, Learn(t.latest, g), st)
  {
    var latest, changed, tags := Learn(t.latest, g), Changed(g), {StationState(st), StationFault(st)};
    var out := StationPart(t.mem, latest, g.ts, changed, st);
    assert forall tag :: tag in latest ==> latest[tag].ts <= g.ts;
    assert StationState(st) in tags && StationFault(st) in tags;
    assert t.latest == map[] ==> StationState(st) in changed * tags;
    assert StationAbsorbs(out.mem, latest, st) by {
      if changed * tags == {} {
        assert latest[StationState(st)] == t.latest[StationState(st)];
        assert latest[StationFault(st)] == t.latest[StationFault(st)];
      }
    }
    StationsMemory(t, g, st);
  }

  lemma CounterIsAbsorbed(t: Tracker, g: Group)
    requires (t.latest == map[] && FullImage(g)) || (CounterAbsorbs(t.mem, t.latest) && OlderThan(t.latest, g.ts))
    requires Apply(t, g).Success?
    ensures CounterAbsorbs(Apply(t, g).value.tracker.mem, Learn(t.latest, g))
  {
    CounterPartAbsorbs(t, g, Learn(t.latest, g), Changed(g));
    SamplesMemory(t, g);
  }

  lemma CounterPartAbsorbs(t: Tracker, g: Group, latest: Latest, changed: set<Tag>)
    requires (t.latest == map[] && FullImage(g)) || (CounterAbsorbs(t.mem, t.latest) && OlderThan(t.latest, g.ts))
    requires latest == Learn(t.latest, g) && changed == Changed(g)
    ensures CounterAbsorbs(CounterPart(t.mem, latest, g.ts, changed).mem, latest)
  {
    LearntUpTo(t.latest, g);
    assert Good in {Good, Scrap} && Scrap in {Good, Scrap};
    if t.latest == map[] { assert Good in changed * {Good, Scrap}; }
  }

  lemma WeldIsAbsorbed(t: Tracker, g: Group)
    requires (t.latest == map[] && FullImage(g)) || (WeldAbsorbs(t.mem, t.latest) && OlderThan(t.latest, g.ts))
    requires Apply(t, g).Success?
    ensures WeldAbsorbs(Apply(t, g).value.tracker.mem, Learn(t.latest, g))
  {
    WeldPartAbsorbs(t, g, Learn(t.latest, g), Changed(g));
    SamplesMemory(t, g);
  }

  lemma WeldPartAbsorbs(t: Tracker, g: Group, latest: Latest, changed: set<Tag>)
    requires (t.latest == map[] && FullImage(g)) || (WeldAbsorbs(t.mem, t.latest) && OlderThan(t.latest, g.ts))
    requires latest == Learn(t.latest, g) && changed == Changed(g)
    ensures WeldAbsorbs(WeldPart(t.mem, latest, g.ts, changed).mem, latest)
  {
    LearntUpTo(t.latest, g);
    if t.latest == map[] { assert WeldCurrent in changed; }
  }

  lemma ApplyAbsorbs(t: Tracker, g: Group)
    requires (t.latest == map[] && FullImage(g)) || (Absorbing(t) && OlderThan(t.latest, g.ts))
    requires Apply(t, g).Success?
    ensures Absorbing(Apply(t, g).value.tracker)
  {
    CellIsAbsorbed(t, g);
    forall st ensures StationAbsorbs(Apply(t, g).value.tracker.mem, Learn(t.latest, g), st) {
      StationIsAbsorbed(t, g, st);
    }
    CounterIsAbsorbed(t, g);
    WeldIsAbsorbed(t, g);
  }

  lemma DeliveredStays(t: Tracker, g: Group, old_: Group)
    requires OlderThan(t.latest, g.ts) && Delivered(t, old_) && Apply(t, g).Success?
    ensures Delivered(Apply(t, g).value.tracker, old_)
  {
    forall tag | tag in Changed(old_)
      ensures var l := Apply(t, g).value.tracker.latest;
              tag in l && (old_.ts < l[tag].ts || l[tag] == Known(old_.ts, old_.values[tag]))
    {
      assert tag in t.latest;
    }
  }

  lemma FutureTail(t: Tracker, gs: seq<Group>)
    requires Future(t, gs) && gs != [] && Apply(t, gs[0]).Success?
    ensures Future(Apply(t, gs[0]).value.tracker, gs[1..])
  {
    LearnNewest(t.latest, gs[0]);
    forall i, j | 0 <= i < j < |gs[1..]| ensures gs[1..][i].ts < gs[1..][j].ts {}
  }

  /** A tracker with nothing left to learn from what it has seen, which the rest of the stream makes `last`. */
  ghost predicate Absorbed(t: Tracker, seen: seq<Group>, rest: seq<Group>, last: Tracker) {
    && Absorbing(t) && AllDelivered(t, seen) && Future(t, rest)
    && ApplyAll(t, rest).Success? && last == ApplyAll(t, rest).value.tracker
  }

  lemma {:induction false} StreamAbsorbs(t: Tracker, seen: seq<Group>, gs: seq<Group>, last: Tracker)
    requires Absorbed(t, seen, gs, last)
    ensures Absorbed(last, seen + gs, [], last)
    decreases |gs|
  {
    if gs == [] {
      assert seen + gs == seen;
    } else {
      var next := NextAbsorbs(t, seen, gs, last);
      assert seen + gs == (seen + [gs[0]]) + gs[1..];
      StreamAbsorbs(next, seen + [gs[0]], gs[1..], last);
    }
  }

  lemma NextAbsorbs(t: Tracker, seen: seq<Group>, gs: seq<Group>, last: Tracker) returns (next: Tracker)
    requires gs != [] && Absorbed(t, seen, gs, last)
    ensures Absorbed(next, seen + [gs[0]], gs[1..], last)
  {
    next := AfterFirst(t, gs, last);
    ApplyAbsorbs(t, gs[0]);
    FutureTail(t, gs);
    OneMoreDelivered(t, seen, gs[0], next, seen + [gs[0]]);
  }

  lemma OneMoreDelivered(t: Tracker, seen: seq<Group>, g: Group, next: Tracker, more: seq<Group>)
    requires OlderThan(t.latest, g.ts) && Apply(t, g).Success? && next == Apply(t, g).value.tracker
    requires AllDelivered(t, seen) && more == seen + [g]
    ensures AllDelivered(next, more)
  {
    forall old_ | old_ in more ensures Delivered(next, old_) {
      if old_ in seen { DeliveredStays(t, g, old_); } else { DeliveredItself(t, g); }
    }
  }

  lemma DeliveredItself(t: Tracker, g: Group)
    requires OlderThan(t.latest, g.ts) && Apply(t, g).Success?
    ensures Delivered(Apply(t, g).value.tracker, g)
  {
    assert forall tag :: tag in Changed(g) ==>
             tag in Learn(t.latest, g) && Learn(t.latest, g)[tag] == Known(g.ts, g.values[tag]);
  }

  /** After an ordered stream that begins with a full image, delivering again any of its groups, in
      any order and any number of times, emits no operation and leaves the tracker unchanged. */
  lemma RedeliveryIsInvisible(mem: Memory, gs: seq<Group>, again: seq<Group>)
    requires gs != [] && FullImage(gs[0]) && Ordered(gs)
    requires forall g :: g in again ==> g in gs
    requires ApplyAll(Tracker(mem, map[]), gs).Success?
    ensures var after := ApplyAll(Tracker(mem, map[]), gs).value.tracker;
            ApplyAll(after, again) == Success(Step(after, []))
  {
    var t := Tracker(mem, map[]);
    var last := ApplyAll(t, gs).value.tracker;
    StreamIsDelivered(t, gs, last);
    RedeliveriesAreSilent(last, again);
  }

  lemma StreamIsDelivered(t: Tracker, gs: seq<Group>, last: Tracker)
    requires t.latest == map[] && gs != [] && FullImage(gs[0]) && Ordered(gs)
    requires ApplyAll(t, gs).Success? && last == ApplyAll(t, gs).value.tracker
    ensures Absorbing(last) && AllDelivered(last, gs)
  {
    var first := AfterFirst(t, gs, last);
    FirstIsDelivered(t, gs, first);
    DeliveredFrom(first, gs, last);
  }

  lemma AfterFirst(t: Tracker, gs: seq<Group>, last: Tracker) returns (first: Tracker)
    requires gs != [] && ApplyAll(t, gs).Success? && last == ApplyAll(t, gs).value.tracker
    ensures Apply(t, gs[0]).Success? && first == Apply(t, gs[0]).value.tracker
    ensures ApplyAll(first, gs[1..]).Success? && last == ApplyAll(first, gs[1..]).value.tracker
  {
    first := Apply(t, gs[0]).value.tracker;
  }

  lemma DeliveredFrom(first: Tracker, gs: seq<Group>, last: Tracker)
    requires gs != [] && Absorbing(first) && Future(first, gs[1..]) && Delivered(first, gs[0])
    requires ApplyAll(first, gs[1..]).Success? && last == ApplyAll(first, gs[1..]).value.tracker
    ensures Absorbing(last) && AllDelivered(last, gs)
  {
    assert gs == [gs[0]] + gs[1..];
    StreamAbsorbs(first, [gs[0]], gs[1..], last);
  }

  lemma FirstIsDelivered(t: Tracker, gs: seq<Group>, first: Tracker)
    requires t.latest == map[] && gs != [] && FullImage(gs[0]) && Ordered(gs)
    requires Apply(t, gs[0]).Success? && first == Apply(t, gs[0]).value.tracker
    ensures Absorbing(first) && Future(first, gs[1..]) && Delivered(first, gs[0])
  {
    ApplyAbsorbs(t, gs[0]);
    FutureTail(t, gs);
    DeliveredItself(t, gs[0]);
  }

  // ------------------------------------------------------------ the operation log is idempotent

  /** The operation has had its effect, for good. */
  ghost predicate Done(db: Db, op: Op) {
    match op
    case CellEvent(ts, _) => ts in db.cell
    case StationEvent(st, ts, _) => ts in StationRows(db.stations, st)
    case OpenStop(start, _, _, _, _) => start in db.stops
    case CloseStop(start, _) => start in db.stops && db.stops[start].end.Some?
    case CounterSample(ts, _) => ts in db.counters
    case WeldSample(ts, _) => ts in db.welds
    case OpenGap(start) => start in db.gaps
    case CloseGap(start, _) => start in db.gaps && db.gaps[start].Some?
    case ClosedGap(start, _) => start in db.gaps
  }

  lemma DonePersists(db: Db, op: Op, other: Op)
    requires Done(db, op)
    ensures Done(ApplyOp(db, other), op)
  {
  }

  lemma {:induction false} DonePersistsAll(db: Db, op: Op, ops: seq<Op>)
    requires Done(db, op)
    ensures Done(ApplyOps(db, ops), op)
    decreases |ops|
  {
    if ops != [] {
      DonePersists(db, op, ops[0]);
      DonePersistsAll(ApplyOp(db, ops[0]), op, ops[1..]);
    }
  }

  lemma {:induction false} DoneLogIsIdle(db: Db, again: seq<Op>)
    requires forall op :: op in again ==> Done(db, op)
    ensures ApplyOps(db, again) == db
    decreases |again|
  {
    if again != [] {
      var op := again[0];
      assert Done(db, op);
      assert ApplyOp(db, op) == db;
      DoneLogIsIdle(db, again[1..]);
    }
  }

  /** Operations have their effect as soon as they are written: a stop is closed while it is open. */
  ghost predicate Effective(db: Db, ops: seq<Op>) {
    forall op :: op in ops ==> Done(ApplyOps(db, ops), op)
  }

  lemma EffectiveAppend(db: Db, a: seq<Op>, b: seq<Op>)
    requires Effective(db, a) && Effective(ApplyOps(db, a), b)
    ensures Effective(db, a + b)
  {
    ApplyOpsAppend(db, a, b);
    forall op | op in a + b ensures Done(ApplyOps(db, a + b), op) {
      if op in a { DonePersistsAll(ApplyOps(db, a), op, b); }
    }
  }

  lemma CellEffective(mem: Memory, db: Db, latest: Latest, ts: int, changed: set<Tag>)
    requires InStep(mem, db) && CellPart(mem, latest, ts, changed).Success?
    ensures Effective(db, CellPart(mem, latest, ts, changed).value.ops)
  {
    var out := CellPart(mem, latest, ts, changed).value;
    if out.ops != [] { TransitionEffective(mem, db, ts, CellValues(latest), out.ops); }
  }

  lemma TransitionEffective(mem: Memory, db: Db, ts: int, row: CellRow, ops: seq<Op>)
    requires InStep(mem, db) && (mem.lastCell.Some? ==> mem.lastCell.value.ts < ts)
    requires Transition(mem, ts, row).Success? && ops == Transition(mem, ts, row).value.ops
    ensures Effective(db, ops)
  {
    var after := ApplyOps(db, ops);
    TransitionTables(mem, db, ts, row);
    OpenIsLatest(db);
    assert mem.openStop.Some? ==> mem.openStop.value in OpenStarts(db.stops) && mem.openStop.value < ts;
    forall op | op in ops ensures Done(after, op) {
      TransitionOp(mem, ts, row, op);
      SwitchedIsDone(db, after, mem.openStop, ts, row, op);
    }
  }

  /** The three operations a transition can emit. */
  ghost predicate Switches(was: Option<int>, ts: int, row: CellRow, op: Op) {
    || op == CellEvent(ts, row)
    || (was.Some? && op == CloseStop(was.value, ts))
    || (row.state != PRODUCING && op.OpenStop? && op.start == ts)
  }

  lemma TransitionOp(mem: Memory, ts: int, row: CellRow, op: Op)
    requires Transition(mem, ts, row).Success? && op in Transition(mem, ts, row).value.ops
    ensures Switches(mem.openStop, ts, row, op)
  {
  }

  lemma SwitchedIsDone(db: Db, after: Db, was: Option<int>, ts: int, row: CellRow, op: Op)
    requires after == db.(cell := Insert(db.cell, ts, row), stops := Switched(db.stops, was, ts, row))
    requires was.Some? ==> was.value in OpenStarts(db.stops) && was.value < ts
    requires Switches(was, ts, row, op)
    ensures Done(after, op)
  {
  }

  lemma {:induction false} StationsEffective(mem: Memory, db: Db, latest: Latest, ts: int, changed: set<Tag>, n: nat)
    requires n <= 3
    ensures Effective(db, StationParts(mem, latest, ts, changed, n).ops)
  {
    if n > 0 {
      StationsEffective(mem, db, latest, ts, changed, n - 1);
      var before := StationParts(mem, latest, ts, changed, n - 1);
      var here := StationPart(before.mem, latest, ts, changed, STATIONS[n - 1]);
      var mid := ApplyOps(db, before.ops);
      if here.ops != [] { ApplyOne(mid, here.ops[0]); }
      EffectiveAppend(db, before.ops, here.ops);
    }
  }

  lemma SamplesEffective(mem: Memory, db: Db, latest: Latest, ts: int, changed: set<Tag>)
    ensures Effective(db, CounterPart(mem, latest, ts, changed).ops)
    ensures Effective(db, WeldPart(mem, latest, ts, changed).ops)
  {
    var counter, weld := CounterPart(mem, latest, ts, changed).ops, WeldPart(mem, latest, ts, changed).ops;
    if counter != [] { ApplyOne(db, counter[0]); }
    if weld != [] { ApplyOne(db, weld[0]); }
  }

  lemma ApplyEffective(t: Tracker, db: Db, g: Group)
    requires InStep(t.mem, db) && Apply(t, g).Success?
    ensures Effective(db, Apply(t, g).value.ops)
  {
    var changed, latest := Changed(g), Learn(t.latest, g);
    var cell := CellPart(t.mem, latest, g.ts, changed).value;
    CellEffective(t.mem, db, latest, g.ts, changed);
    var stations := StationParts(cell.mem, latest, g.ts, changed, 3);
    StationsEffective(cell.mem, ApplyOps(db, cell.ops), latest, g.ts, changed, 3);
    EffectiveAppend(db, cell.ops, stations.ops);
    var counter := CounterPart(stations.mem, latest, g.ts, changed);
    SamplesEffective(stations.mem, ApplyOps(db, cell.ops + stations.ops), latest, g.ts, changed);
    EffectiveAppend(db, cell.ops + stations.ops, counter.ops);
    var weld := WeldPart(counter.mem, latest, g.ts, changed);
    SamplesEffective(counter.mem, ApplyOps(db, cell.ops + stations.ops + counter.ops), latest, g.ts, changed);
    EffectiveAppend(db, cell.ops + stations.ops + counter.ops, weld.ops);
  }

  lemma {:induction false} ApplyAllEffective(t: Tracker, db: Db, gs: seq<Group>)
    requires InStep(t.mem, db) && ApplyAll(t, gs).Success?
    ensures Effective(db, ApplyAll(t, gs).value.ops)
    decreases |gs|
  {
    if gs != [] {
      ApplyEffective(t, db, gs[0]);
      ApplyInStep(t, db, gs[0]);
      var first := Apply(t, gs[0]).value;
      ApplyAllEffective(first.tracker, ApplyOps(db, first.ops), gs[1..]);
      EffectiveAppend(db, first.ops, ApplyAll(first.tracker, gs[1..]).value.ops);
    }
  }

  /** Every operation committed over a run. */
  function Log(l: Live, es: seq<Event>): seq<Op>
    decreases |es|
  {
    if es == [] then []
    else
      var here := if es[0].Deliver? && ApplyAll(l.tracker, es[0].groups).Success?
                  then ApplyAll(l.tracker, es[0].groups).value.ops else [];
      here + Log(Next(l, es[0]), es[1..])
  }

  lemma {:induction false} RunIsItsLog(l: Live, es: seq<Event>)
    requires Sound(l)
    ensures Run(l, es).db == ApplyOps(l.db, Log(l, es)) && Effective(l.db, Log(l, es))
    decreases |es|
  {
    if es != [] {
      var e, next := es[0], Next(l, es[0]);
      NextKeepsSound(l, e);
      RepairIsIdle(l.db);
      RunIsItsLog(next, es[1..]);
      var here := if e.Deliver? && ApplyAll(l.tracker, e.groups).Success?
                  then ApplyAll(l.tracker, e.groups).value.ops else [];
      if here != [] { ApplyAllEffective(l.tracker, l.db, e.groups); }
      assert next.db == ApplyOps(l.db, here);
      ApplyOpsAppend(l.db, here, Log(next, es[1..]));
      EffectiveAppend(l.db, here, Log(next, es[1..]));
    }
  }

  /** Writing again any of the operations of a run, in any order, changes nothing in its database. */
  lemma LogIsIdempotent(l: Live, es: seq<Event>, again: seq<Op>)
    requires Sound(l) && forall op :: op in again ==> op in Log(l, es)
    ensures ApplyOps(Run(l, es).db, again) == Run(l, es).db
  {
    RunIsItsLog(l, es);
    DoneLogIsIdle(Run(l, es).db, again);
  }
}
