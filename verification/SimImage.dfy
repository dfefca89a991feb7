/** The published image tells the truth about the cell, in every reachable state: what a client reads is what is. */
module SimImage {
  import opened Basics
  import opened Facts
  import opened Shifts
  import opened Simulator
  import opened SimLaws
  import opened SimLog
  import opened SimRuns
  import opened Wear
  import opened SimStops

  // ------------------------------------------------------------ what the tags should say

  /** The counters: good and scrapped parts, heartbeat, weld points since the last cap change, theoretical cycle. */
  ghost predicate CountersShown(cfg: Config, image: Image, c: Cell) {
    && HasCellTags(image)
    && image[Good] == I(c.good % 0x1_0000_0000) && image[Scrap] == I(c.scrap % 0x1_0000_0000)
    && image[Heartbeat] == I(c.heartbeat % 0x1_0000_0000)
    && image[WeldPoints] == I(c.pointsSinceCap % 0x1_0000_0000)
    && image[CycleTime] == R(cfg.theoretical)
  }

  /** The fault code is shown by the cell and by the faulty station, and no other station has one. */
  ghost predicate FaultShown(image: Image, code: int) {
    && HasStateTags(image) && image[CellFault] == I(code)
    && forall st: Station ::
         image[StationFault(st)] == I(if StationOfFault(code) == Some(AtStation(st)) then code else 0)
  }

  /** The cell and all its stations show the state; only a manual recovery is not in automatic mode. */
  ghost predicate StateShown(image: Image, st: State) {
    && HasStateTags(image) && image[CellState] == I(Code(st))
    && (forall at: Station :: image[StationState(at)] == I(Code(st)))
    && image[CellMode] == I(if st.Manual? then 2 else 1)
  }

  /** The origin shown, read as a collector reads it: where the stop comes from. */
  ghost predicate OriginShown(origin: TagValue, st: State, code: int) {
    match st
    case Producing => origin == I(0)
    case PlannedStop => origin == I(99)
    case Setup => StationOfOrigin(origin.ToInt()) == AtStation(OP20)
    case Starved => StationOfOrigin(origin.ToInt()) == AtStation(OP10)
    case Blocked => StationOfOrigin(origin.ToInt()) == AtStation(OP30)
    case Fault => StationOfFault(code).Some? ==> StationOfFault(code) == Some(StationOfOrigin(origin.ToInt()))
    case Manual => true
  }

  /** The fault the cell is in, if it is in one: that whose end is queued. */
  ghost predicate InFault(s: Sim, code: int) {
    if s.cell.state.Fault? then exists e :: e in s.heap && Current(s, e) && e.kind == StopEnd(FaultStop(code))
    else code == 0
  }

  ghost predicate Truthful(cfg: Config, s: Sim) {
    && CountersShown(cfg, s.image, s.cell) && StateShown(s.image, s.cell.state)
    && exists code :: InFault(s, code) && FaultShown(s.image, code)
                      && OriginShown(s.image[CellOrigin], s.cell.state, code)
  }

  // ------------------------------------------------------------ writing

  predicate OfState(tag: Tag) {
    tag.CellState? || tag.CellMode? || tag.CellFault? || tag.CellOrigin? || tag.StationState? || tag.StationFault?
  }

  lemma OneWrite(s: Sim, tag: Tag, v: TagValue)
    ensures SetTag(s, tag, v).image == s.image[tag := Coerce(tag, v)]
  {
  }

  ghost predicate OncePerTag(ws: Writes) { forall j, k :: 0 <= j < k < |ws| ==> ws[j].0 != ws[k].0 }

  ghost predicate WritesTo(ws: Writes, tag: Tag) { exists k :: 0 <= k < |ws| && ws[k].0 == tag }

  /** Each write is shown, coerced to the type of its tag, and no other tag moves. */
  ghost predicate Written(before: Image, ws: Writes, after: Image) {
    && (forall k :: 0 <= k < |ws| ==> ws[k].0 in after && after[ws[k].0] == Coerce(ws[k].0, ws[k].1))
    && (forall tag :: tag in before && !WritesTo(ws, tag) ==> tag in after && after[tag] == before[tag])
  }

  lemma {:induction false} PublishWrites(s: Sim, ws: Writes)
    requires OncePerTag(ws)
    ensures Written(s.image, ws, Publish(s, ws).image)
    decreases |ws|
  {
    if ws != [] {
      var s1, rest, after := SetTag(s, ws[0].0, ws[0].1), ws[1..], Publish(s, ws).image;
      OneWrite(s, ws[0].0, ws[0].1);
      PublishWrites(s1, rest);
      assert forall k :: 0 <= k < |rest| ==> rest[k] == ws[k + 1];
      assert !WritesTo(rest, ws[0].0);
      forall tag | tag in s.image && !WritesTo(ws, tag) ensures tag in after && after[tag] == s.image[tag] {
        assert ws[0].0 != tag && !WritesTo(rest, tag);
      }
    }
  }

  ghost predicate Lists(ws: Writes, st: State, code: int, mode: int, origin: int) {
    |ws| == STATE_WRITES && forall k :: 0 <= k < STATE_WRITES ==> ws[k] == StateWrite(k, st, code, mode, origin)
  }

  lemma {:induction false} StateIsWrites(s: Sim, i: nat, st: State, code: int, mode: int, origin: int, ws: Writes)
    requires i <= STATE_WRITES && Lists(ws, st, code, mode, origin)
    ensures PublishState(s, i, st, code, mode, origin) == Publish(s, ws[i..])
    decreases STATE_WRITES - i
  {
    if i < STATE_WRITES {
      assert ws[i..][0] == ws[i] && ws[i..][1..] == ws[i + 1..];
      StateIsWrites(SetTag(s, ws[i].0, ws[i].1), i + 1, st, code, mode, origin, ws);
    }
  }

  function AllWrites(st: State, code: int, mode: int, origin: int): (ws: Writes)
    ensures |ws| == STATE_WRITES
  {
    seq(STATE_WRITES, k requires 0 <= k < STATE_WRITES => StateWrite(k, st, code, mode, origin))
  }

  lemma WritesAreOfState(st: State, code: int, mode: int, origin: int, j: nat, k: nat)
    requires j < k < STATE_WRITES
    ensures StateWrite(j, st, code, mode, origin).0 != StateWrite(k, st, code, mode, origin).0
    ensures OfState(StateWrite(j, st, code, mode, origin).0) && OfState(StateWrite(k, st, code, mode, origin).0)
  {
  }

  /** Entering a state shows it, and shows nothing else. */
  lemma EnterShows(s: Sim, st: State, code: int, mode: int, origin: int, r: Sim)
    requires r == Enter(s, st, code, mode, origin) && mode == (if st.Manual? then MANUAL_MODE else AUTO_MODE)
    ensures StateShown(r.image, st) && FaultShown(r.image, code) && r.image[CellOrigin] == I(origin)
    ensures SameBeside(s.image, r.image)
  {
    var c, ws := Frozen(s.cell, s.now), AllWrites(st, code, mode, origin);
    var mid := s.(cell := c.(epoch := c.epoch + 1, state := st));
    forall j, k | 0 <= j < k < |ws| ensures ws[j].0 != ws[k].0 { WritesAreOfState(st, code, mode, origin, j, k); }
    assert ws[0..] == ws;
    StateIsWrites(mid, 0, st, code, mode, origin, ws);
    PublishWrites(mid, ws);
    EnterWritesStates(s, st, code, mode, origin, r);
    StateRead(r.image, st, code, mode, origin, ws);
    forall tag | tag in s.image && !OfState(tag) ensures tag in r.image && r.image[tag] == s.image[tag] {
      forall k | 0 <= k < |ws| ensures ws[k].0 != tag {
        WritesAreOfState(st, code, mode, origin, if k == 0 then 0 else k - 1, if k == 0 then 1 else k);
      }
    }
  }

  /** Every tag but those of the state is shown as before. */
  ghost predicate SameBeside(before: Image, after: Image) {
    forall tag :: tag in before && !OfState(tag) ==> tag in after && after[tag] == before[tag]
  }

  lemma StateRead(image: Image, st: State, code: int, mode: int, origin: int, ws: Writes)
    requires HasStateTags(image) && Lists(ws, st, code, mode, origin)
    requires forall k :: 0 <= k < |ws| ==> ws[k].0 in image && image[ws[k].0] == Coerce(ws[k].0, ws[k].1)
    requires mode == if st.Manual? then MANUAL_MODE else AUTO_MODE
    ensures StateShown(image, st) && FaultShown(image, code) && image[CellOrigin] == I(origin)
  {
    assert ws[0] == StateWrite(0, st, code, mode, origin) && ws[1] == StateWrite(1, st, code, mode, origin);
    assert ws[2] == StateWrite(2, st, code, mode, origin) && ws[3] == StateWrite(3, st, code, mode, origin);
    forall at: Station
      ensures image[StationState(at)] == I(Code(st)) && image[StationFault(at)] == I(StationFaultOf(at, code))
    {
      var k := match at case OP10 => 4 case OP20 => 6 case OP30 => 8;
      assert ws[k] == StateWrite(k, st, code, mode, origin);
      assert ws[k + 1] == StateWrite(k + 1, st, code, mode, origin);
    }
  }

  // ------------------------------------------------------------ entering states

  predicate SameCounters(c: Cell, d: Cell) {
    d.good == c.good && d.scrap == c.scrap && d.heartbeat == c.heartbeat && d.pointsSinceCap == c.pointsSinceCap
  }

  lemma Entered(cfg: Config, s: Sim, st: State, code: int, mode: int, origin: int, s1: Sim, r: Sim)
    requires s1 == Enter(s, st, code, mode, origin) && mode == (if st.Manual? then MANUAL_MODE else AUTO_MODE)
    requires CountersShown(cfg, s.image, s.cell)
    requires r.image == s1.image && r.cell.state == st && SameCounters(s.cell, r.cell)
    requires InFault(r, code) && OriginShown(I(origin), st, code)
    ensures Truthful(cfg, r)
  {
    EnterShows(s, st, code, mode, origin, s1);
  }

  lemma ResumeTruthful(cfg: Config, s: Sim, d: Draws, r: Sim)
    requires cfg.points > 0 && CountersShown(cfg, s.image, s.cell) && r == Resume(cfg, s, d)
    ensures Truthful(cfg, r)
  {
    var st := NextState(s.cell);
    var s1 := Enter(s, st, 0, AUTO_MODE, DefaultOrigin(st, 0));
    EnteredCell(s, st, 0, AUTO_MODE, DefaultOrigin(st, 0), s1);
    Entered(cfg, s, st, 0, AUTO_MODE, DefaultOrigin(st, 0), s1, r);
  }

  lemma FaultTruthful(cfg: Config, s: Sim, code: int, duration: Option<real>, d: Draws, r: Sim)
    requires CountersShown(cfg, s.image, s.cell)
    requires QueueOk(s.heap, s.now, s.nextOrder, s.cell.epoch) && r == EnterFault(s, code, duration, d)
    ensures Truthful(cfg, r)
  {
    FaultBegins(s, code, duration, d, r);
    var e :| Live(r.heap, r.cell.epoch) == {e} && e.kind == StopEnd(FaultStop(code));
    assert e in Live(r.heap, r.cell.epoch);
    var origin := DefaultOrigin(Fault, code);
    var s1 := Enter(s, Fault, code, AUTO_MODE, origin);
    EnteredCell(s, Fault, code, AUTO_MODE, origin, s1);
    Entered(cfg, s, Fault, code, AUTO_MODE, origin, s1, r);
  }

  lemma WaitTruthful(cfg: Config, s: Sim, what: Cut, d: Draws, r: Sim)
    requires CountersShown(cfg, s.image, s.cell) && !what.FaultCut? && r == OnInterrupt(s, what, d)
    ensures Truthful(cfg, r)
  {
    var st := if what.StarvedCut? then Starved else Blocked;
    var s1 := Enter(s, st, 0, AUTO_MODE, DefaultOrigin(st, 0));
    EnteredCell(s, st, 0, AUTO_MODE, DefaultOrigin(st, 0), s1);
    Entered(cfg, s, st, 0, AUTO_MODE, DefaultOrigin(st, 0), s1, r);
  }

  /** A manual recovery is shown where the fault was. */
  lemma ManualTruthful(cfg: Config, s: Sim, code: int, d: Draws, r: Sim)
    requires CountersShown(cfg, s.image, s.cell)
    requires r == StopFor(Enter(s, Manual, 0, MANUAL_MODE, OriginCode(StationOfFault(code))), d.manualS, ManualStop)
    ensures Truthful(cfg, r)
    ensures CellOrigin in r.image && r.image[CellOrigin] == I(OriginCode(StationOfFault(code)))
  {
    var origin := OriginCode(StationOfFault(code));
    var s1 := Enter(s, Manual, 0, MANUAL_MODE, origin);
    EnteredCell(s, Manual, 0, MANUAL_MODE, origin, s1);
    Entered(cfg, s, Manual, 0, MANUAL_MODE, origin, s1, r);
    EnterShows(s, Manual, 0, MANUAL_MODE, origin, s1);
  }

  // ------------------------------------------------------------ weld points and counters

  /** No tag of the state moves. */
  ghost predicate SameState(before: Image, after: Image) {
    forall tag :: tag in before && OfState(tag) ==> tag in after && after[tag] == before[tag]
  }

  lemma BesideState(before: Image, ws: Writes, after: Image)
    requires Written(before, ws, after) && forall k :: 0 <= k < |ws| ==> !OfState(ws[k].0)
    ensures SameState(before, after)
  {
  }

  /** The state and the fault shown stay true where neither they nor the end of the fault move. */
  lemma StillTruthful(cfg: Config, s: Sim, r: Sim)
    requires Truthful(cfg, s) && SameState(s.image, r.image) && CountersShown(cfg, r.image, r.cell)
    requires r.cell.state == s.cell.state && r.cell.epoch == s.cell.epoch
    requires s.cell.state.Fault? ==> s.heap <= r.heap
    ensures Truthful(cfg, r)
  {
    var code :| InFault(s, code) && FaultShown(s.image, code)
                && OriginShown(s.image[CellOrigin], s.cell.state, code);
    assert InFault(r, code);
    assert FaultShown(r.image, code);
  }

  /** The counters shown after some tags were written: those written are right, and the others did not move. */
  lemma CountersKept(cfg: Config, before: Image, after: Image, c: Cell, d: Cell, tags: set<Tag>)
    requires CountersShown(cfg, before, c) && CycleTime !in tags
    requires forall tag :: tag in before && tag !in tags ==> tag in after && after[tag] == before[tag]
    requires forall tag :: tag in tags ==> tag in after
    requires if Good in tags then after[Good] == I(d.good % 0x1_0000_0000) else d.good == c.good
    requires if Scrap in tags then after[Scrap] == I(d.scrap % 0x1_0000_0000) else d.scrap == c.scrap
    requires if Heartbeat in tags then after[Heartbeat] == I(d.heartbeat % 0x1_0000_0000)
             else d.heartbeat == c.heartbeat
    requires if WeldPoints in tags then after[WeldPoints] == I(d.pointsSinceCap % 0x1_0000_0000)
             else d.pointsSinceCap == c.pointsSinceCap
    ensures CountersShown(cfg, after, d)
  {
    assert HasCellTags(after);
  }

  lemma WeldWritten(s: Sim, d: Draws, r: Sim, ws: Writes)
    requires r == WeldPoint(s, d) && ws == PointWrites(r.cell, d)
    ensures Written(s.image, ws, r.image) && r.cell == Marked(s.cell, d)
  {
    PublishWrites(s.(cell := Marked(s.cell, d)), ws);
  }

  lemma WeldShown(cfg: Config, s: Sim, d: Draws, r: Sim)
    requires CountersShown(cfg, s.image, s.cell) && r == WeldPoint(s, d)
    ensures CountersShown(cfg, r.image, r.cell) && SameState(s.image, r.image)
    ensures r.image[WeldCurrent] == R(Rounded(d.current)) && r.image[WeldOk] == B(d.pointOk)
    ensures r.image[LastCycle] == s.image[LastCycle]
  {
    var ws := PointWrites(r.cell, d);
    WeldWritten(s, d, r, ws);
    WeldRead(s.image, r.cell, d, ws, r.image);
    CountersKept(cfg, s.image, r.image, s.cell, r.cell, {WeldCurrent, WeldOk, WeldPoints});
  }

  lemma WeldRead(before: Image, c: Cell, d: Draws, ws: Writes, after: Image)
    requires ws == PointWrites(c, d) && Written(before, ws, after)
    ensures WeldCurrent in after && after[WeldCurrent] == R(Rounded(d.current))
    ensures WeldOk in after && after[WeldOk] == B(d.pointOk)
    ensures WeldPoints in after && after[WeldPoints] == I(c.pointsSinceCap % 0x1_0000_0000)
    ensures SameState(before, after)
    ensures forall tag :: tag in before && tag !in {WeldCurrent, WeldOk, WeldPoints} ==>
                            tag in after && after[tag] == before[tag]
  {
    PointsRead(c, d, ws, after);
    BesideState(before, ws, after);
    OthersKept(before, ws, after, {WeldCurrent, WeldOk, WeldPoints});
  }

  lemma PointsRead(c: Cell, d: Draws, ws: Writes, image: Image)
    requires ws == PointWrites(c, d)
    requires forall k :: 0 <= k < |ws| ==> ws[k].0 in image && image[ws[k].0] == Coerce(ws[k].0, ws[k].1)
    ensures WeldCurrent in image && image[WeldCurrent] == R(Rounded(d.current))
    ensures WeldOk in image && image[WeldOk] == B(d.pointOk)
    ensures WeldPoints in image && image[WeldPoints] == I(c.pointsSinceCap % 0x1_0000_0000)
  {
    assert ws[0].0 in image && ws[1].0 in image && ws[2].0 in image;
  }

  lemma OthersKept(before: Image, ws: Writes, after: Image, tags: set<Tag>)
    requires Written(before, ws, after) && forall k :: 0 <= k < |ws| ==> ws[k].0 in tags
    ensures forall tag :: tag in before && tag !in tags ==> tag in after && after[tag] == before[tag]
  {
    forall tag | tag in before && tag !in tags ensures !WritesTo(ws, tag) {}
  }

  lemma CountWritten(s: Sim, d: Draws, r: Sim, isScrap: bool, ws: Writes)
    requires r == CountPart(s, d) && isScrap == (!s.cell.partWeldOk || d.scrap) && ws == PartWrites(r.cell, isScrap)
    ensures Written(s.image, ws, r.image) && r.cell == Closed(s.cell, isScrap)
  {
    PublishWrites(s.(cell := Closed(s.cell, isScrap)), ws);
  }

  lemma CountRead(before: Image, c: Cell, isScrap: bool, ws: Writes, after: Image, counter: Tag)
    requires ws == PartWrites(c, isScrap) && Written(before, ws, after)
    requires counter == if isScrap then Scrap else Good
    ensures counter in after && after[counter] == I((if isScrap then c.scrap else c.good) % 0x1_0000_0000)
    ensures LastCycle in after && after[LastCycle] == R(Rounded(c.cycle))
    ensures SameState(before, after)
    ensures forall tag :: tag in before && tag !in {counter, LastCycle} ==> tag in after && after[tag] == before[tag]
  {
    assert ws[0].0 == counter && ws[0].0 in after && ws[1].0 in after;
    BesideState(before, ws, after);
    OthersKept(before, ws, after, {counter, LastCycle});
  }

  lemma CountShown(cfg: Config, s: Sim, d: Draws, r: Sim)
    requires CountersShown(cfg, s.image, s.cell) && r == CountPart(s, d)
    ensures CountersShown(cfg, r.image, r.cell) && SameState(s.image, r.image)
    ensures r.image[LastCycle] == R(Rounded(s.cell.cycle))
    ensures r.image[WeldCurrent] == s.image[WeldCurrent] && r.image[WeldOk] == s.image[WeldOk]
  {
    var isScrap := !s.cell.partWeldOk || d.scrap;
    var counter, ws := if isScrap then Scrap else Good, PartWrites(r.cell, isScrap);
    CountWritten(s, d, r, isScrap, ws);
    CountRead(s.image, r.cell, isScrap, ws, r.image, counter);
    CountersKept(cfg, s.image, r.image, s.cell, r.cell, {counter, LastCycle});
  }

  lemma AfterPartTruthful(cfg: Config, s: Sim, d: Draws, r: Sim)
    requires ValidConfig(cfg) && CountersShown(cfg, s.image, s.cell)
    requires QueueOk(s.heap, s.now, s.nextOrder, s.cell.epoch) && r == AfterPart(cfg, s, d)
    ensures Truthful(cfg, r)
  {
    var mid := s.(cell := Noted(cfg, s.cell));
    if s.cell.weldNok >= cfg.nokLimit {
      FaultTruthful(cfg, mid, WELD_FAULT, None, d, r);
    } else {
      ResumeTruthful(cfg, mid, d, r);
    }
  }

  lemma SlotTruthful(cfg: Config, s: Sim, d: Draws, r: Sim)
    requires ValidConfig(cfg) && Truthful(cfg, s) && s.cell.state.Producing?
    requires QueueOk(s.heap, s.now, s.nextOrder, s.cell.epoch) && r == OnSlotEnd(cfg, s, d)
    ensures Truthful(cfg, r)
  {
    var s1 := WeldPoint(s, d);
    WeldShown(cfg, s, d, s1);
    if s1.cell.slotIdx < cfg.points {
      StillTruthful(cfg, s, r);
    } else {
      CountShown(cfg, s1, d, CountPart(s1, d));
      AfterPartTruthful(cfg, CountPart(s1, d), d, r);
    }
  }

  lemma CapsWritten(s: Sim, d: Draws, r: Sim)
    requires r == FinishSetup(s, true, d)
    ensures r.image == s.image[WeldPoints := I(0)] && r.cell.pointsSinceCap == 0
    ensures r.cell.good == s.cell.good && r.cell.scrap == s.cell.scrap && r.cell.heartbeat == s.cell.heartbeat
  {
    var mid := s.(cell := r.cell);
    assert [(WeldPoints, I(0))][1..] == [];
    assert Publish(mid, [(WeldPoints, I(0))]) == SetTag(mid, WeldPoints, I(0));
    OneWrite(mid, WeldPoints, I(0));
  }

  lemma CapsShown(cfg: Config, s: Sim, capChange: bool, d: Draws, r: Sim)
    requires CountersShown(cfg, s.image, s.cell) && r == FinishSetup(s, capChange, d)
    ensures CountersShown(cfg, r.image, r.cell)
  {
    if capChange {
      CapsWritten(s, d, r);
      CountersKept(cfg, s.image, r.image, s.cell, r.cell, {WeldPoints});
    }
  }

  lemma StopEndTruthful(cfg: Config, s: Sim, stop: StopKind, d: Draws, r: Sim)
    requires ValidConfig(cfg) && CountersShown(cfg, s.image, s.cell) && r == OnStopEnd(cfg, s, stop, d)
    ensures Truthful(cfg, r)
  {
    if stop.FaultStop? && d.manual {
      ManualTruthful(cfg, s, stop.code, d, r);
    } else {
      var mid := if stop.SetupStop? then FinishSetup(s, stop.capChange, d) else s;
      if stop.SetupStop? { CapsShown(cfg, s, stop.capChange, d, mid); }
      ResumeTruthful(cfg, mid, d, r);
    }
  }

  lemma BreakTruthful(cfg: Config, s: Sim, e: Ev, d: Draws, r: Sim, mid: Sim)
    requires ValidConfig(cfg) && ValidSlot(cfg.calendar, s.cell.breakWindow) && Truthful(cfg, s)
    requires OfBreak(e.kind) && (r == mid || r == Resume(cfg, mid, d))
    requires mid == if e.kind.BreakStart? then TakeBreak(cfg, s) else LeaveBreak(cfg, s)
    ensures Truthful(cfg, r)
  {
    BreakShowsNothing(cfg, s, e, mid);
    if r == mid {
      StillTruthful(cfg, s, mid);
    } else {
      ResumeTruthful(cfg, mid, d, r);
    }
  }

  lemma BreakShowsNothing(cfg: Config, s: Sim, e: Ev, mid: Sim)
    requires ValidConfig(cfg) && ValidSlot(cfg.calendar, s.cell.breakWindow) && OfBreak(e.kind)
    requires mid == if e.kind.BreakStart? then TakeBreak(cfg, s) else LeaveBreak(cfg, s)
    ensures s.heap <= mid.heap && mid.image == s.image
    ensures mid.cell == s.cell.(breakActive := mid.cell.breakActive, breakWindow := mid.cell.breakWindow)
  {
  }

  lemma BeatTruthful(cfg: Config, s: Sim, r: Sim)
    requires Truthful(cfg, s) && r == OnHeartbeat(s)
    ensures Truthful(cfg, r)
  {
    OneWrite(s.(cell := r.cell), Heartbeat, I(r.cell.heartbeat));
    StillTruthful(cfg, s, r);
  }

  lemma FreezeTruthful(cfg: Config, s: Sim, r: Sim)
    requires ValidConfig(cfg) && Truthful(cfg, s) && (r == OnFreezeStart(cfg, s) || r == OnFreezeEnd(cfg, s))
    ensures Truthful(cfg, r)
  {
    StillTruthful(cfg, s, r);
  }

  lemma CountersWritten(s: Sim, good: nat, scrap: nat, r: Sim)
    requires r == SetCounters(s, good, scrap)
    ensures Written(s.image, [(Good, I(r.cell.good)), (Scrap, I(r.cell.scrap))], r.image)
    ensures r.cell == s.cell.(good := Masked(good), scrap := Masked(scrap))
  {
    PublishWrites(s.(cell := r.cell), [(Good, I(r.cell.good)), (Scrap, I(r.cell.scrap))]);
  }

  lemma ResetShown(cfg: Config, s1: Sim, r: Sim)
    requires CountersShown(cfg, s1.image, s1.cell)
    requires r.cell == s1.cell.(heartbeat := 0) && r.image == s1.image[Heartbeat := I(0)]
    ensures CountersShown(cfg, r.image, r.cell) && SameState(s1.image, r.image)
  {
    CountersKept(cfg, s1.image, r.image, s1.cell, r.cell, {Heartbeat});
  }

  lemma ResetWritten(cfg: Config, s: Sim, r: Sim, s1: Sim)
    requires ValidConfig(cfg) && cfg.chaos.resetEvery.Some? && r == OnCounterReset(cfg, s)
    requires s1 == SetCounters(s, 0, 0)
    ensures r.cell == s1.cell.(heartbeat := 0) && r.image == s1.image[Heartbeat := I(0)] && s1.heap <= r.heap
  {
    OneWrite(s1.(cell := s1.cell.(heartbeat := 0)), Heartbeat, I(0));
  }

  lemma ResetTruthful(cfg: Config, s: Sim, r: Sim)
    requires ValidConfig(cfg) && Truthful(cfg, s) && r == OnCounterReset(cfg, s)
    ensures Truthful(cfg, r)
  {
    if cfg.chaos.resetEvery.Some? {
      var s1 := SetCounters(s, 0, 0);
      ZeroesShown(cfg, s, s1);
      ResetWritten(cfg, s, r, s1);
      ResetShown(cfg, s1, r);
      StillTruthful(cfg, s, r);
    }
  }

  lemma ZeroesShown(cfg: Config, s: Sim, s1: Sim)
    requires CountersShown(cfg, s.image, s.cell) && s1 == SetCounters(s, 0, 0)
    ensures CountersShown(cfg, s1.image, s1.cell) && SameState(s.image, s1.image) && s.heap == s1.heap
    ensures s1.cell == s.cell.(good := 0, scrap := 0)
  {
    CountersWritten(s, 0, 0, s1);
    ZeroesRead(s.image, [(Good, I(0)), (Scrap, I(0))], s1.image);
    CountersKept(cfg, s.image, s1.image, s.cell, s1.cell, {Good, Scrap});
  }

  lemma ZeroesRead(before: Image, ws: Writes, after: Image)
    requires ws == [(Good, I(0)), (Scrap, I(0))] && Written(before, ws, after)
    ensures Good in after && after[Good] == I(0) && Scrap in after && after[Scrap] == I(0)
    ensures SameState(before, after)
    ensures forall tag :: tag in before && tag !in {Good, Scrap} ==> tag in after && after[tag] == before[tag]
  {
    assert ws[0].0 in after && ws[1].0 in after;
    BesideState(before, ws, after);
    OthersKept(before, ws, after, {Good, Scrap});
  }

  // ------------------------------------------------------------ every reachable state

  lemma PopTruthful(cfg: Config, s: Sim, e: Ev)
    requires Sound(cfg, s) && Truthful(cfg, s) && e == Due(cfg, s) && (Current(s, e) ==> !e.kind.StopEnd?)
    ensures Truthful(cfg, Pop(s, e))
  {
    var code :| InFault(s, code) && FaultShown(s.image, code)
                && OriginShown(s.image[CellOrigin], s.cell.state, code);
    assert InFault(Pop(s, e), code);
  }

  lemma TickTruthful(cfg: Config, s: Sim, e: Ev, d: Draws, r: Sim)
    requires Sound(cfg, s) && Truthful(cfg, s) && e == Due(cfg, s) && r == Handle(cfg, Pop(s, e), e, d)
    requires !(Current(s, e) && e.kind.StopEnd?) && !(Current(s, e) && e.kind.Interrupt?)
    ensures Truthful(cfg, r)
  {
    DuePops(cfg, s, e);
    PopOk(cfg, s, e);
    PopTruthful(cfg, s, e);
    var p := Pop(s, e);
    if OfBreak(e.kind) {
      BreakTruthful(cfg, p, e, d, r, if e.kind.BreakStart? then TakeBreak(cfg, p) else LeaveBreak(cfg, p));
    } else {
      match e.kind
      case HeartbeatTick => BeatTruthful(cfg, p, r);
      case CounterReset => ResetTruthful(cfg, p, r);
      case FreezeStart => FreezeTruthful(cfg, p, r);
      case FreezeEnd => FreezeTruthful(cfg, p, r);
      case _ => if Current(s, e) { SlotTruthful(cfg, p, d, r); }
    }
  }

  lemma ForceTruthful(cfg: Config, s: Sim, a: Action, r: Sim)
    requires Sound(cfg, s) && Truthful(cfg, s) && ValidAction(cfg, a) && a.Force? && r == Act(cfg, s, a)
    ensures Truthful(cfg, r)
  {
    QueueNeverEmpty(cfg, s);
    var s1 := s.(now := RMax(s.now, a.at));
    if GetsThrough(cfg, s, a.code, a.at) {
      AdvanceOk(cfg, s, a.at);
      FaultTruthful(cfg, s1, a.code, Some(a.duration), a.d, r);
    } else {
      StillTruthful(cfg, s, r);
    }
  }

  lemma CallbackTruthful(cfg: Config, s: Sim, e: Ev, d: Draws, r: Sim)
    requires Sound(cfg, s) && Truthful(cfg, s) && e == Due(cfg, s) && r == Handle(cfg, Pop(s, e), e, d)
    requires Current(s, e) && (e.kind.StopEnd? || e.kind.Interrupt?)
    ensures Truthful(cfg, r)
  {
    var p := Pop(s, e);
    PopOk(cfg, s, e);
    match e.kind
    case StopEnd(stop) => StopEndTruthful(cfg, p, stop, d, r);
    case Interrupt(what) =>
      match what {
        case FaultCut(code) => FaultTruthful(cfg, p, code, None, d, r);
        case _ => WaitTruthful(cfg, p, what, d, r);
      }
  }

  lemma ActTruthful(cfg: Config, s: Sim, a: Action, r: Sim)
    requires Sound(cfg, s) && Truthful(cfg, s) && ValidAction(cfg, a) && r == Act(cfg, s, a)
    ensures Truthful(cfg, r)
  {
    var e := Due(cfg, s);
    DuePops(cfg, s, e);
    if a.Force? {
      ForceTruthful(cfg, s, a, r);
    } else if Current(s, e) && (e.kind.StopEnd? || e.kind.Interrupt?) {
      CallbackTruthful(cfg, s, e, a.d, r);
    } else {
      TickTruthful(cfg, s, e, a.d, r);
    }
  }

  lemma {:induction false} RunTruthful(cfg: Config, s: Sim, script: seq<Action>)
    requires Sound(cfg, s) && Truthful(cfg, s) && ValidScript(cfg, script)
    ensures Truthful(cfg, Run(cfg, s, script))
    decreases |script|
  {
    if script != [] {
      FrontOk(cfg, script);
      RunTruthful(cfg, s, Front(script));
      var t, a := Run(cfg, s, Front(script)), Final(script);
      ActTruthful(cfg, t, a, Act(cfg, t, a));
      DrainTruthful(cfg, Act(cfg, t, a), Run(cfg, s, script));
    }
  }

  lemma DrainTruthful(cfg: Config, s: Sim, r: Sim)
    requires Truthful(cfg, s) && r == Drained(s)
    ensures Truthful(cfg, r)
  {
    StillTruthful(cfg, s, r);
  }

  lemma StartTruthful(cfg: Config, startTs: real, kept: Retained, d: Draws, r: Sim)
    requires ValidConfig(cfg) && r == Start(cfg, startTs, kept, d)
    ensures Truthful(cfg, r)
  {
    var s := ApplyAtStart(cfg, Created(cfg, startTs, kept));
    var s2 := StartCell(cfg, s, d);
    StartCellTruthful(cfg, s, d, s2);
    ArmingShowsNothing(cfg, s2, r);
    StillTruthful(cfg, s2, r);
  }

  lemma ArmingShowsNothing(cfg: Config, s: Sim, r: Sim)
    requires ValidConfig(cfg) && r == ArmChaos(cfg, s)
    ensures r.image == s.image && r.cell == s.cell && s.heap <= r.heap
  {
  }

  lemma StartCellTruthful(cfg: Config, s: Sim, d: Draws, r: Sim)
    requires ValidConfig(cfg) && r == StartCell(cfg, s, d)
    ensures Truthful(cfg, r)
  {
    var ws := StartWrites(cfg, s.cell);
    var s0 := Publish(s, ws);
    StartWritten(cfg, s.cell, ws);
    PublishWrites(s, ws);
    StartRead(cfg, s.cell, ws, s0.image);
    var s1 := Schedule(s0, 1.0, HeartbeatTick, None);
    var s2 := ArmBreak(cfg, s1, s1.now);
    ArmShowsNothing(cfg, s1, s1.now, s2);
    ResumeTruthful(cfg, s2, d, r);
  }

  lemma ArmShowsNothing(cfg: Config, s: Sim, after: real, r: Sim)
    requires ValidConfig(cfg) && r == ArmBreak(cfg, s, after)
    ensures r.image == s.image && SameCounters(s.cell, r.cell)
  {
  }

  lemma StartWritten(cfg: Config, c: Cell, ws: Writes)
    requires ws == StartWrites(cfg, c)
    ensures OncePerTag(ws)
  {
  }

  lemma StartRead(cfg: Config, c: Cell, ws: Writes, image: Image)
    requires ws == StartWrites(cfg, c)
    requires forall k :: 0 <= k < |ws| ==> ws[k].0 in image && image[ws[k].0] == Coerce(ws[k].0, ws[k].1)
    ensures CountersShown(cfg, image, c)
  {
    assert ws[0].0 in image && ws[1].0 in image && ws[2].0 in image && ws[3].0 in image;
    assert ws[4].0 in image && ws[5].0 in image && ws[6].0 in image && ws[7].0 in image;
  }

  /** From any start over every run, the image holds what is: the counters modulo 2^32, the state on the cell and all
      its stations, the fault the cell is in on the cell and the faulty station alone, and where the stop comes from. */
  lemma ImageIsTruthful(cfg: Config, startTs: real, kept: Retained, d: Draws, s: Sim, script: seq<Action>)
    requires ValidConfig(cfg) && ValidDraws(cfg, d) && ValidScript(cfg, script)
    requires s == Drained(Start(cfg, startTs, kept, d)) && Sound(cfg, s)
    ensures Truthful(cfg, Run(cfg, s, script))
  {
    var r := Start(cfg, startTs, kept, d);
    StartTruthful(cfg, startTs, kept, d, r);
    DrainTruthful(cfg, r, s);
    RunTruthful(cfg, s, script);
  }

  // ------------------------------------------------------------ what is published of one action

  /** The outcomes shown are the same. */
  ghost predicate SameOutcomes(before: Image, after: Image) {
    && LastCycle in before && WeldCurrent in before && WeldOk in before
    && LastCycle in after && WeldCurrent in after && WeldOk in after
    && after[LastCycle] == before[LastCycle] && after[WeldCurrent] == before[WeldCurrent]
    && after[WeldOk] == before[WeldOk]
  }

  lemma EnterOutcomes(s: Sim, st: State, code: int, mode: int, origin: int, r: Sim)
    requires HasCellTags(s.image) && mode == (if st.Manual? then MANUAL_MODE else AUTO_MODE)
    requires r.image == Enter(s, st, code, mode, origin).image
    ensures SameOutcomes(s.image, r.image)
  {
    EnterShows(s, st, code, mode, origin, Enter(s, st, code, mode, origin));
  }

  lemma ResumeOutcomes(cfg: Config, s: Sim, d: Draws, r: Sim)
    requires cfg.points > 0 && HasCellTags(s.image) && r == Resume(cfg, s, d)
    ensures SameOutcomes(s.image, r.image)
  {
    var st := NextState(s.cell);
    EnterOutcomes(s, st, 0, AUTO_MODE, DefaultOrigin(st, 0), r);
  }

  lemma FaultOutcomes(s: Sim, code: int, duration: Option<real>, d: Draws, r: Sim)
    requires HasCellTags(s.image) && r == EnterFault(s, code, duration, d)
    ensures SameOutcomes(s.image, r.image)
  {
    EnterOutcomes(s, Fault, code, AUTO_MODE, DefaultOrigin(Fault, code), r);
  }

  lemma InterruptOutcomes(s: Sim, what: Cut, d: Draws, r: Sim)
    requires HasCellTags(s.image) && r == OnInterrupt(s, what, d)
    ensures SameOutcomes(s.image, r.image)
  {
    match what
    case FaultCut(code) => FaultOutcomes(s, code, None, d, r);
    case StarvedCut => EnterOutcomes(s, Starved, 0, AUTO_MODE, DefaultOrigin(Starved, 0), r);
    case BlockedCut => EnterOutcomes(s, Blocked, 0, AUTO_MODE, DefaultOrigin(Blocked, 0), r);
  }

  lemma StopEndOutcomes(cfg: Config, s: Sim, stop: StopKind, d: Draws, r: Sim)
    requires cfg.points > 0 && HasCellTags(s.image) && r == OnStopEnd(cfg, s, stop, d)
    ensures SameOutcomes(s.image, r.image)
  {
    if stop.FaultStop? && d.manual {
      EnterOutcomes(s, Manual, 0, MANUAL_MODE, OriginCode(StationOfFault(stop.code)), r);
    } else {
      var mid := if stop.SetupStop? then FinishSetup(s, stop.capChange, d) else s;
      if stop.SetupStop? && stop.capChange {
        var ws: Writes := [(WeldPoints, I(0))];
        PublishWrites(s.(cell := mid.cell), ws);
        OthersKept(s.image, ws, mid.image, {WeldPoints});
        assert ws[0].0 in mid.image;
      }
      assert HasCellTags(mid.image);
      ResumeOutcomes(cfg, mid, d, r);
    }
  }

  lemma BreakOutcomes(cfg: Config, s: Sim, e: Ev, d: Draws, r: Sim, mid: Sim)
    requires ValidConfig(cfg) && ValidSlot(cfg.calendar, s.cell.breakWindow) && HasCellTags(s.image)
    requires OfBreak(e.kind) && (r == mid || r == Resume(cfg, mid, d))
    requires mid == if e.kind.BreakStart? then TakeBreak(cfg, s) else LeaveBreak(cfg, s)
    ensures SameOutcomes(s.image, r.image)
  {
    BreakShowsNothing(cfg, s, e, mid);
    if r != mid { ResumeOutcomes(cfg, mid, d, r); }
  }

  lemma HostOutcomes(cfg: Config, s: Sim, r: Sim)
    requires ValidConfig(cfg) && HasCellTags(s.image)
    requires r == OnHeartbeat(s) || r == OnFreezeStart(cfg, s) || r == OnFreezeEnd(cfg, s)
    ensures SameOutcomes(s.image, r.image)
  {
    OneWrite(s.(cell := r.cell), Heartbeat, I(r.cell.heartbeat));
  }

  lemma ResetOutcomes(cfg: Config, s: Sim, r: Sim)
    requires ValidConfig(cfg) && HasCellTags(s.image) && r == OnCounterReset(cfg, s)
    ensures SameOutcomes(s.image, r.image)
  {
    if cfg.chaos.resetEvery.Some? {
      var s1 := SetCounters(s, 0, 0);
      CountersWritten(s, 0, 0, s1);
      ZeroesRead(s.image, [(Good, I(0)), (Scrap, I(0))], s1.image);
      OneWrite(s1.(cell := s1.cell.(heartbeat := 0)), Heartbeat, I(0));
    }
  }

  lemma SlotOutcomes(cfg: Config, s: Sim, d: Draws, r: Sim)
    requires cfg.points > 0 && CountersShown(cfg, s.image, s.cell) && r == OnSlotEnd(cfg, s, d)
    ensures WeldCurrent in r.image && WeldOk in r.image && LastCycle in r.image
    ensures r.image[WeldCurrent] == R(Rounded(d.current)) && r.image[WeldOk] == B(d.pointOk)
    ensures r.image[LastCycle] == if s.cell.slotIdx + 1 >= cfg.points then R(Rounded(s.cell.cycle))
                                  else s.image[LastCycle]
  {
    var s1 := WeldPoint(s, d);
    WeldShown(cfg, s, d, s1);
    if s1.cell.slotIdx >= cfg.points {
      var s2 := CountPart(s1, d);
      CountShown(cfg, s1, d, s2);
      var mid := s2.(cell := Noted(cfg, s2.cell));
      FaultOutcomes(mid, WELD_FAULT, None, d, EnterFault(mid, WELD_FAULT, None, d));
      ResumeOutcomes(cfg, mid, d, Resume(cfg, mid, d));
    }
  }

  lemma ForceOutcomes(cfg: Config, s: Sim, a: Action, r: Sim)
    requires Sound(cfg, s) && HasCellTags(s.image) && a.Force? && r == Act(cfg, s, a)
    ensures SameOutcomes(s.image, r.image)
  {
    QueueNeverEmpty(cfg, s);
    var s1 := s.(now := RMax(s.now, a.at));
    FaultOutcomes(s1, a.code, Some(a.duration), a.d, EnterFault(s1, a.code, Some(a.duration), a.d));
    var origin := DefaultOrigin(Fault, a.code);
    EnterOutcomes(s1, Fault, a.code, AUTO_MODE, origin, Enter(s1, Fault, a.code, AUTO_MODE, origin));
  }

  lemma QuietOutcomes(cfg: Config, s: Sim, e: Ev, a: Action, r: Sim)
    requires Sound(cfg, s) && HasCellTags(s.image) && ValidAction(cfg, a) && r == Act(cfg, s, a)
    requires e == Due(cfg, s) && !Welds(cfg, s, a)
    ensures SameOutcomes(s.image, r.image)
  {
    DuePops(cfg, s, e);
    var p := Pop(s, e);
    if a.Force? {
      ForceOutcomes(cfg, s, a, r);
    } else if DrivenByState(e.kind) && !Current(s, e) {
      assert r == p;
    } else {
      match e.kind
      case Interrupt(what) => InterruptOutcomes(p, what, a.d, r);
      case StopEnd(stop) => StopEndOutcomes(cfg, p, stop, a.d, r);
      case BreakStart => BreakOutcomes(cfg, p, e, a.d, r, TakeBreak(cfg, p));
      case BreakEnd => BreakOutcomes(cfg, p, e, a.d, r, LeaveBreak(cfg, p));
      case CounterReset => ResetOutcomes(cfg, p, r);
      case _ => HostOutcomes(cfg, p, r);
    }
  }

  /** A weld point publishes its current and outcome, a finished part its cycle, both currents and cycles to three
      decimals; nothing else moves these tags. */
  lemma OutcomesAreShown(cfg: Config, s: Sim, a: Action, r: Sim)
    requires Sound(cfg, s) && Truthful(cfg, s) && ValidAction(cfg, a) && r == Act(cfg, s, a)
    ensures WeldCurrent in r.image && WeldOk in r.image && LastCycle in r.image
    ensures r.image[WeldCurrent] == if Welds(cfg, s, a) then R(Rounded(a.d.current)) else s.image[WeldCurrent]
    ensures r.image[WeldOk] == if Welds(cfg, s, a) then B(a.d.pointOk) else s.image[WeldOk]
    ensures r.image[LastCycle] == if Completes(cfg, s, a) then R(Rounded(s.cell.cycle)) else s.image[LastCycle]
  {
    var e := Due(cfg, s);
    DuePops(cfg, s, e);
    if Welds(cfg, s, a) { SlotOutcomes(cfg, Pop(s, e), a.d, r); } else { QuietOutcomes(cfg, s, e, a, r); }
  }

  /** A simulation that starts shows no cycle and no current yet, and no bad point. */
  lemma StartShowsNothingMade(cfg: Config, startTs: real, kept: Retained, d: Draws, r: Sim)
    requires ValidConfig(cfg) && r == Start(cfg, startTs, kept, d)
    ensures LastCycle in r.image && WeldCurrent in r.image && WeldOk in r.image
    ensures r.image[LastCycle] == R(0.0) && r.image[WeldCurrent] == R(0.0) && r.image[WeldOk] == B(true)
  {
    var s := ApplyAtStart(cfg, Created(cfg, startTs, kept));
    var r1 := StartCell(cfg, s, d);
    ArmingShowsNothing(cfg, r1, r);
    var ws := StartWrites(cfg, s.cell);
    var s0 := Publish(s, ws);
    StartWritten(cfg, s.cell, ws);
    PublishWrites(s, ws);
    StartOutcomes(cfg, s.cell, ws, s0.image);
    var s1 := Schedule(s0, 1.0, HeartbeatTick, None);
    var s2 := ArmBreak(cfg, s1, s1.now);
    ArmShowsNothing(cfg, s1, s1.now, s2);
    StartRead(cfg, s.cell, ws, s0.image);
    ResumeOutcomes(cfg, s2, d, r1);
  }

  lemma StartOutcomes(cfg: Config, c: Cell, ws: Writes, image: Image)
    requires ws == StartWrites(cfg, c)
    requires forall k :: 0 <= k < |ws| ==> ws[k].0 in image && image[ws[k].0] == Coerce(ws[k].0, ws[k].1)
    ensures LastCycle in image && WeldCurrent in image && WeldOk in image
    ensures image[LastCycle] == R(0.0) && image[WeldCurrent] == R(0.0) && image[WeldOk] == B(true)
  {
    assert ws[1].0 in image && ws[5].0 in image && ws[7].0 in image;
  }

  /** A manual recovery is shown, to a collector, where the fault was. */
  lemma ManualIsWhereTheFaultWas(cfg: Config, s: Sim, a: Action, code: int, r: Sim)
    requires Sound(cfg, s) && Truthful(cfg, s) && ValidAction(cfg, a) && r == Act(cfg, s, a)
    requires a.Tick? && Current(s, Due(cfg, s)) && Due(cfg, s).kind == StopEnd(FaultStop(code))
    requires StationOfFault(code).Some?
    ensures r.cell.state.Manual? ==>
              CellOrigin in r.image && StationOfOrigin(r.image[CellOrigin].ToInt()) == StationOfFault(code).value
  {
    var e := Due(cfg, s);
    DuePops(cfg, s, e);
    InterruptionsStop(cfg, s, a, r);
    if r.cell.state.Manual? { ManualTruthful(cfg, Pop(s, e), code, a.d, r); }
  }
}
