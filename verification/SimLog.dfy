/** What the simulated cell publishes: stamped with the current instant, only actual changes, and
    enough to rebuild the image. */
module SimLog {
  import opened Basics
  import opened Facts
  import opened Shifts
  import opened Simulator

  type Image = map<Tag, TagValue>

  /** The image a reader of the changes holds. */
  function Replayed(base: Image, cs: seq<SimChange>): Image
    decreases |cs|
  {
    if cs == [] then base else Replayed(base[cs[0].tag := cs[0].value], cs[1..])
  }

  /** No change repeats the value its tag had. */
  ghost predicate Novel(base: Image, cs: seq<SimChange>)
    decreases |cs|
  {
    cs != [] ==>
      && (cs[0].tag in base ==> base[cs[0].tag] != cs[0].value)
      && Novel(base[cs[0].tag := cs[0].value], cs[1..])
  }

  ghost predicate Stamped(cs: seq<SimChange>, now: real) { forall i :: 0 <= i < |cs| ==> cs[i].ts == now }

  /** What is pending is stamped now, and replaying it on the image of the last drain gives the image. */
  ghost predicate Tells(base: Image, s: Sim) {
    Stamped(s.changes, s.now) && s.image == Replayed(base, s.changes) && Novel(base, s.changes)
  }

  lemma {:induction false} ReplayAppend(base: Image, a: seq<SimChange>, b: seq<SimChange>)
    ensures Replayed(base, a + b) == Replayed(Replayed(base, a), b)
    ensures Novel(base, a + b) <==> Novel(base, a) && Novel(Replayed(base, a), b)
    decreases |a|
  {
    if a == [] {
      assert a + b == b;
    } else {
      assert (a + b)[0] == a[0] && (a + b)[1..] == a[1..] + b;
      ReplayAppend(base[a[0].tag := a[0].value], a[1..], b);
    }
  }

  lemma SetTagTells(base: Image, s: Sim, tag: Tag, v: TagValue)
    requires Tells(base, s)
    ensures Tells(base, SetTag(s, tag, v))
  {
    var c := SimChange(s.now, tag, Coerce(tag, v));
    ReplayAppend(base, s.changes, [c]);
    assert [c][1..] == [];
  }

  lemma {:induction false} PublishTells(base: Image, s: Sim, ws: Writes)
    requires Tells(base, s)
    ensures Tells(base, Publish(s, ws))
    decreases |ws|
  {
    if ws != [] {
      SetTagTells(base, s, ws[0].0, ws[0].1);
      PublishTells(base, SetTag(s, ws[0].0, ws[0].1), ws[1..]);
    }
  }

  lemma {:induction false} PublishStateTells(base: Image, s: Sim, i: nat, st: State, code: int, mode: int, origin: int)
    requires i <= STATE_WRITES && Tells(base, s)
    ensures Tells(base, PublishState(s, i, st, code, mode, origin))
    decreases STATE_WRITES - i
  {
    if i < STATE_WRITES {
      var w := StateWrite(i, st, code, mode, origin);
      SetTagTells(base, s, w.0, w.1);
      PublishStateTells(base, SetTag(s, w.0, w.1), i + 1, st, code, mode, origin);
    }
  }

  /** Same instant, same pending changes, same image. */
  predicate Quiet(s: Sim, r: Sim) { r.now == s.now && r.changes == s.changes && r.image == s.image }

  /** From s to r nothing but publications happened to the instant, the image and the log. */
  ghost predicate Talks(s: Sim, r: Sim) {
    r.now == s.now && forall base :: Tells(base, s) ==> Tells(base, r)
  }

  lemma EnterTalks(s: Sim, st: State, code: int, mode: int, origin: int, r: Sim)
    requires r == Enter(s, st, code, mode, origin)
    ensures Talks(s, r)
  {
    var c := Frozen(s.cell, s.now);
    var mid := s.(cell := c.(epoch := c.epoch + 1, state := st));
    forall base | Tells(base, s) ensures Tells(base, r) {
      PublishStateTells(base, mid, 0, st, code, mode, origin);
    }
  }

  /** The state a free cell enters. */
  function NextState(c: Cell): State {
    if c.breakActive then PlannedStop else if c.capChangeDue || c.dressingDue then Setup else Producing
  }

  lemma ResumeTalks(cfg: Config, s: Sim, d: Draws, r: Sim)
    requires cfg.points > 0 && r == Resume(cfg, s, d)
    ensures Talks(s, r)
  {
    var st := NextState(s.cell);
    EnterTalks(s, st, 0, AUTO_MODE, DefaultOrigin(st, 0), Enter(s, st, 0, AUTO_MODE, DefaultOrigin(st, 0)));
  }

  lemma EnterFaultTalks(s: Sim, code: int, duration: Option<real>, d: Draws, r: Sim)
    requires r == EnterFault(s, code, duration, d)
    ensures Talks(s, r)
  {
    var origin := DefaultOrigin(Fault, code);
    EnterTalks(s, Fault, code, AUTO_MODE, origin, Enter(s, Fault, code, AUTO_MODE, origin));
  }

  lemma PublishTalks(s: Sim, mid: Sim, ws: Writes, r: Sim)
    requires Quiet(s, mid) && r == Publish(mid, ws)
    ensures Talks(s, r)
  {
    forall base | Tells(base, s) ensures Tells(base, r) {
      PublishTells(base, mid, ws);
    }
  }

  lemma AfterPartTalks(cfg: Config, s: Sim, d: Draws, r: Sim)
    requires cfg.points > 0 && r == AfterPart(cfg, s, d)
    ensures Talks(s, r)
  {
    var mid := s.(cell := Noted(cfg, s.cell));
    assert Quiet(s, mid);
    if s.cell.weldNok >= cfg.nokLimit {
      EnterFaultTalks(mid, WELD_FAULT, None, d, r);
    } else {
      ResumeTalks(cfg, mid, d, r);
    }
  }

  lemma CountPartTalks(s: Sim, d: Draws, r: Sim)
    requires r == CountPart(s, d)
    ensures Talks(s, r)
  {
    PublishTalks(s, s.(cell := r.cell), PartWrites(r.cell, !s.cell.partWeldOk || d.scrap), r);
  }

  lemma OnSlotEndTalks(cfg: Config, s: Sim, d: Draws, r: Sim)
    requires cfg.points > 0 && r == OnSlotEnd(cfg, s, d)
    ensures Talks(s, r)
  {
    var s1 := WeldPoint(s, d);
    PublishTalks(s, s.(cell := s1.cell), PointWrites(s1.cell, d), s1);
    if s1.cell.slotIdx >= cfg.points {
      CountPartTalks(s1, d, CountPart(s1, d));
      AfterPartTalks(cfg, CountPart(s1, d), d, r);
    }
  }

  lemma OnInterruptTalks(s: Sim, what: Cut, d: Draws, r: Sim)
    requires r == OnInterrupt(s, what, d)
    ensures Talks(s, r)
  {
    match what
    case FaultCut(code) => EnterFaultTalks(s, code, None, d, r);
    case StarvedCut =>
      var origin := DefaultOrigin(Starved, 0);
      EnterTalks(s, Starved, 0, AUTO_MODE, origin, Enter(s, Starved, 0, AUTO_MODE, origin));
    case BlockedCut =>
      var origin := DefaultOrigin(Blocked, 0);
      EnterTalks(s, Blocked, 0, AUTO_MODE, origin, Enter(s, Blocked, 0, AUTO_MODE, origin));
  }

  lemma OnStopEndTalks(cfg: Config, s: Sim, stop: StopKind, d: Draws, r: Sim)
    requires cfg.points > 0 && r == OnStopEnd(cfg, s, stop, d)
    ensures Talks(s, r)
  {
    if stop.FaultStop? && d.manual {
      var origin := OriginCode(StationOfFault(stop.code));
      EnterTalks(s, Manual, 0, MANUAL_MODE, origin, Enter(s, Manual, 0, MANUAL_MODE, origin));
    } else {
      var mid := if stop.SetupStop? then FinishSetup(s, stop.capChange, d) else s;
      var ws: Writes := if stop.SetupStop? && stop.capChange then [(WeldPoints, I(0))] else [];
      PublishTalks(s, s.(cell := mid.cell), ws, mid);
      ResumeTalks(cfg, mid, d, r);
    }
  }

  lemma BreakStartTalks(cfg: Config, s: Sim, d: Draws, r: Sim)
    requires ValidConfig(cfg) && ValidSlot(cfg.calendar, s.cell.breakWindow) && r == OnBreakStart(cfg, s, d)
    ensures Talks(s, r)
  {
    var mid := TakeBreak(cfg, s);
    ResumeTalks(cfg, mid, d, Resume(cfg, mid, d));
  }

  lemma BreakEndTalks(cfg: Config, s: Sim, d: Draws, r: Sim)
    requires ValidConfig(cfg) && ValidSlot(cfg.calendar, s.cell.breakWindow) && r == OnBreakEnd(cfg, s, d)
    ensures Talks(s, r)
  {
    var mid := LeaveBreak(cfg, s);
    assert Quiet(s, mid);
    ResumeTalks(cfg, mid, d, Resume(cfg, mid, d));
  }

  lemma BackgroundTalks(cfg: Config, s: Sim, r: Sim)
    requires ValidConfig(cfg)
    requires r == OnHeartbeat(s) || r == OnFreezeStart(cfg, s) || r == OnFreezeEnd(cfg, s)
             || r == OnCounterReset(cfg, s)
    ensures Talks(s, r)
  {
    forall base | Tells(base, s) ensures Tells(base, r) {
      var beat := Masked(s.cell.heartbeat + 1);
      SetTagTells(base, s.(cell := s.cell.(heartbeat := beat)), Heartbeat, I(beat));
      var s1 := SetCounters(s, 0, 0);
      PublishTells(base, s.(cell := s1.cell), [(Good, I(0)), (Scrap, I(0))]);
      SetTagTells(base, s1.(cell := s1.cell.(heartbeat := 0)), Heartbeat, I(0));
    }
  }

  /** No handler moves the clock, and all of them publish through the one channel. */
  lemma HandleTalks(cfg: Config, s: Sim, e: Ev, d: Draws, r: Sim)
    requires ValidConfig(cfg) && ValidSlot(cfg.calendar, s.cell.breakWindow)
    requires r == Handle(cfg, s, e, d)
    ensures Talks(s, r)
  {
    match e.kind
    case SlotEnd => if Current(s, e) { OnSlotEndTalks(cfg, s, d, r); }
    case Interrupt(what) => if Current(s, e) { OnInterruptTalks(s, what, d, r); }
    case StopEnd(stop) => if Current(s, e) { OnStopEndTalks(cfg, s, stop, d, r); }
    case BreakStart => BreakStartTalks(cfg, s, d, r);
    case BreakEnd => BreakEndTalks(cfg, s, d, r);
    case _ => BackgroundTalks(cfg, s, r);
  }

  lemma ForceTalks(cfg: Config, s: Sim, code: int, duration: real, at: real, d: Draws, r: Sim)
    requires s.heap != {} && Numbered(s.heap) && r == ForceFault(cfg, s, code, duration, at, d).0
    ensures s.changes == [] ==> forall base :: s.image == base ==> Tells(base, r)
  {
    var s1 := s.(now := RMax(s.now, at));
    EnterFaultTalks(s1, code, Some(duration), d, EnterFault(s1, code, Some(duration), d));
    var origin := DefaultOrigin(Fault, code);
    EnterTalks(s1, Fault, code, AUTO_MODE, origin, Enter(s1, Fault, code, AUTO_MODE, origin));
    assert s.changes == [] ==> Tells(s.image, s) && Tells(s.image, s1);
  }

  // ------------------------------------------------------------ the first publication

  /** Every tag of the address space. */
  ghost predicate FullImage(image: Image) { forall tag: Tag :: tag in image }

  lemma {:induction false} PublishKeepsTags(s: Sim, ws: Writes)
    ensures s.image.Keys <= Publish(s, ws).image.Keys
    ensures forall i :: 0 <= i < |ws| ==> ws[i].0 in Publish(s, ws).image
    decreases |ws|
  {
    if ws != [] {
      var s1 := SetTag(s, ws[0].0, ws[0].1);
      PublishKeepsTags(s1, ws[1..]);
      assert ws[0].0 in s1.image.Keys;
      assert forall i :: 1 <= i < |ws| ==> ws[i] == ws[1..][i - 1];
    }
  }

  ghost predicate HasStateTags(image: Image) {
    && CellState in image && CellMode in image && CellFault in image && CellOrigin in image
    && forall st: Station :: StationState(st) in image && StationFault(st) in image
  }

  ghost predicate HasCellTags(image: Image) {
    && CycleTime in image && LastCycle in image && Good in image && Scrap in image && Heartbeat in image
    && WeldCurrent in image && WeldPoints in image && WeldOk in image
  }

  lemma AllTags(image: Image)
    requires HasStateTags(image) && HasCellTags(image)
    ensures FullImage(image)
  {
    forall tag: Tag ensures tag in image {
      match tag case StationState(st) => case StationFault(st) => case _ =>
    }
  }

  lemma {:induction false} PublishStateKeepsTags(s: Sim, i: nat, st: State, code: int, mode: int, origin: int)
    requires i <= STATE_WRITES
    ensures var r := PublishState(s, i, st, code, mode, origin);
            s.image.Keys <= r.image.Keys && forall k :: i <= k < STATE_WRITES ==>
                StateWrite(k, st, code, mode, origin).0 in r.image
    decreases STATE_WRITES - i
  {
    if i < STATE_WRITES {
      var w := StateWrite(i, st, code, mode, origin);
      PublishStateKeepsTags(SetTag(s, w.0, w.1), i + 1, st, code, mode, origin);
      assert w.0 in SetTag(s, w.0, w.1).image.Keys;
    }
  }

  lemma EnterWritesStates(s: Sim, st: State, code: int, mode: int, origin: int, r: Sim)
    requires r == Enter(s, st, code, mode, origin)
    ensures HasStateTags(r.image) && s.image.Keys <= r.image.Keys
  {
    var c := Frozen(s.cell, s.now);
    PublishStateKeepsTags(s.(cell := c.(epoch := c.epoch + 1, state := st)), 0, st, code, mode, origin);
    StateTagsListed(r.image, st, code, mode, origin);
  }

  lemma StateTagsListed(image: Image, st: State, code: int, mode: int, origin: int)
    requires forall k :: 0 <= k < STATE_WRITES ==> StateWrite(k, st, code, mode, origin).0 in image
    ensures HasStateTags(image)
  {
    assert StateWrite(0, st, code, mode, origin).0 in image && StateWrite(1, st, code, mode, origin).0 in image;
    assert StateWrite(2, st, code, mode, origin).0 in image && StateWrite(3, st, code, mode, origin).0 in image;
    assert StateWrite(4, st, code, mode, origin).0 in image && StateWrite(5, st, code, mode, origin).0 in image;
    assert StateWrite(6, st, code, mode, origin).0 in image && StateWrite(7, st, code, mode, origin).0 in image;
    assert StateWrite(8, st, code, mode, origin).0 in image && StateWrite(9, st, code, mode, origin).0 in image;
    forall at: Station ensures StationState(at) in image && StationFault(at) in image {
      match at case OP10 => case OP20 => case OP30 =>
    }
  }

  lemma ResumeWritesStates(cfg: Config, s: Sim, d: Draws, r: Sim)
    requires cfg.points > 0 && r == Resume(cfg, s, d)
    ensures HasStateTags(r.image) && s.image.Keys <= r.image.Keys
  {
    var st := NextState(s.cell);
    EnterWritesStates(s, st, 0, AUTO_MODE, DefaultOrigin(st, 0), Enter(s, st, 0, AUTO_MODE, DefaultOrigin(st, 0)));
  }

  lemma CellTagsListed(cfg: Config, c: Cell, ws: Writes, image: Image)
    requires ws == StartWrites(cfg, c)
    requires forall i :: 0 <= i < |ws| ==> ws[i].0 in image
    ensures HasCellTags(image)
  {
    assert ws[0].0 in image && ws[1].0 in image && ws[2].0 in image && ws[3].0 in image;
    assert ws[4].0 in image && ws[5].0 in image && ws[6].0 in image && ws[7].0 in image;
  }

  lemma StartCellTalks(cfg: Config, s: Sim, d: Draws, r: Sim)
    requires ValidConfig(cfg) && r == StartCell(cfg, s, d)
    ensures Talks(s, r) && FullImage(r.image)
  {
    var s0 := Publish(s, StartWrites(cfg, s.cell));
    var s1 := Schedule(s0, 1.0, HeartbeatTick, None);
    var s2 := ArmBreak(cfg, s1, s1.now);
    PublishTalks(s, s, StartWrites(cfg, s.cell), s0);
    ResumeTalks(cfg, s2, d, r);
    PublishKeepsTags(s, StartWrites(cfg, s.cell));
    CellTagsListed(cfg, s.cell, StartWrites(cfg, s.cell), s0.image);
    ResumeWritesStates(cfg, s2, d, r);
    assert s0.image.Keys <= r.image.Keys;
    AllTags(r.image);
  }

  /** The first publication holds every tag, all at the start time, and is the image. */
  lemma StartTells(cfg: Config, startTs: real, kept: Retained, d: Draws, r: Sim)
    requires ValidConfig(cfg) && r == Start(cfg, startTs, kept, d)
    ensures Tells(map[], r) && r.now == startTs && FullImage(r.image)
  {
    var s0 := Created(cfg, startTs, kept);
    var s := ApplyAtStart(cfg, s0);
    assert Tells(map[], s0);
    if s != s0 {
      var ws: Writes := [(Good, I(s.cell.good)), (Scrap, I(s.cell.scrap))];
      PublishTalks(s0, s0.(cell := s.cell), ws, s);
    }
    var s1 := StartCell(cfg, s, d);
    StartCellTalks(cfg, s, d, s1);
    assert Quiet(s1, r);
  }
}
