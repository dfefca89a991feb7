/** backend/app/collector/watchdog.py: communication gaps from the heartbeat.
    Heartbeat timestamps are simulated microseconds, arrival times are wall-clock seconds. */
module Watching {
  import opened Basics
  import opened Facts
  import opened Storage

  type GapTable = map<int, Option<int>>

  datatype Limits = Limits(timeout: real, jump: real)

  datatype Watch = Watch(lastBeat: Option<int>, lastWall: real, gapStart: Option<int>, checkJump: bool)

  datatype Signal = Beat(ts: int, now: real) | Poll(now: real) | Connected(now: real)

  datatype Reaction = Reaction(watch: Watch, ops: seq<Op>)

  function Start(now: real, lastSeen: Option<int>, openGap: Option<int>): Watch {
    Watch(lastSeen, now, openGap, lastSeen.Some?)
  }

  /** First run ever: observation starts at the oldest timestamp received. */
  function Seed(w: Watch, first: int): Watch {
    if w.lastBeat.None? then w.(lastBeat := Some(first), checkJump := true) else w
  }

  function React(w: Watch, s: Signal, lim: Limits): Reaction {
    match s
    case Connected(now) => Reaction(w.(lastWall := now, checkJump := w.lastBeat.Some?), [])
    case Poll(now) =>
      if w.gapStart.None? && w.lastBeat.Some? && now - w.lastWall > lim.timeout
      then Reaction(w.(gapStart := w.lastBeat), [OpenGap(w.lastBeat.value)]) else Reaction(w, [])
    case Beat(ts, now) =>
      if w.lastBeat.Some? && ts <= w.lastBeat.value then Reaction(w, [])
      else
        var ops := if w.gapStart.Some? then [CloseGap(w.gapStart.value, ts)]
                   else if w.checkJump && w.lastBeat.Some? && (ts - w.lastBeat.value) as real > lim.jump
                   then [ClosedGap(w.lastBeat.value, ts)] else [];
        Reaction(Watch(Some(ts), now, None, false), ops)
  }

  /** The table of gaps after a session whose operations are committed as they are emitted. */
  function Recorded(db: Db, w: Watch, ss: seq<Signal>, lim: Limits): Db
    decreases |ss|
  {
    if ss == [] then db
    else
      var r := React(w, ss[0], lim);
      Recorded(ApplyOps(db, r.ops), r.watch, ss[1..], lim)
  }

  function WatchAfter(w: Watch, ss: seq<Signal>, lim: Limits): Watch
    decreases |ss|
  {
    if ss == [] then w else WatchAfter(React(w, ss[0], lim).watch, ss[1..], lim)
  }

  // ------------------------------------------------------------ the reference: unobserved intervals

  /** The signals of one heartbeat interval saw silence beyond the timeout, counted from the heartbeat
      or from the last reconnection. */
  ghost predicate SilenceSeen(wall: real, quiet: seq<Signal>, lim: Limits)
    decreases |quiet|
  {
    quiet != [] &&
    match quiet[0]
    case Poll(now) => now - wall > lim.timeout || SilenceSeen(wall, quiet[1..], lim)
    case Connected(now) => SilenceSeen(now, quiet[1..], lim)
    case Beat(_, _) => SilenceSeen(wall, quiet[1..], lim)
  }

  ghost predicate Reconnected(quiet: seq<Signal>) { exists i :: 0 <= i < |quiet| && quiet[i].Connected? }

  /** No new heartbeat after `beat` among these signals. */
  ghost predicate Quiet(beat: int, quiet: seq<Signal>) {
    forall i :: 0 <= i < |quiet| && quiet[i].Beat? ==> quiet[i].ts <= beat
  }

  function WallAfter(wall: real, quiet: seq<Signal>): real
    decreases |quiet|
  {
    if quiet == [] then wall
    else WallAfter(if quiet[0].Connected? then quiet[0].now else wall, quiet[1..])
  }

  /** Whether the interval from one accepted heartbeat to the next, at `ts`, went unobserved. */
  ghost predicate Unobserved(beat: int, ts: int, wall: real, check: bool, quiet: seq<Signal>, lim: Limits) {
    SilenceSeen(wall, quiet, lim) || ((check || Reconnected(quiet)) && (ts - beat) as real > lim.jump)
  }

  /** What an accepted heartbeat at `ts` leaves of the interval it ends. */
  ghost function Ended(beat: int, ts: int, wall: real, check: bool, quiet: seq<Signal>, lim: Limits): GapTable {
    if Unobserved(beat, ts, wall, check, quiet, lim) then map[beat := Some(ts)] else map[]
  }

  /** The gaps of a session that starts gap-free at heartbeat `beat`: its unobserved intervals, the
      last one open if silence was seen since the last heartbeat. `quiet` is what came after `beat`. */
  ghost function Gaps(beat: int, wall: real, check: bool, quiet: seq<Signal>, ss: seq<Signal>, lim: Limits): GapTable
    decreases |ss|
  {
    if ss == [] then (if SilenceSeen(wall, quiet, lim) then map[beat := None] else map[])
    else if ss[0].Beat? && beat < ss[0].ts then
      Ended(beat, ss[0].ts, wall, check, quiet, lim) + Gaps(ss[0].ts, ss[0].now, false, [], ss[1..], lim)
    else Gaps(beat, wall, check, quiet + [ss[0]], ss[1..], lim)
  }

  // ------------------------------------------------------------ the watchdog meets the reference

  /** The state within an interval, told from the signals received since its heartbeat. */
  ghost function Within(beat: int, wall: real, check: bool, quiet: seq<Signal>, lim: Limits): Watch {
    Watch(Some(beat), WallAfter(wall, quiet), if SilenceSeen(wall, quiet, lim) then Some(beat) else None,
          check || Reconnected(quiet))
  }

  lemma {:induction false} QuietAppend(wall: real, quiet: seq<Signal>, s: Signal, lim: Limits)
    ensures WallAfter(wall, quiet + [s]) == if s.Connected? then s.now else WallAfter(wall, quiet)
    ensures SilenceSeen(wall, quiet + [s], lim)
            <==> SilenceSeen(wall, quiet, lim) || (s.Poll? && s.now - WallAfter(wall, quiet) > lim.timeout)
    ensures Reconnected(quiet + [s]) <==> Reconnected(quiet) || s.Connected?
    decreases |quiet|
  {
    if quiet == [] {
      assert quiet + [s] == [s] && [s][1..] == [];
    } else {
      assert (quiet + [s])[1..] == quiet[1..] + [s];
      QuietAppend(if quiet[0].Connected? then quiet[0].now else wall, quiet[1..], s, lim);
    }
    if Reconnected(quiet) {
      var i :| 0 <= i < |quiet| && quiet[i].Connected?;
      assert (quiet + [s])[i].Connected?;
    }
    assert (quiet + [s])[|quiet|] == s;
  }

  /** One quiet signal: the watchdog opens a gap at the moment silence is first seen. */
  lemma QuietStep(beat: int, wall: real, check: bool, quiet: seq<Signal>, s: Signal, lim: Limits)
    requires s.Beat? ==> s.ts <= beat
    ensures React(Within(beat, wall, check, quiet, lim), s, lim)
            == Reaction(Within(beat, wall, check, quiet + [s], lim),
                        if SilenceSeen(wall, quiet + [s], lim) && !SilenceSeen(wall, quiet, lim)
                        then [OpenGap(beat)] else [])
  {
    QuietAppend(wall, quiet, s, lim);
  }

  /** What the interval's own open gap leaves in the table. */
  ghost function OpenPart(beat: int, wall: real, quiet: seq<Signal>, lim: Limits): GapTable {
    if SilenceSeen(wall, quiet, lim) then map[beat := None] else map[]
  }

  ghost predicate AllClosed(gaps: GapTable) { forall g :: g in gaps ==> gaps[g].Some? }

  /** A row already stored under the same start is kept as it is. */
  lemma BeatCloses(db: Db, base: GapTable, beat: int, wall: real, check: bool, quiet: seq<Signal>, s: Signal,
                   lim: Limits)
    requires s.Beat? && beat < s.ts && AllClosed(base)
    requires db.gaps == OpenPart(beat, wall, quiet, lim) + base
    ensures var r := React(Within(beat, wall, check, quiet, lim), s, lim);
            && r.watch == Within(s.ts, s.now, false, [], lim)
            && ApplyOps(db, r.ops).gaps == Ended(beat, s.ts, wall, check, quiet, lim) + base
  {
    if SilenceSeen(wall, quiet, lim) {
      ApplyOne(db, CloseGap(beat, s.ts));
      ClosesRow(db, base, beat, s.ts);
    } else if Unobserved(beat, s.ts, wall, check, quiet, lim) {
      ApplyOne(db, ClosedGap(beat, s.ts));
      AddsRow(db, base, beat, s.ts);
    }
  }

  lemma ClosesRow(db: Db, base: GapTable, beat: int, ts: int)
    requires beat < ts && AllClosed(base) && db.gaps == map[beat := None] + base
    ensures ApplyOp(db, CloseGap(beat, ts)).gaps == map[beat := Some(ts)] + base
  {
    if beat in base {
      assert db.gaps == base && map[beat := Some(ts)] + base == base;
    } else {
      assert db.gaps[beat := Some(ts)] == map[beat := Some(ts)] + base;
    }
  }

  lemma AddsRow(db: Db, base: GapTable, beat: int, ts: int)
    requires db.gaps == base
    ensures ApplyOp(db, ClosedGap(beat, ts)).gaps == map[beat := Some(ts)] + base
  {
  }

  /** The gaps recorded are exactly the unobserved heartbeat intervals, over every interleaving of
      heartbeats, polls and reconnections; the closed gaps stored before stay as they are. */
  lemma {:induction false} GapsAreUnobservedIntervals(
    db: Db, base: GapTable, beat: int, wall: real, check: bool, quiet: seq<Signal>, ss: seq<Signal>,
    lim: Limits)
    requires AllClosed(base) && db.gaps == OpenPart(beat, wall, quiet, lim) + base
    ensures Recorded(db, Within(beat, wall, check, quiet, lim), ss, lim).gaps
            == Gaps(beat, wall, check, quiet, ss, lim) + base
    decreases |ss|, 1
  {
    if ss != [] {
      if ss[0].Beat? && beat < ss[0].ts {
        BeatGap(db, base, beat, wall, check, quiet, ss, lim);
      } else {
        QuietGap(db, base, beat, wall, check, quiet, ss, lim);
      }
    }
  }

  lemma {:induction false} BeatGap(
    db: Db, base: GapTable, beat: int, wall: real, check: bool, quiet: seq<Signal>, ss: seq<Signal>,
    lim: Limits)
    requires AllClosed(base) && db.gaps == OpenPart(beat, wall, quiet, lim) + base
    requires ss != [] && ss[0].Beat? && beat < ss[0].ts
    ensures Recorded(db, Within(beat, wall, check, quiet, lim), ss, lim).gaps
            == Gaps(beat, wall, check, quiet, ss, lim) + base
    decreases |ss|, 0
  {
    var s, w := ss[0], Within(beat, wall, check, quiet, lim);
    var after, here := ApplyOps(db, React(w, s, lim).ops), Ended(beat, s.ts, wall, check, quiet, lim);
    var later := Gaps(s.ts, s.now, false, [], ss[1..], lim);
    BeatCloses(db, base, beat, wall, check, quiet, s, lim);
    assert after.gaps == OpenPart(s.ts, s.now, [], lim) + after.gaps;
    GapsAreUnobservedIntervals(after, after.gaps, s.ts, s.now, false, [], ss[1..], lim);
    GapsAreDisjoint(s.ts, s.now, false, [], ss[1..], lim);
    MapsExchange(later, here, base);
  }

  lemma MapsExchange(a: GapTable, b: GapTable, c: GapTable)
    requires a.Keys !! b.Keys
    ensures a + (b + c) == (b + a) + c
  {
  }

  lemma {:induction false} QuietGap(
    db: Db, base: GapTable, beat: int, wall: real, check: bool, quiet: seq<Signal>, ss: seq<Signal>,
    lim: Limits)
    requires AllClosed(base) && db.gaps == OpenPart(beat, wall, quiet, lim) + base
    requires ss != [] && !(ss[0].Beat? && beat < ss[0].ts)
    ensures Recorded(db, Within(beat, wall, check, quiet, lim), ss, lim).gaps
            == Gaps(beat, wall, check, quiet, ss, lim) + base
    decreases |ss|, 0
  {
    var s, w := ss[0], Within(beat, wall, check, quiet, lim);
    QuietStep(beat, wall, check, quiet, s, lim);
    QuietOpens(db, base, beat, wall, quiet, s, lim, React(w, s, lim).ops);
    GapsAreUnobservedIntervals(ApplyOps(db, React(w, s, lim).ops), base, beat, wall, check, quiet + [s], ss[1..], lim);
  }

  lemma QuietOpens(db: Db, base: GapTable, beat: int, wall: real, quiet: seq<Signal>, s: Signal,
                   lim: Limits, ops: seq<Op>)
    requires db.gaps == OpenPart(beat, wall, quiet, lim) + base
    requires ops == if SilenceSeen(wall, quiet + [s], lim) && !SilenceSeen(wall, quiet, lim) then [OpenGap(beat)]
                    else []
    ensures ApplyOps(db, ops).gaps == OpenPart(beat, wall, quiet + [s], lim) + base
  {
    QuietAppend(wall, quiet, s, lim);
    if ops != [] { ApplyOne(db, ops[0]); }
  }

  /** A whole session that resumes from `lastSeen` on a table without an open gap. */
  lemma SessionGaps(db: Db, lastSeen: int, now: real, ss: seq<Signal>, lim: Limits)
    requires AllClosed(db.gaps)
    ensures Recorded(db, Start(now, Some(lastSeen), None), ss, lim).gaps
            == Gaps(lastSeen, now, true, [], ss, lim) + db.gaps
  {
    assert Start(now, Some(lastSeen), None) == Within(lastSeen, now, true, [], lim);
    assert OpenPart(lastSeen, now, [], lim) + db.gaps == db.gaps;
    GapsAreUnobservedIntervals(db, db.gaps, lastSeen, now, true, [], ss, lim);
  }

  /** A session that resumes inside an open gap closes it at the first new heartbeat past its start, and
      goes on gap-free from there. */
  lemma {:induction false} RestoredGapCloses(db: Db, w: Watch, quiet: seq<Signal>, ts: int, now: real, lim: Limits)
    requires w.gapStart.Some? && w.lastBeat.Some? && w.lastBeat.value < ts
    requires w.gapStart.value in db.gaps && db.gaps[w.gapStart.value].None?
    requires Quiet(w.lastBeat.value, quiet)
    ensures var ss, g := quiet + [Beat(ts, now)], w.gapStart.value;
            && WatchAfter(w, ss, lim) == Within(ts, now, false, [], lim)
            && Recorded(db, w, ss, lim).gaps == if g < ts then db.gaps[g := Some(ts)] else db.gaps
    decreases |quiet|
  {
    var ss := quiet + [Beat(ts, now)];
    if quiet == [] {
      assert ss == [Beat(ts, now)];
      assert ss[1..] == [];
      ApplyOne(db, CloseGap(w.gapStart.value, ts));
    } else {
      var next := React(w, quiet[0], lim).watch;
      assert ss[0] == quiet[0] && ss[1..] == quiet[1..] + [Beat(ts, now)];
      forall i | 0 <= i < |quiet[1..]| && quiet[1..][i].Beat? ensures quiet[1..][i].ts <= w.lastBeat.value {}
      RestoredGapCloses(db, next, quiet[1..], ts, now, lim);
    }
  }

  /** From `beat` on, non-empty and not overlapping: each begins at or after the end of the one before. */
  ghost predicate Disjoint(beat: int, gaps: GapTable) {
    && (forall g :: g in gaps ==> beat <= g)
    && (forall g :: g in gaps && gaps[g].Some? ==> g < gaps[g].value)
    && (forall g, h :: g in gaps && h in gaps && g < h ==> gaps[g].Some? && gaps[g].value <= h)
  }

  lemma {:induction false} GapsAreDisjoint(beat: int, wall: real, check: bool, quiet: seq<Signal>, ss: seq<Signal>,
                                           lim: Limits)
    ensures Disjoint(beat, Gaps(beat, wall, check, quiet, ss, lim))
    decreases |ss|
  {
    if ss != [] {
      if ss[0].Beat? && beat < ss[0].ts {
        GapsAreDisjoint(ss[0].ts, ss[0].now, false, [], ss[1..], lim);
        var tail := Gaps(ss[0].ts, ss[0].now, false, [], ss[1..], lim);
        assert Disjoint(beat, map[beat := Some(ss[0].ts)] + tail);
      } else {
        GapsAreDisjoint(beat, wall, check, quiet + [ss[0]], ss[1..], lim);
      }
    }
  }

  // ------------------------------------------------------------ the class

  class HeartbeatWatchdog {
    const lim: Limits
    var lastBeat: Option<int>
    var lastWall: real
    var gapStart: Option<int>
    var checkJump: bool

    function View(): Watch
      reads this
    {
      Watch(lastBeat, lastWall, gapStart, checkJump)
    }

    constructor (lim: Limits, now: real, lastSeen: Option<int>, openGap: Option<int>)
      ensures View() == Start(now, lastSeen, openGap) && this.lim == lim
    {
      this.lim := lim;
      lastBeat, lastWall, gapStart, checkJump := lastSeen, now, openGap, lastSeen.Some?;
    }

    method SeedFirst(first: int)
      modifies this
      ensures View() == Seed(old(View()), first)
    {
      if lastBeat.None? {
        lastBeat := Some(first);
        checkJump := true;
      }
    }

    method OnConnected(now: real)
      modifies this
      ensures Reaction(View(), []) == React(old(View()), Connected(now), lim)
    {
      lastWall := now;
      checkJump := lastBeat.Some?;
    }

    method OnHeartbeat(ts: int, now: real) returns (ops: seq<Op>)
      modifies this
      ensures Reaction(View(), ops) == React(old(View()), Beat(ts, now), lim)
    {
      if lastBeat.Some? && ts <= lastBeat.value { return []; }
      ops := [];
      if gapStart.Some? {
        ops := ops + [CloseGap(gapStart.value, ts)];
        gapStart := None;
      } else if checkJump && lastBeat.Some? && (ts - lastBeat.value) as real > lim.jump {
        ops := ops + [ClosedGap(lastBeat.value, ts)];
      }
      checkJump := false;
      lastBeat := Some(ts);
      lastWall := now;
    }

    method PollSilence(now: real) returns (ops: seq<Op>)
      modifies this
      ensures Reaction(View(), ops) == React(old(View()), Poll(now), lim)
    {
      ops := [];
      if gapStart.None? && lastBeat.Some? && now - lastWall > lim.timeout {
        gapStart := lastBeat;
        ops := [OpenGap(gapStart.value)];
      }
    }
  }
}
