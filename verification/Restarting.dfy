/** Restarts and redeliveries are invisible: what the subscription replays produces nothing. */
module Restarting {
  import opened Basics
  import opened Facts
  import opened Tracking
  import opened Storage
  import opened History

  // ------------------------------------------------------------ the replay of a subscription

  function ReplayGroup(latest: Latest, ts: int): Group {
    Group(ts, map tag | tag in latest && latest[tag].ts == ts :: latest[tag].value, false)
  }

  function Times(latest: Latest): set<int> { set tag | tag in latest :: latest[tag].ts }

  function ReplayAt(latest: Latest, times: seq<int>): seq<Group> {
    seq(|times|, i requires 0 <= i < |times| => ReplayGroup(latest, times[i]))
  }

  /** Each tag's current value with the timestamp of its last change, as the assembler releases them. */
  function Replay(latest: Latest): seq<Group> { ReplayAt(latest, Sorted(Times(latest))) }

  function Before(latest: Latest, ts: int): Latest {
    map tag | tag in latest && latest[tag].ts < ts :: latest[tag]
  }

  function UpTo(latest: Latest, ts: int): Latest {
    map tag | tag in latest && latest[tag].ts <= ts :: latest[tag]
  }

  ghost predicate Touches(latest: Latest, ts: int, tags: set<Tag>) {
    exists tag :: tag in tags && tag in latest && latest[tag].ts == ts
  }

  // ------------------------------------------------------------ when a replay is silent

  ghost predicate CellSettled(mem: Memory, latest: Latest, ts: int) {
    Touches(latest, ts, CELL_TAGS) && CellKnown(UpTo(latest, ts)) ==>
      && mem.lastCell.Some?
      && (mem.lastCell.value.row == CellValues(latest) || ts <= mem.lastCell.value.ts)
  }

  ghost predicate StationSettled(mem: Memory, latest: Latest, ts: int, st: Station) {
    Touches(latest, ts, {StationState(st), StationFault(st)}) && StationKnown(UpTo(latest, ts), st) ==>
      && st in mem.lastStation
      && (mem.lastStation[st].row == StationValues(latest, st) || ts <= mem.lastStation[st].ts)
  }

  ghost predicate CounterSettled(mem: Memory, latest: Latest, ts: int) {
    Touches(latest, ts, {Good, Scrap}) && CounterKnown(UpTo(latest, ts)) ==>
      mem.lastCounter.Some? && ts <= mem.lastCounter.value
  }

  ghost predicate WeldSettled(mem: Memory, latest: Latest, ts: int) {
    Touches(latest, ts, {WeldCurrent}) && WeldKnown(UpTo(latest, ts)) ==>
      mem.lastWeld.Some? && ts <= mem.lastWeld.value
  }

  ghost predicate SettledAt(mem: Memory, latest: Latest, ts: int) {
    && CellSettled(mem, latest, ts)
    && (forall st :: StationSettled(mem, latest, ts, st))
    && CounterSettled(mem, latest, ts)
    && WeldSettled(mem, latest, ts)
  }

  /** Every known value is older than, or agrees with, what the database holds. */
  ghost predicate Settled(t: Tracker) {
    forall ts :: ts in Times(t.latest) ==> SettledAt(t.mem, t.latest, ts)
  }

  lemma ReplayedTags(latest: Latest, ts: int, tags: set<Tag>)
    requires Heartbeat !in latest
    ensures Changed(ReplayGroup(latest, ts)) * tags != {} <==> Touches(latest, ts, tags)
  {
    var hit := Changed(ReplayGroup(latest, ts)) * tags;
    TagsInhabited(hit);
    if Touches(latest, ts, tags) {
      var tag :| tag in tags && tag in latest && latest[tag].ts == ts;
      assert tag in hit;
    }
  }

  lemma ReplayLearns(latest: Latest, ts: int)
    requires Heartbeat !in latest
    ensures Learn(Before(latest, ts), ReplayGroup(latest, ts)) == UpTo(latest, ts)
  {
  }

  lemma StationPartsSilent(mem: Memory, latest: Latest, ts: int, changed: set<Tag>)
    ensures (forall st :: StationPart(mem, latest, ts, changed, st).ops == []) ==>
              StationParts(mem, latest, ts, changed, 3) == Outcome(mem, [])
    ensures !(forall st :: StationPart(mem, latest, ts, changed, st).ops == []) ==>
              StationParts(mem, latest, ts, changed, 3).ops != []
  {
    var zero := StationParts(mem, latest, ts, changed, 0);
    var one := StationParts(mem, latest, ts, changed, 1);
    var two := StationParts(mem, latest, ts, changed, 2);
    var three := StationParts(mem, latest, ts, changed, 3);
    assert one == StationPart(mem, latest, ts, changed, OP10);
    assert |three.ops| >= |two.ops| >= |one.ops|;
    if one.ops == [] {
      assert two == StationPart(mem, latest, ts, changed, OP20);
      if two.ops == [] { assert three == StationPart(mem, latest, ts, changed, OP30); }
    }
    forall st | StationPart(mem, latest, ts, changed, st).ops != [] ensures three.ops != [] {
      assert st == OP10 || st == OP20 || st == OP30;
    }
  }

  lemma CellReplays(mem: Memory, latest: Latest, ts: int, known: Latest, changed: set<Tag>)
    requires Heartbeat !in latest && known == UpTo(latest, ts) && changed == Changed(ReplayGroup(latest, ts))
    ensures CellPart(mem, known, ts, changed) == Success(Outcome(mem, [])) <==> CellSettled(mem, latest, ts)
    ensures var r := CellPart(mem, known, ts, changed);
            r == Success(Outcome(mem, [])) || r.Failure? || r.value.ops != []
  {
    ReplayedTags(latest, ts, CELL_TAGS);
  }

  lemma StationReplays(mem: Memory, latest: Latest, ts: int, known: Latest, changed: set<Tag>, st: Station)
    requires Heartbeat !in latest && known == UpTo(latest, ts) && changed == Changed(ReplayGroup(latest, ts))
    ensures StationPart(mem, known, ts, changed, st).ops == [] <==> StationSettled(mem, latest, ts, st)
  {
    ReplayedTags(latest, ts, {StationState(st), StationFault(st)});
  }

  lemma SamplesReplay(mem: Memory, latest: Latest, ts: int, known: Latest, changed: set<Tag>)
    requires Heartbeat !in latest && known == UpTo(latest, ts) && changed == Changed(ReplayGroup(latest, ts))
    ensures CounterPart(mem, known, ts, changed).ops == [] <==> CounterSettled(mem, latest, ts)
    ensures WeldPart(mem, known, ts, changed).ops == [] <==> WeldSettled(mem, latest, ts)
  {
    ReplayedTags(latest, ts, {Good, Scrap});
    ReplayedTags(latest, ts, {WeldCurrent});
    assert WeldCurrent in changed <==> changed * {WeldCurrent} != {};
  }

  /** A group is silent exactly when each part is, on the memory the group finds. */
  lemma SilentIff(t: Tracker, g: Group, latest: Latest, changed: set<Tag>)
    requires latest == Learn(t.latest, g) && changed == Changed(g)
    requires var cell := CellPart(t.mem, latest, g.ts, changed);
             cell == Success(Outcome(t.mem, [])) || cell.Failure? || cell.value.ops != []
    ensures if CellPart(t.mem, latest, g.ts, changed) == Success(Outcome(t.mem, []))
               && (forall st :: StationPart(t.mem, latest, g.ts, changed, st).ops == [])
               && CounterPart(t.mem, latest, g.ts, changed).ops == []
               && WeldPart(t.mem, latest, g.ts, changed).ops == []
            then Apply(t, g) == Success(Step(Tracker(t.mem, latest), []))
            else Apply(t, g).Failure? || Apply(t, g).value.ops != []
  {
    if CellPart(t.mem, latest, g.ts, changed) == Success(Outcome(t.mem, [])) {
      StationPartsSilent(t.mem, latest, g.ts, changed);
    }
  }

  /** One replayed group is silent exactly when its instant is settled. */
  lemma ReplayStep(mem: Memory, latest: Latest, ts: int)
    requires Heartbeat !in latest
    ensures var r := Apply(Tracker(mem, Before(latest, ts)), ReplayGroup(latest, ts));
            if SettledAt(mem, latest, ts) then r == Success(Step(Tracker(mem, UpTo(latest, ts)), []))
            else r.Failure? || r.value.ops != []
  {
    var g, known := ReplayGroup(latest, ts), UpTo(latest, ts);
    ReplayLearns(latest, ts);
    CellReplays(mem, latest, ts, known, Changed(g));
    forall st ensures StationPart(mem, known, ts, Changed(g), st).ops == [] <==> StationSettled(mem, latest, ts, st) {
      StationReplays(mem, latest, ts, known, Changed(g), st);
    }
    SamplesReplay(mem, latest, ts, known, Changed(g));
    SilentIff(Tracker(mem, Before(latest, ts)), g, known, Changed(g));
  }

  /** What is known before the next instant is what is known up to this one. */
  lemma NextIsUpTo(latest: Latest, times: seq<int>)
    requires times != [] && Increasing(times)
    requires forall ts :: ts in Times(latest) && times[0] <= ts ==> ts in times
    ensures UpTo(latest, times[0]) == if |times| == 1 then latest else Before(latest, times[1])
  {
    forall tag | tag in latest ensures latest[tag].ts <= times[0] <==> |times| == 1 || latest[tag].ts < times[1] {
      var u := latest[tag].ts;
      assert u in Times(latest);
      if times[0] <= u {
        var i :| 0 <= i < |times| && times[i] == u;
        assert i > 1 ==> times[1] < times[i];
      }
    }
  }

  lemma ReplayTail(latest: Latest, times: seq<int>, gs: seq<Group>)
    requires times != [] && gs == ReplayAt(latest, times)
    ensures gs != [] && gs[0] == ReplayGroup(latest, times[0]) && gs[1..] == ReplayAt(latest, times[1..])
  {
  }

  lemma SilentFirst(t: Tracker, next: Tracker, gs: seq<Group>)
    requires gs != [] && Apply(t, gs[0]) == Success(Step(next, []))
    ensures ApplyAll(t, gs) == ApplyAll(next, gs[1..])
  {
    var rest := ApplyAll(next, gs[1..]);
    if rest.Success? { assert [] + rest.value.ops == rest.value.ops; }
  }

  lemma LoudFirst(t: Tracker, gs: seq<Group>)
    requires gs != [] && (Apply(t, gs[0]).Failure? || Apply(t, gs[0]).value.ops != [])
    ensures ApplyAll(t, gs).Failure? || ApplyAll(t, gs).value.ops != []
  {
  }

  lemma {:induction false} ReplaySuffix(t: Tracker, times: seq<int>)
    requires Heartbeat !in t.latest
    requires Increasing(times)
    requires forall ts :: ts in times ==> ts in Times(t.latest)
    requires times != [] ==> forall ts :: ts in Times(t.latest) && times[0] <= ts ==> ts in times
    ensures var from := if times == [] then t.latest else Before(t.latest, times[0]);
            var r := ApplyAll(Tracker(t.mem, from), ReplayAt(t.latest, times));
            if forall ts :: ts in times ==> SettledAt(t.mem, t.latest, ts)
            then r == Success(Step(t, [])) else r.Failure? || r.value.ops != []
    decreases |times|
  {
    if times != [] {
      var ts, rest, gs := times[0], times[1..], ReplayAt(t.latest, times);
      var from, next := Tracker(t.mem, Before(t.latest, ts)), Tracker(t.mem, UpTo(t.latest, ts));
      ReplayTail(t.latest, times, gs);
      ReplayStep(t.mem, t.latest, ts);
      NextIsUpTo(t.latest, times);
      ReplaySuffix(t, rest);
      assert forall u :: u in times <==> u == ts || u in rest;
      if SettledAt(t.mem, t.latest, ts) { SilentFirst(from, next, gs); } else { LoudFirst(from, gs); }
    }
  }

  /** A restart is transparent — the replay emits nothing and rebuilds the tracker — if and only if
      the tracker is settled. */
  lemma ReplaySilentIff(t: Tracker)
    requires Heartbeat !in t.latest
    ensures ApplyAll(Tracker(t.mem, map[]), Replay(t.latest)) == Success(Step(t, [])) <==> Settled(t)
  {
    var times := Sorted(Times(t.latest));
    TagsInhabited(t.latest.Keys);
    if tag :| tag in t.latest.Keys {
      assert t.latest[tag].ts in Times(t.latest);
    } else {
      assert t.latest == map[];
    }
    if times != [] {
      forall tag | tag in t.latest ensures times[0] <= t.latest[tag].ts {
        assert t.latest[tag].ts in Times(t.latest);
        assert t.latest[tag].ts in times;
      }
      assert Before(t.latest, times[0]) == map[];
    }
    ReplaySuffix(t, times);
    assert forall ts :: ts in times <==> ts in Times(t.latest);
  }

  // ------------------------------------------------------------ ordered streams stay settled

  ghost predicate Ordered(gs: seq<Group>) {
    forall i, j :: 0 <= i < j < |gs| ==> gs[i].ts < gs[j].ts
  }

  /** The server's current values after a stream of changes. */
  function Image(image: Latest, gs: seq<Group>): Latest
    decreases |gs|
  {
    if gs == [] then image
    else Image(image + (map tag | tag in Changed(gs[0]) :: Known(gs[0].ts, gs[0].values[tag])), gs[1..])
  }

  ghost predicate OlderThan(latest: Latest, ts: int) {
    forall tag :: tag in latest ==> latest[tag].ts < ts
  }

  lemma LearnNewest(latest: Latest, g: Group)
    requires OlderThan(latest, g.ts)
    ensures Learn(latest, g) == Image(latest, [g])
    ensures forall ts :: ts < g.ts ==>
              forall tag :: tag in UpTo(Learn(latest, g), ts) <==> tag in UpTo(latest, ts) && tag !in Changed(g)
  {
    assert [g][1..] == [];
    assert Learn(latest, g) == latest + (map tag | tag in Changed(g) :: Known(g.ts, g.values[tag]));
  }

  lemma FreshTouch(latest: Latest, g: Group, tags: set<Tag>)
    requires OlderThan(latest, g.ts)
    ensures Touches(Learn(latest, g), g.ts, tags) <==> Changed(g) * tags != {}
    ensures forall ts :: ts < g.ts && Touches(Learn(latest, g), ts, tags) ==> Touches(latest, ts, tags)
    ensures UpTo(Learn(latest, g), g.ts) == Learn(latest, g)
  {
    var hit := Changed(g) * tags;
    TagsInhabited(hit);
    if hit != {} {
      var tag :| tag in hit;
      assert tag in tags && Learn(latest, g)[tag].ts == g.ts;
    }
    forall ts | ts < g.ts && Touches(Learn(latest, g), ts, tags) ensures Touches(latest, ts, tags) {
      var tag :| tag in tags && tag in Learn(latest, g) && Learn(latest, g)[tag].ts == ts;
      assert tag in latest && latest[tag].ts == ts;
    }
  }

  /** What a group leaves alone stays settled; what it touches is settled by the tracker itself. */
  lemma ApplySettles(t: Tracker, g: Group)
    requires Settled(t) && OlderThan(t.latest, g.ts) && Heartbeat !in t.latest
    requires Apply(t, g).Success?
    ensures var after := Apply(t, g).value.tracker;
            && Settled(after) && OlderThan(after.latest, g.ts + 1) && Heartbeat !in after.latest
            && after.latest == Image(t.latest, [g])
  {
    var after := Apply(t, g).value.tracker;
    LearnNewest(t.latest, g);
    forall ts | ts in Times(after.latest) ensures SettledAt(after.mem, after.latest, ts) {
      if ts < g.ts {
        assert Touches(after.latest, ts, CELL_TAGS) ==> ts in Times(t.latest) by { FreshTouch(t.latest, g, CELL_TAGS); }
        CellStaysSettled(t, g, ts);
        forall st ensures StationSettled(after.mem, after.latest, ts, st) { StationStaysSettled(t, g, ts, st); }
        SamplesStaySettled(t, g, ts);
      } else {
        CellBecomesSettled(t, g);
        forall st ensures StationSettled(after.mem, after.latest, ts, st) { StationBecomesSettled(t, g, st); }
        SamplesBecomeSettled(t, g);
      }
    }
  }

  /** The parts of `apply` touch parts of the memory of their own. */
  lemma SampleMemory(a: Memory, b: Memory, latest: Latest, ts: int, changed: set<Tag>)
    requires a.lastCounter == b.lastCounter && a.lastWeld == b.lastWeld
    ensures var counter := CounterPart(a, latest, ts, changed).mem;
            var weld := WeldPart(counter, latest, ts, changed).mem;
            && weld.lastCell == a.lastCell && weld.lastStation == a.lastStation
            && weld.lastCounter == CounterPart(b, latest, ts, changed).mem.lastCounter
            && weld.lastWeld == WeldPart(b, latest, ts, changed).mem.lastWeld
  {
  }

  lemma SameStation(a: Memory, b: Memory, latest: Latest, ts: int, changed: set<Tag>, st: Station)
    requires a.lastStation == b.lastStation
    ensures StationPart(a, latest, ts, changed, st).mem.lastStation
            == StationPart(b, latest, ts, changed, st).mem.lastStation
  {
  }

  lemma CellMemory(t: Tracker, g: Group)
    requires Apply(t, g).Success?
    ensures Apply(t, g).value.tracker.mem.lastCell
            == CellPart(t.mem, Learn(t.latest, g), g.ts, Changed(g)).value.mem.lastCell
  {
    var latest, changed := Learn(t.latest, g), Changed(g);
    var cell := CellPart(t.mem, latest, g.ts, changed).value;
    StationMemory(cell.mem, latest, g.ts, changed);
    var mid := StationParts(cell.mem, latest, g.ts, changed, 3).mem;
    SampleMemory(mid, mid, latest, g.ts, changed);
  }

  lemma StationsMemory(t: Tracker, g: Group, st: Station)
    requires Apply(t, g).Success?
    ensures var before := StationPart(t.mem, Learn(t.latest, g), g.ts, Changed(g), st).mem.lastStation;
            var after := Apply(t, g).value.tracker.mem.lastStation;
            (st in after <==> st in before) && (st in after ==> after[st] == before[st])
  {
    var latest, changed := Learn(t.latest, g), Changed(g);
    var cell := CellPart(t.mem, latest, g.ts, changed).value;
    StationMemory(cell.mem, latest, g.ts, changed);
    SameStation(cell.mem, t.mem, latest, g.ts, changed, st);
    var mid := StationParts(cell.mem, latest, g.ts, changed, 3).mem;
    SampleMemory(mid, mid, latest, g.ts, changed);
  }

  lemma SamplesMemory(t: Tracker, g: Group)
    requires Apply(t, g).Success?
    ensures var latest, changed, mem := Learn(t.latest, g), Changed(g), Apply(t, g).value.tracker.mem;
            && mem.lastCounter == CounterPart(t.mem, latest, g.ts, changed).mem.lastCounter
            && mem.lastWeld == WeldPart(t.mem, latest, g.ts, changed).mem.lastWeld
  {
    var latest, changed := Learn(t.latest, g), Changed(g);
    var cell := CellPart(t.mem, latest, g.ts, changed).value;
    StationMemory(cell.mem, latest, g.ts, changed);
    SampleMemory(StationParts(cell.mem, latest, g.ts, changed, 3).mem, t.mem, latest, g.ts, changed);
  }

  lemma StationMemory(mem: Memory, latest: Latest, ts: int, changed: set<Tag>)
    ensures var after := StationParts(mem, latest, ts, changed, 3).mem;
            && after == mem.(lastStation := after.lastStation)
            && (forall st :: st in after.lastStation
                             <==> st in StationPart(mem, latest, ts, changed, st).mem.lastStation)
            && (forall st :: st in after.lastStation ==>
                  after.lastStation[st] == StationPart(mem, latest, ts, changed, st).mem.lastStation[st])
  {
    var one := StationParts(mem, latest, ts, changed, 1);
    var two := StationParts(mem, latest, ts, changed, 2);
    var three := StationParts(mem, latest, ts, changed, 3);
    assert StationParts(mem, latest, ts, changed, 0) == Outcome(mem, []);
    assert one.mem == StationPart(mem, latest, ts, changed, OP10).mem;
    assert two.mem == StationPart(one.mem, latest, ts, changed, OP20).mem;
    assert three.mem == StationPart(two.mem, latest, ts, changed, OP30).mem;
    forall st
      ensures st in three.mem.lastStation <==> st in StationPart(mem, latest, ts, changed, st).mem.lastStation
      ensures st in three.mem.lastStation ==>
                three.mem.lastStation[st] == StationPart(mem, latest, ts, changed, st).mem.lastStation[st]
    {
      assert st == OP10 || st == OP20 || st == OP30;
    }
  }

  lemma CellStaysSettled(t: Tracker, g: Group, ts: int)
    requires Settled(t) && OlderThan(t.latest, g.ts) && Apply(t, g).Success? && ts < g.ts
    ensures CellSettled(Apply(t, g).value.tracker.mem, Learn(t.latest, g), ts)
  {
    CellMemory(t, g);
    CellKeepsSettled(t, g, ts, Apply(t, g).value.tracker.mem);
  }

  lemma CellKeepsSettled(t: Tracker, g: Group, ts: int, mem: Memory)
    requires Settled(t) && OlderThan(t.latest, g.ts) && ts < g.ts
    requires CellPart(t.mem, Learn(t.latest, g), g.ts, Changed(g)).Success?
    requires mem.lastCell == CellPart(t.mem, Learn(t.latest, g), g.ts, Changed(g)).value.mem.lastCell
    ensures CellSettled(mem, Learn(t.latest, g), ts)
  {
    var latest := Learn(t.latest, g);
    if Touches(latest, ts, CELL_TAGS) && CellKnown(UpTo(latest, ts)) {
      FreshTouch(t.latest, g, CELL_TAGS);
      LearnNewest(t.latest, g);
      var tag :| tag in CELL_TAGS && tag in t.latest && t.latest[tag].ts == ts;
      assert ts in Times(t.latest);
      assert CellKnown(UpTo(t.latest, ts)) && Changed(g) * CELL_TAGS == {};
      assert CellSettled(t.mem, t.latest, ts);
    }
  }

  lemma StationStaysSettled(t: Tracker, g: Group, ts: int, st: Station)
    requires Settled(t) && OlderThan(t.latest, g.ts) && Apply(t, g).Success? && ts < g.ts
    ensures StationSettled(Apply(t, g).value.tracker.mem, Learn(t.latest, g), ts, st)
  {
    StationsMemory(t, g, st);
    StationKeepsSettled(t, g, ts, st, Apply(t, g).value.tracker.mem);
  }

  lemma StationKeepsSettled(t: Tracker, g: Group, ts: int, st: Station, mem: Memory)
    requires Settled(t) && OlderThan(t.latest, g.ts) && ts < g.ts
    requires var before := StationPart(t.mem, Learn(t.latest, g), g.ts, Changed(g), st).mem.lastStation;
             (st in mem.lastStation <==> st in before)
             && (st in mem.lastStation ==> mem.lastStation[st] == before[st])
    ensures StationSettled(mem, Learn(t.latest, g), ts, st)
  {
    var latest, tags := Learn(t.latest, g), {StationState(st), StationFault(st)};
    if Touches(latest, ts, tags) && StationKnown(UpTo(latest, ts), st) {
      FreshTouch(t.latest, g, tags);
      LearnNewest(t.latest, g);
      var tag :| tag in tags && tag in t.latest && t.latest[tag].ts == ts;
      assert ts in Times(t.latest);
      assert StationKnown(UpTo(t.latest, ts), st) && Changed(g) * tags == {};
      assert StationSettled(t.mem, t.latest, ts, st);
    }
  }

  lemma SamplesStaySettled(t: Tracker, g: Group, ts: int)
    requires Settled(t) && OlderThan(t.latest, g.ts) && Apply(t, g).Success? && ts < g.ts
    ensures CounterSettled(Apply(t, g).value.tracker.mem, Learn(t.latest, g), ts)
    ensures WeldSettled(Apply(t, g).value.tracker.mem, Learn(t.latest, g), ts)
  {
    SamplesMemory(t, g);
    CounterStaysSettled(t, g, ts, Apply(t, g).value.tracker.mem);
    WeldStaysSettled(t, g, ts, Apply(t, g).value.tracker.mem);
  }

  lemma CounterStaysSettled(t: Tracker, g: Group, ts: int, mem: Memory)
    requires Settled(t) && OlderThan(t.latest, g.ts) && ts < g.ts
    requires mem.lastCounter == CounterPart(t.mem, Learn(t.latest, g), g.ts, Changed(g)).mem.lastCounter
    ensures CounterSettled(mem, Learn(t.latest, g), ts)
  {
    var latest := Learn(t.latest, g);
    LearnNewest(t.latest, g);
    FreshTouch(t.latest, g, {Good, Scrap});
    if Touches(latest, ts, {Good, Scrap}) && CounterKnown(UpTo(latest, ts)) {
      var tag :| tag in {Good, Scrap} && tag in t.latest && t.latest[tag].ts == ts;
      assert ts in Times(t.latest);
      assert CounterKnown(UpTo(t.latest, ts));
      assert CounterSettled(t.mem, t.latest, ts);
    }
  }

  lemma WeldStaysSettled(t: Tracker, g: Group, ts: int, mem: Memory)
    requires Settled(t) && OlderThan(t.latest, g.ts) && ts < g.ts
    requires mem.lastWeld == WeldPart(t.mem, Learn(t.latest, g), g.ts, Changed(g)).mem.lastWeld
    ensures WeldSettled(mem, Learn(t.latest, g), ts)
  {
    var latest := Learn(t.latest, g);
    LearnNewest(t.latest, g);
    FreshTouch(t.latest, g, {WeldCurrent});
    if Touches(latest, ts, {WeldCurrent}) && WeldKnown(UpTo(latest, ts)) {
      var tag :| tag in {WeldCurrent} && tag in t.latest && t.latest[tag].ts == ts;
      assert ts in Times(t.latest);
      assert WeldKnown(UpTo(t.latest, ts));
      assert WeldSettled(t.mem, t.latest, ts);
    }
  }

  lemma CellBecomesSettled(t: Tracker, g: Group)
    requires OlderThan(t.latest, g.ts) && Apply(t, g).Success?
    ensures CellSettled(Apply(t, g).value.tracker.mem, Learn(t.latest, g), g.ts)
  {
    CellMemory(t, g);
    FreshTouch(t.latest, g, CELL_TAGS);
  }

  lemma StationBecomesSettled(t: Tracker, g: Group, st: Station)
    requires OlderThan(t.latest, g.ts) && Apply(t, g).Success?
    ensures StationSettled(Apply(t, g).value.tracker.mem, Learn(t.latest, g), g.ts, st)
  {
    StationsMemory(t, g, st);
    FreshTouch(t.latest, g, {StationState(st), StationFault(st)});
  }

  lemma SamplesBecomeSettled(t: Tracker, g: Group)
    requires OlderThan(t.latest, g.ts) && Apply(t, g).Success?
    ensures CounterSettled(Apply(t, g).value.tracker.mem, Learn(t.latest, g), g.ts)
    ensures WeldSettled(Apply(t, g).value.tracker.mem, Learn(t.latest, g), g.ts)
  {
    SamplesMemory(t, g);
    FreshTouch(t.latest, g, {Good, Scrap});
    FreshTouch(t.latest, g, {WeldCurrent});
    assert WeldCurrent in Changed(g) <==> Changed(g) * {WeldCurrent} != {};
  }
}
