/** backend/app/oee/timeline.py and the query that feeds it: the cell's states as segments. */
module Timeline {
  import opened Basics
  import opened Facts
  import opened History
  import opened Oee

  datatype StateEvent = StateEvent(ts: int, state: int)

  datatype Segment = Segment(start: int, end: int, state: int)

  // ------------------------------------------------------------ build_timeline

  function Before(es: seq<StateEvent>, bound: int): seq<StateEvent> {
    if es == [] then [] else (if es[0].ts < bound then [es[0]] else []) + Before(es[1..], bound)
  }

  /** Stable: an event goes before the equal ones that follow it. */
  function InsertEvent(e: StateEvent, es: seq<StateEvent>): seq<StateEvent> {
    if es == [] || e.ts <= es[0].ts then [e] + es else [es[0]] + InsertEvent(e, es[1..])
  }

  function InOrder(es: seq<StateEvent>): seq<StateEvent> {
    if es == [] then [] else InsertEvent(es[0], InOrder(es[1..]))
  }

  /** One segment, unless nothing of it is left inside the window. */
  function Piece(start: int, end: int, state: int): seq<Segment> {
    if end > start then [Segment(start, end, state)] else []
  }

  function SegmentsOf(es: seq<StateEvent>, start: int, bound: int): seq<Segment> {
    if es == [] then []
    else
      var end := if |es| > 1 then Min(es[1].ts, bound) else bound;
      Piece(Max(es[0].ts, start), end, es[0].state) + SegmentsOf(es[1..], start, bound)
  }

  function Bound(w: Window, until: Option<int>): int { if until.Some? then until.value else w.end }

  function TimelineOf(es: seq<StateEvent>, w: Window, until: Option<int>): seq<Segment> {
    SegmentsOf(InOrder(Before(es, Bound(w, until))), w.start, Bound(w, until))
  }

  method BuildTimeline(es: seq<StateEvent>, w: Window, until: Option<int>) returns (segments: seq<Segment>)
    ensures segments == TimelineOf(es, w, until)
  {
    var bound := Bound(w, until);
    var ordered := InOrder(Before(es, bound));
    segments := [];
    assert ordered[0..] == ordered;
    for i := 0 to |ordered|
      invariant segments + SegmentsOf(ordered[i..], w.start, bound) == SegmentsOf(ordered, w.start, bound)
    {
      var e := ordered[i];
      var end := Min(if i + 1 < |ordered| then ordered[i + 1].ts else bound, bound);
      var start := Max(e.ts, w.start);
      SegmentStep(ordered, i, w.start, bound, segments, Piece(start, end, e.state));
      if end > start {
        segments := segments + [Segment(start, end, e.state)];
      }
    }
  }

  lemma SegmentStep(es: seq<StateEvent>, i: nat, start: int, bound: int, out: seq<Segment>, piece: seq<Segment>)
    requires i < |es|
    requires piece == Piece(Max(es[i].ts, start), Min(if i + 1 < |es| then es[i + 1].ts else bound, bound), es[i].state)
    ensures (out + piece) + SegmentsOf(es[i + 1..], start, bound) == out + SegmentsOf(es[i..], start, bound)
  {
    var tail, rest := es[i..], SegmentsOf(es[i + 1..], start, bound);
    assert tail[0] == es[i] && tail[1..] == es[i + 1..];
    assert SegmentsOf(tail, start, bound) == piece + rest;
    assert (out + piece) + rest == out + (piece + rest);
  }

  // ------------------------------------------------------------ any events: what the segments are

  ghost predicate Ascending(es: seq<StateEvent>) { forall i, j :: 0 <= i < j < |es| ==> es[i].ts <= es[j].ts }

  ghost predicate AllBefore(es: seq<StateEvent>, bound: int) { forall i :: 0 <= i < |es| ==> es[i].ts < bound }

  lemma {:induction false} InsertKeepsOrder(e: StateEvent, es: seq<StateEvent>, bound: int)
    requires Ascending(es) && AllBefore(es, bound) && e.ts < bound
    ensures var r := InsertEvent(e, es);
            && Ascending(r) && AllBefore(r, bound)
            && r != [] && (es == [] ==> r[0] == e) && (es != [] ==> r[0].ts == Min(e.ts, es[0].ts))
  {
    var r := InsertEvent(e, es);
    if es == [] || e.ts <= es[0].ts {
      assert r == [e] + es;
    } else {
      assert es == [es[0]] + es[1..];
      InsertKeepsOrder(e, es[1..], bound);
    }
  }

  lemma {:induction false} InsertKeepsAll(e: StateEvent, es: seq<StateEvent>)
    ensures multiset(InsertEvent(e, es)) == multiset(es) + multiset{e}
  {
    if es != [] && e.ts > es[0].ts {
      assert es == [es[0]] + es[1..];
      InsertKeepsAll(e, es[1..]);
    }
  }

  lemma {:induction false} OrderedBefore(es: seq<StateEvent>, bound: int)
    ensures Ascending(InOrder(Before(es, bound))) && AllBefore(InOrder(Before(es, bound)), bound)
    ensures multiset(InOrder(Before(es, bound))) == multiset(Before(es, bound))
  {
    if es != [] {
      OrderedBefore(es[1..], bound);
      if es[0].ts < bound {
        var rest := Before(es[1..], bound);
        assert Before(es, bound) == [es[0]] + rest;
        assert ([es[0]] + rest)[1..] == rest;
        InsertKeepsOrder(es[0], InOrder(rest), bound);
        InsertKeepsAll(es[0], InOrder(rest));
      } else {
        assert Before(es, bound) == Before(es[1..], bound);
      }
    }
  }

  /** The events of one instant, in the order given. */
  function EventsOf(es: seq<StateEvent>, ts: int): seq<StateEvent> {
    if es == [] then [] else (if es[0].ts == ts then [es[0]] else []) + EventsOf(es[1..], ts)
  }

  lemma EventsOfCons(e: StateEvent, rest: seq<StateEvent>, ts: int)
    ensures EventsOf([e] + rest, ts) == if e.ts == ts then [e] + EventsOf(rest, ts) else EventsOf(rest, ts)
  {
    assert ([e] + rest)[1..] == rest;
  }

  lemma {:induction false} InsertIsStable(e: StateEvent, es: seq<StateEvent>, ts: int)
    ensures EventsOf(InsertEvent(e, es), ts) == if e.ts == ts then [e] + EventsOf(es, ts) else EventsOf(es, ts)
    decreases |es|
  {
    if es == [] || e.ts <= es[0].ts {
      EventsOfCons(e, es, ts);
    } else {
      var first, rest := es[0], es[1..];
      InsertIsStable(e, rest, ts);
      EventsOfCons(first, InsertEvent(e, rest), ts);
      EventsOfCons(first, rest, ts);
      assert es == [first] + rest;
    }
  }

  /** Events of one instant stay in the order given, so the last of them has the last word. */
  lemma {:induction false} OrderIsStable(es: seq<StateEvent>, ts: int)
    ensures EventsOf(InOrder(es), ts) == EventsOf(es, ts)
    decreases |es|
  {
    if es != [] {
      OrderIsStable(es[1..], ts);
      InsertIsStable(es[0], InOrder(es[1..]), ts);
      assert es == [es[0]] + es[1..];
      EventsOfCons(es[0], es[1..], ts);
    }
  }

  /** Segments that follow each other without gap or overlap, from lo to hi. */
  ghost predicate Chain(segs: seq<Segment>, lo: int, hi: int)
    decreases |segs|
  {
    if segs == [] then lo == hi
    else segs[0].start == lo && lo < segs[0].end && Chain(segs[1..], segs[0].end, hi)
  }

  /** The state of the latest event at or before an instant, given events in order. */
  function StateAt(es: seq<StateEvent>, y: int): Option<int> {
    if es == [] then None
    else if es[|es| - 1].ts <= y then Some(es[|es| - 1].state)
    else StateAt(es[..|es| - 1], y)
  }

  lemma {:induction false} StateAtFirst(es: seq<StateEvent>, y: int)
    requires Ascending(es) && es != [] && es[0].ts <= y
    ensures StateAt(es, y) == if |es| == 1 || y < es[1].ts then Some(es[0].state) else StateAt(es[1..], y)
    decreases |es|
  {
    var n := |es| - 1;
    if n > 0 && es[n].ts > y {
      var front := es[..n];
      StateAtFirst(front, y);
      assert es[1..][..n - 1] == front[1..];
      assert n > 1 ==> es[1..][n - 1] == es[n] && front[1] == es[1];
    } else if n > 0 {
      assert es[1..][n - 1] == es[n];
    }
  }

  ghost predicate Tells(segs: seq<Segment>, es: seq<StateEvent>) {
    forall i, y :: 0 <= i < |segs| && segs[i].start <= y < segs[i].end ==> StateAt(es, y) == Some(segs[i].state)
  }

  lemma {:induction false} SegmentsChain(es: seq<StateEvent>, start: int, bound: int)
    requires Ascending(es) && AllBefore(es, bound) && es != []
    ensures Chain(SegmentsOf(es, start, bound), Min(bound, Max(es[0].ts, start)), bound)
    ensures forall i :: 0 <= i < |SegmentsOf(es, start, bound)| ==> es[0].ts <= SegmentsOf(es, start, bound)[i].start
    decreases |es|
  {
    var rest := SegmentsOf(es[1..], start, bound);
    var end := if |es| > 1 then Min(es[1].ts, bound) else bound;
    var mine := Piece(Max(es[0].ts, start), end, es[0].state);
    assert SegmentsOf(es, start, bound) == mine + rest;
    if |es| > 1 { SegmentsChain(es[1..], start, bound); }
    if mine == [] {
      assert mine + rest == rest;
    } else {
      assert (mine + rest)[0] == mine[0] && (mine + rest)[1..] == rest;
    }
  }

  lemma {:induction false} SegmentsTell(es: seq<StateEvent>, start: int, bound: int)
    requires Ascending(es) && AllBefore(es, bound)
    ensures Tells(SegmentsOf(es, start, bound), es)
    decreases |es|
  {
    if es != [] {
      var later := es[1..];
      var rest, segs := SegmentsOf(later, start, bound), SegmentsOf(es, start, bound);
      var end := if |es| > 1 then Min(es[1].ts, bound) else bound;
      var mine := Piece(Max(es[0].ts, start), end, es[0].state);
      assert segs == mine + rest;
      SegmentsTell(later, start, bound);
      if later != [] { SegmentsChain(later, start, bound); }
      forall i, y | 0 <= i < |segs| && segs[i].start <= y < segs[i].end
        ensures StateAt(es, y) == Some(segs[i].state)
      {
        var k := i - |mine|;
        assert segs[i] == if i < |mine| then mine[i] else rest[k];
        assert i >= |mine| ==> later != [] && es[1].ts <= rest[k].start;
        StateAtFirst(es, y);
      }
    }
  }

  /** Whatever the events, in whatever order: the segments follow each other without gap or overlap
      from the first event (or the window's start) to the bound, and each carries, at all its
      instants, the state of the latest event so far. */
  lemma TimelineCovers(es: seq<StateEvent>, w: Window, until: Option<int>)
    ensures var bound := if until.Some? then until.value else w.end;
            var ordered := InOrder(Before(es, bound));
            && Ascending(ordered) && multiset(ordered) == multiset(Before(es, bound))
            && Tells(TimelineOf(es, w, until), ordered)
            && (ordered == [] ==> TimelineOf(es, w, until) == [])
            && (ordered != [] ==> Chain(TimelineOf(es, w, until), Min(bound, Max(ordered[0].ts, w.start)), bound))
  {
    var bound := Bound(w, until);
    OrderedBefore(es, bound);
    var ordered := InOrder(Before(es, bound));
    SegmentsTell(ordered, w.start, bound);
    if ordered != [] { SegmentsChain(ordered, w.start, bound); }
  }

  // ------------------------------------------------------------ fetch_cell_state_events

  function Earlier(cell: map<int, CellRow>, frm: int): set<int> { set t | t in cell && t < frm }

  function InRange(cell: map<int, CellRow>, frm: int, to: int): set<int> { set t | t in cell && frm <= t < to }

  /** The latest event before the range, then those of the range. */
  function FetchedTimes(cell: map<int, CellRow>, frm: int, to: int): seq<int> {
    var lead := MaxOf(Earlier(cell, frm));
    (if lead.Some? then [lead.value] else []) + Sorted(InRange(cell, frm, to))
  }

  function EventsAt(ts: seq<int>, cell: map<int, CellRow>): seq<StateEvent> {
    if ts == [] then []
    else (if ts[0] in cell then [StateEvent(ts[0], cell[ts[0]].state)] else []) + EventsAt(ts[1..], cell)
  }

  function FetchCellStateEvents(cell: map<int, CellRow>, frm: int, to: int): seq<StateEvent> {
    EventsAt(FetchedTimes(cell, frm, to), cell)
  }

  // ------------------------------------------------------------ timeline and stops agree

  /** The segment of one event of the whole history, clipped. */
  function SpanOf(t: int, cell: map<int, CellRow>, frm: int, to: int): seq<Segment> {
    if t !in cell then []
    else
      var next := NextEvent(cell, t);
      Piece(Max(t, frm), if next.Some? then Min(next.value, to) else to, cell[t].state)
  }

  function Spans(ts: seq<int>, cell: map<int, CellRow>, frm: int, to: int): seq<Segment> {
    if ts == [] then [] else SpanOf(ts[0], cell, frm, to) + Spans(ts[1..], cell, frm, to)
  }

  /** A stored stop clipped to the window. */
  function ClipStop(t: int, stops: map<int, StopRow>, frm: int, to: int): seq<Segment> {
    if t !in stops then []
    else
      var end := stops[t].end;
      Piece(Max(t, frm), if end.Some? then Min(end.value, to) else to, stops[t].state)
  }

  function ClipStops(ts: seq<int>, stops: map<int, StopRow>, frm: int, to: int): seq<Segment> {
    if ts == [] then [] else ClipStop(ts[0], stops, frm, to) + ClipStops(ts[1..], stops, frm, to)
  }

  function NonProducing(segs: seq<Segment>): seq<Segment> {
    if segs == [] then [] else (if segs[0].state != PRODUCING then [segs[0]] else []) + NonProducing(segs[1..])
  }

  lemma {:induction false} SpansAppend(a: seq<int>, b: seq<int>, cell: map<int, CellRow>, frm: int, to: int)
    ensures Spans(a + b, cell, frm, to) == Spans(a, cell, frm, to) + Spans(b, cell, frm, to)
    decreases |a|
  {
    if a == [] {
      assert a + b == b;
    } else {
      assert (a + b)[0] == a[0] && (a + b)[1..] == a[1..] + b;
      SpansAppend(a[1..], b, cell, frm, to);
    }
  }

  lemma {:induction false} NonProducingAppend(a: seq<Segment>, b: seq<Segment>)
    ensures NonProducing(a + b) == NonProducing(a) + NonProducing(b)
    decreases |a|
  {
    if a == [] {
      assert a + b == b;
    } else {
      assert (a + b)[0] == a[0] && (a + b)[1..] == a[1..] + b;
      NonProducingAppend(a[1..], b);
    }
  }

  /** Every event between the first of `ts` and the bound is listed. */
  ghost predicate Complete(ts: seq<int>, cell: map<int, CellRow>, to: int) {
    && Increasing(ts)
    && (forall i :: 0 <= i < |ts| ==> ts[i] in cell && ts[i] < to)
    && (forall t :: t in cell && ts != [] && ts[0] < t < to ==> t in ts)
  }

  lemma CompleteTail(ts: seq<int>, cell: map<int, CellRow>, to: int)
    requires Complete(ts, cell, to) && ts != []
    ensures Complete(ts[1..], cell, to)
    ensures var next := NextEvent(cell, ts[0]);
            if |ts| > 1 then next == Some(ts[1]) else next.None? || to <= next.value
  {
    var rest := ts[1..];
    forall t | t in cell && rest != [] && rest[0] < t < to ensures t in rest {
      assert t in ts;
    }
    assert Increasing(rest);
    var later := Later(cell, ts[0]);
    if |ts| > 1 {
      assert ts[1] in later;
      var n := NextEvent(cell, ts[0]).value;
      assert n in ts;
    } else if later != {} {
      var n := NextEvent(cell, ts[0]).value;
      assert n < to ==> n in ts;
    }
  }

  lemma {:induction false} SegmentsAreSpans(ts: seq<int>, cell: map<int, CellRow>, frm: int, to: int)
    requires Complete(ts, cell, to)
    ensures |EventsAt(ts, cell)| == |ts|
    ensures forall i :: 0 <= i < |ts| ==> EventsAt(ts, cell)[i].ts == ts[i]
    ensures SegmentsOf(EventsAt(ts, cell), frm, to) == Spans(ts, cell, frm, to)
    decreases |ts|
  {
    if ts != [] {
      var es, t := EventsAt(ts, cell), ts[0];
      CompleteTail(ts, cell, to);
      SegmentsAreSpans(ts[1..], cell, frm, to);
      var rest := EventsAt(ts[1..], cell);
      assert es == [StateEvent(t, cell[t].state)] + rest;
      assert es[1..] == rest;
      assert |ts| > 1 ==> rest[0].ts == ts[1..][0] == ts[1];
    }
  }

  lemma {:induction false} InOrderIsIdle(es: seq<StateEvent>, bound: int)
    requires Ascending(es) && AllBefore(es, bound)
    ensures Before(es, bound) == es && InOrder(es) == es
    decreases |es|
  {
    if es != [] {
      InOrderIsIdle(es[1..], bound);
      assert es == [es[0]] + es[1..];
    }
  }

  ghost predicate Superseded(cell: map<int, CellRow>, t: int, frm: int) {
    NextEvent(cell, t).Some? && NextEvent(cell, t).value < frm
  }

  /** Events outside [lead-in, to) leave no segment. */
  lemma {:induction false} NoSpans(ts: seq<int>, cell: map<int, CellRow>, frm: int, to: int)
    requires forall i :: 0 <= i < |ts| ==> to <= ts[i] || Superseded(cell, ts[i], frm)
    ensures Spans(ts, cell, frm, to) == []
    decreases |ts|
  {
    if ts != [] { NoSpans(ts[1..], cell, frm, to); }
  }

  lemma LeadBeforeRange(lead: Option<int>, first: set<int>, range: set<int>)
    requires first == if lead.Some? then {lead.value} else {}
    requires forall x, y :: x in first && y in range ==> x < y
    ensures (if lead.Some? then [lead.value] else []) + Sorted(range) == Sorted(first + range)
  {
    SortedSplits(first, range);
    if lead.Some? { SortedSingle(lead.value); }
  }

  /** The lead-in and the range, as one sorted set. */
  lemma FetchedAreSorted(cell: map<int, CellRow>, frm: int, to: int, fetched: set<int>)
    requires fetched == InRange(cell, frm, to) + FirstOf(Earlier(cell, frm))
    ensures FetchedTimes(cell, frm, to) == Sorted(fetched)
  {
    var earlier, range := Earlier(cell, frm), InRange(cell, frm, to);
    var lead, first := MaxOf(earlier), FirstOf(earlier);
    assert first + range == range + first;
    forall x, y | x in first && y in range ensures x < y { assert x in earlier; }
    LeadBeforeRange(lead, first, range);
  }

  /** `ORDER BY ts DESC LIMIT 1`. */
  function FirstOf(earlier: set<int>): (r: set<int>)
    ensures r <= earlier
  {
    var lead := MaxOf(earlier);
    if lead.Some? then {lead.value} else {}
  }

  lemma LeadIsLast(earlier: set<int>, t: int)
    requires t in earlier && t !in FirstOf(earlier)
    ensures exists u :: u in FirstOf(earlier) && t < u
  {
    assert MaxOf(earlier).value in FirstOf(earlier);
  }

  lemma FetchIsComplete(cell: map<int, CellRow>, frm: int, to: int)
    requires frm <= to
    ensures Complete(FetchedTimes(cell, frm, to), cell, to)
  {
    var earlier := Earlier(cell, frm);
    var fetched := InRange(cell, frm, to) + FirstOf(earlier);
    FetchedAreSorted(cell, frm, to, fetched);
    SetIsComplete(fetched, earlier, cell, frm, to);
  }

  lemma SetIsComplete(fetched: set<int>, earlier: set<int>, cell: map<int, CellRow>, frm: int, to: int)
    requires frm <= to
    requires forall t :: t in earlier <==> t in cell && t < frm
    requires forall t :: t in fetched <==> (t in cell && frm <= t < to) || t in FirstOf(earlier)
    ensures Complete(Sorted(fetched), cell, to)
  {
    var ts := Sorted(fetched);
    forall i | 0 <= i < |ts| ensures ts[i] in cell && ts[i] < to {
      assert ts[i] in fetched;
      assert ts[i] in FirstOf(earlier) ==> ts[i] in earlier;
    }
    forall t | t in cell && ts != [] && ts[0] < t < to ensures t in ts {
      assert ts[0] in fetched;
      if t < frm && t !in FirstOf(earlier) { LeadIsLast(earlier, t); }
    }
  }

  lemma SortedThirds(a: set<int>, b: set<int>, c: set<int>, all: set<int>)
    requires all == a + b + c
    requires forall x, y :: x in a && y in b ==> x < y
    requires forall x, y :: x in a + b && y in c ==> x < y
    ensures Sorted(all) == Sorted(a) + Sorted(b) + Sorted(c)
  {
    SortedSplits(a, b);
    SortedSplits(a + b, c);
  }

  /** The events read for a range are all that matters: those before the lead-in and those past the
      range would add nothing. */
  lemma FetchIsEnough(cell: map<int, CellRow>, frm: int, to: int)
    requires frm <= to
    ensures Spans(FetchedTimes(cell, frm, to), cell, frm, to) == Spans(Sorted(cell.Keys), cell, frm, to)
  {
    var earlier := Earlier(cell, frm);
    var fetched, passed := InRange(cell, frm, to) + FirstOf(earlier), earlier - FirstOf(earlier);
    var future := Later(cell, to - 1);
    FetchedAreSorted(cell, frm, to, fetched);
    HistorySplits(cell.Keys, earlier, fetched, passed, future, frm, to);
    var older, ts, newer := Sorted(passed), Sorted(fetched), Sorted(future);
    SpansAppend(older + ts, newer, cell, frm, to);
    SpansAppend(older, ts, cell, frm, to);
    OlderAddNothing(cell, frm, to, passed);
    NewerAddNothing(cell, frm, to, future);
  }

  lemma HistorySplits(keys: set<int>, earlier: set<int>, fetched: set<int>, passed: set<int>, future: set<int>,
                      frm: int, to: int)
    requires frm <= to
    requires forall t :: t in earlier <==> t in keys && t < frm
    requires forall t :: t in fetched <==> (t in keys && frm <= t < to) || t in FirstOf(earlier)
    requires forall t :: t in passed <==> t in earlier && t !in FirstOf(earlier)
    requires forall t :: t in future <==> t in keys && to <= t
    ensures Sorted(keys) == Sorted(passed) + Sorted(fetched) + Sorted(future)
  {
    forall x, y | x in passed && y in fetched ensures x < y {
      LeadIsLast(earlier, x);
    }
    forall t ensures t in keys <==> t in passed + fetched + future {
      assert t in FirstOf(earlier) ==> t in earlier;
    }
    assert keys == passed + fetched + future;
    SortedThirds(passed, fetched, future, keys);
  }

  lemma OlderAddNothing(cell: map<int, CellRow>, frm: int, to: int, passed: set<int>)
    requires passed == Earlier(cell, frm) - FirstOf(Earlier(cell, frm))
    ensures Spans(Sorted(passed), cell, frm, to) == []
  {
    var older := Sorted(passed);
    forall i | 0 <= i < |older| ensures Superseded(cell, older[i], frm) {
      assert older[i] in passed;
      PassedIsSuperseded(cell, older[i], frm);
    }
    NoSpans(older, cell, frm, to);
  }

  lemma NewerAddNothing(cell: map<int, CellRow>, frm: int, to: int, future: set<int>)
    requires forall t :: t in future ==> to <= t
    ensures Spans(Sorted(future), cell, frm, to) == []
  {
    var newer := Sorted(future);
    forall i | 0 <= i < |newer| ensures to <= newer[i] {
      assert newer[i] in future;
    }
    NoSpans(newer, cell, frm, to);
  }

  lemma PassedIsSuperseded(cell: map<int, CellRow>, t: int, frm: int)
    requires t in Earlier(cell, frm) && t !in FirstOf(Earlier(cell, frm))
    ensures Superseded(cell, t, frm)
  {
    LeadIsLast(Earlier(cell, frm), t);
    var u :| u in FirstOf(Earlier(cell, frm)) && t < u;
    assert u in Earlier(cell, frm);
    assert u in Later(cell, t);
  }

  /** Non-producing spans are the clipped stops, event by event. */
  lemma {:induction false} SpansAreStops(ts: seq<int>, cell: map<int, CellRow>, frm: int, to: int)
    ensures NonProducing(Spans(ts, cell, frm, to)) == ClipStops(ts, StopsOf(cell), frm, to)
    decreases |ts|
  {
    if ts != [] {
      SpansAreStops(ts[1..], cell, frm, to);
      NonProducingAppend(SpanOf(ts[0], cell, frm, to), Spans(ts[1..], cell, frm, to));
      var one := SpanOf(ts[0], cell, frm, to);
      assert one != [] ==> one == [one[0]];
    }
  }

  function Kept(ts: seq<int>, stops: map<int, StopRow>): seq<int> {
    if ts == [] then [] else (if ts[0] in stops then [ts[0]] else []) + Kept(ts[1..], stops)
  }

  lemma {:induction false} KeptClip(ts: seq<int>, stops: map<int, StopRow>, frm: int, to: int)
    ensures ClipStops(ts, stops, frm, to) == ClipStops(Kept(ts, stops), stops, frm, to)
    decreases |ts|
  {
    if ts != [] {
      KeptClip(ts[1..], stops, frm, to);
      var kept, rest := Kept(ts, stops), Kept(ts[1..], stops);
      if ts[0] in stops { assert kept[0] == ts[0] && kept[1..] == rest; } else { assert kept == rest; }
    }
  }

  lemma {:induction false} KeptMembers(ts: seq<int>, stops: map<int, StopRow>, t: int)
    ensures t in Kept(ts, stops) <==> t in ts && t in stops
    decreases |ts|
  {
    if ts != [] { KeptMembers(ts[1..], stops, t); }
  }

  lemma {:induction false} KeptIncreases(ts: seq<int>, stops: map<int, StopRow>)
    requires Increasing(ts)
    ensures Increasing(Kept(ts, stops))
    decreases |ts|
  {
    if ts != [] {
      var rest := ts[1..];
      var kept := Kept(rest, stops);
      KeptIncreases(rest, stops);
      forall i | 0 <= i < |kept| ensures ts[0] < kept[i] {
        KeptMembers(rest, stops, kept[i]);
      }
    }
  }

  /** A window that ends before it starts shows nothing. */
  lemma {:induction false} NothingInside(es: seq<StateEvent>, ts: seq<int>, stops: map<int, StopRow>, frm: int, to: int)
    requires to <= frm
    ensures SegmentsOf(es, frm, to) == [] && ClipStops(ts, stops, frm, to) == []
    decreases |es| + |ts|
  {
    if es != [] { NothingInside(es[1..], ts, stops, frm, to); }
    if ts != [] { NothingInside(es, ts[1..], stops, frm, to); }
  }

  /** For every database the collector can produce: the non-producing segments of the timeline are
      exactly the stored stops, in order, clipped to the window. */
  lemma TimelineMatchesStops(db: Db, w: Window)
    requires Consistent(db)
    ensures NonProducing(TimelineOf(FetchCellStateEvents(db.cell, w.start, w.end), w, Some(w.end)))
            == ClipStops(Sorted(db.stops.Keys), db.stops, w.start, w.end)
  {
    if w.end < w.start {
      var es := InOrder(Before(EventsAt(FetchedTimes(db.cell, w.start, w.end), db.cell), w.end));
      NothingInside(es, Sorted(db.stops.Keys), db.stops, w.start, w.end);
    } else {
      SegmentsMatchStops(db, w);
    }
  }

  lemma SegmentsMatchStops(db: Db, w: Window)
    requires Consistent(db) && w.start <= w.end
    ensures NonProducing(TimelineOf(FetchCellStateEvents(db.cell, w.start, w.end), w, Some(w.end)))
            == ClipStops(Sorted(db.stops.Keys), db.stops, w.start, w.end)
  {
    var cell, ts := db.cell, FetchedTimes(db.cell, w.start, w.end);
    FetchIsComplete(cell, w.start, w.end);
    FetchIsEnough(cell, w.start, w.end);
    SegmentsAreSpans(ts, cell, w.start, w.end);
    InOrderIsIdle(EventsAt(ts, cell), w.end);
    SpansAreStops(Sorted(cell.Keys), cell, w.start, w.end);
    KeptClip(Sorted(cell.Keys), db.stops, w.start, w.end);
    KeptIncreases(Sorted(cell.Keys), db.stops);
    forall t { KeptMembers(Sorted(cell.Keys), db.stops, t); }
    SortedIsUnique(Kept(Sorted(cell.Keys), db.stops), Sorted(db.stops.Keys));
  }

  /** Over every run of the collector, with crashes anywhere. */
  lemma TimelineOfEveryRun(l: Live, es: seq<Event>, w: Window)
    requires Sound(l)
    ensures var db := Run(l, es).db;
            NonProducing(TimelineOf(FetchCellStateEvents(db.cell, w.start, w.end), w, Some(w.end)))
            == ClipStops(Sorted(db.stops.Keys), db.stops, w.start, w.end)
  {
    StopsMirrorEvents(l, es);
    TimelineMatchesStops(Run(l, es).db, w);
  }
}
