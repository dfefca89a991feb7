/** backend/app/collector/assembler.py: notifications in any order become groups in timestamp order. */
module Assembling {
  import opened Basics
  import opened Facts

  /** Values per instant: the last write to a tag at an instant wins. */
  type Bins = map<int, Values>

  function ValuesAt(bins: Bins, t: int): Values { if t in bins then bins[t] else map[] }

  function Put(bins: Bins, c: Change): Bins { bins[c.ts := ValuesAt(bins, c.ts)[c.tag := c.value]] }

  function Collect(bins: Bins, cs: seq<Change>): Bins
    decreases |cs|
  {
    if cs == [] then bins else Collect(Put(bins, cs[0]), cs[1..])
  }

  function Oldest(bins: Bins): (t: int)
    requires bins != map[]
    ensures t in bins && forall u :: u in bins ==> t <= u
  {
    assert bins.Keys != {};
    MinOf(bins.Keys).value
  }

  /** The bins as groups, oldest first. */
  function Listed(bins: Bins, late: bool): seq<Group>
    decreases |bins|
  {
    if bins == map[] then []
    else
      var t := Oldest(bins);
      Shrinks(bins, t);
      [Group(t, bins[t], late)] + Listed(bins - {t}, late)
  }

  lemma Shrinks(bins: Bins, t: int)
    requires t in bins
    ensures |bins - {t}| < |bins|
  {
    assert (bins - {t}).Keys == bins.Keys - {t};
    assert |bins.Keys - {t}| < |bins.Keys|;
  }

  /** `_as_groups`: all the changes grouped by timestamp, in increasing order. */
  function Batch(cs: seq<Change>): seq<Group> { Listed(Collect(map[], cs), false) }

  datatype State = State(pending: Bins, arrived: map<int, real>, released: Option<int>)

  const IDLE := State(map[], map[], None)

  datatype Output = Output(state: State, groups: seq<Group>)

  predicate Past(released: Option<int>, ts: int) { released.Some? && ts <= released.value }

  // ------------------------------------------------------------ feed, poll, flush

  function Hold(s: State, c: Change, now: real): State {
    s.(pending := Put(s.pending, c), arrived := if c.ts in s.pending then s.arrived else s.arrived[c.ts := now])
  }

  datatype Sifted = Sifted(state: State, late: Bins)

  /** Sorting the changes of one call into pending and late groups. */
  function Sift(s: State, late: Bins, cs: seq<Change>, now: real): Sifted
    decreases |cs|
  {
    if cs == [] then Sifted(s, late)
    else if Past(s.released, cs[0].ts) then Sift(s, Put(late, cs[0]), cs[1..], now)
    else Sift(Hold(s, cs[0], now), late, cs[1..], now)
  }

  predicate Ripe(s: State, ts: int, now: real, settle: real) {
    ts in s.arrived && now - s.arrived[ts] >= settle
  }

  function Pop(s: State, t: int): State { State(s.pending - {t}, s.arrived - {t}, Some(t)) }

  /** Release, oldest first, up to the first group that has not waited long enough. */
  function Poll(s: State, now: real, settle: real): Output
    decreases |s.pending|
  {
    if s.pending == map[] then Output(s, [])
    else
      var t := Oldest(s.pending);
      if !Ripe(s, t, now, settle) then Output(s, [])
      else
        Shrinks(s.pending, t);
        var rest := Poll(Pop(s, t), now, settle);
        Output(rest.state, [Group(t, s.pending[t], false)] + rest.groups)
  }

  function Feed(s: State, cs: seq<Change>, now: real, settle: real): Output {
    var sifted := Sift(s, map[], cs, now);
    var out := Poll(sifted.state, now, settle);
    Output(out.state, Listed(sifted.late, true) + out.groups)
  }

  function Flush(s: State): Output {
    var newest := MaxOf(s.pending.Keys);
    Output(State(map[], map[], if newest.None? then s.released else newest), Listed(s.pending, false))
  }

  // ------------------------------------------------------------ what every call keeps

  /** Every pending group has an arrival time and is newer than anything released. */
  ghost predicate Valid(s: State) {
    && s.pending.Keys == s.arrived.Keys
    && forall t :: t in s.pending ==> !Past(s.released, t)
  }

  /** Late groups are those of an instant already released; the others become or join a pending group,
      which keeps the time it was first seen. */
  lemma {:induction false} SiftKeeps(s: State, late: Bins, cs: seq<Change>, now: real)
    requires Valid(s)
    requires forall t :: t in late ==> Past(s.released, t)
    ensures var sifted := Sift(s, late, cs, now);
            && Valid(sifted.state) && sifted.state.released == s.released
            && (forall t :: t in sifted.late ==> Past(s.released, t))
            && (forall t :: t in s.pending ==> t in sifted.state.pending && sifted.state.arrived[t] == s.arrived[t])
            && (forall t :: t in sifted.state.pending && t !in s.pending ==> sifted.state.arrived[t] == now)
    decreases |cs|
  {
    if cs != [] {
      if Past(s.released, cs[0].ts) {
        SiftKeeps(s, Put(late, cs[0]), cs[1..], now);
      } else {
        SiftKeeps(Hold(s, cs[0], now), late, cs[1..], now);
      }
    }
  }

  /** Groups in increasing order, on time, each one pending and settled. */
  ghost predicate InOrder(s: State, gs: seq<Group>, now: real, settle: real) {
    && (forall i :: 0 <= i < |gs| ==>
          && gs[i].ts in s.pending && gs[i].values == s.pending[gs[i].ts] && !gs[i].late
          && !Past(s.released, gs[i].ts) && gs[i].ts in s.arrived && settle <= now - s.arrived[gs[i].ts])
    && (forall i, j :: 0 <= i < j < |gs| ==> gs[i].ts < gs[j].ts)
  }

  lemma InOrderCons(s: State, t: int, gs: seq<Group>, now: real, settle: real)
    requires Valid(s) && t in s.pending && (forall u :: u in s.pending ==> t <= u) && Ripe(s, t, now, settle)
    requires InOrder(Pop(s, t), gs, now, settle)
    ensures InOrder(s, [Group(t, s.pending[t], false)] + gs, now, settle)
  {
    var all := [Group(t, s.pending[t], false)] + gs;
    forall i | 0 < i < |all| ensures all[i] == gs[i - 1] && t < all[i].ts && all[i].ts in s.pending
                                     && all[i].values == s.pending[all[i].ts] {}
  }

  lemma PopValid(s: State, t: int)
    requires Valid(s) && t in s.pending && forall u :: u in s.pending ==> t <= u
    ensures Valid(Pop(s, t))
    ensures forall u :: Past(s.released, u) ==> Past(Pop(s, t).released, u)
  {
  }

  /** On-time groups leave in increasing order, each after `settle` of waiting. */
  lemma {:induction false} PollOrder(s: State, now: real, settle: real)
    requires Valid(s)
    ensures Valid(Poll(s, now, settle).state) && InOrder(s, Poll(s, now, settle).groups, now, settle)
    decreases |s.pending|
  {
    if s.pending != map[] && Ripe(s, Oldest(s.pending), now, settle) {
      var t := Oldest(s.pending);
      Shrinks(s.pending, t);
      PopValid(s, t);
      PollOrder(Pop(s, t), now, settle);
      InOrderCons(s, t, Poll(Pop(s, t), now, settle).groups, now, settle);
    }
  }

  /** The kept groups are unchanged and newer than every group that left, the oldest of them has not
      waited enough, and everything that left is recorded as released. */
  ghost predicate Kept(s: State, after: State, now: real, settle: real) {
    && (forall t :: t in after.pending ==>
          t in s.pending && t in s.arrived && t in after.arrived
          && after.pending[t] == s.pending[t] && after.arrived[t] == s.arrived[t])
    && (forall t :: t in s.pending && t !in after.pending ==> Past(after.released, t))
    && (forall t :: Past(s.released, t) ==> Past(after.released, t))
    && (after.pending != map[] ==>
          Oldest(after.pending) in after.arrived ==> now - after.arrived[Oldest(after.pending)] < settle)
  }

  lemma {:induction false} PollKeeps(s: State, now: real, settle: real)
    requires Valid(s)
    ensures Valid(Poll(s, now, settle).state) && Kept(s, Poll(s, now, settle).state, now, settle)
    decreases |s.pending|
  {
    if s.pending != map[] && Ripe(s, Oldest(s.pending), now, settle) {
      var t := Oldest(s.pending);
      Shrinks(s.pending, t);
      PopValid(s, t);
      PollKeeps(Pop(s, t), now, settle);
    }
  }

  /** A flush leaves nothing pending, and every instant that was pending or released is released. */
  lemma FlushReleases(s: State, t: int)
    requires Valid(s) && (t in s.pending || Past(s.released, t))
    ensures Flush(s).state.pending == map[] && Valid(Flush(s).state) && Past(Flush(s).state.released, t)
  {
    var newest := MaxOf(s.pending.Keys);
    if t in s.pending { assert t in s.pending.Keys; }
    if newest.Some? { assert newest.value in s.pending; }
  }

  // ------------------------------------------------------------ nothing is lost

  /** The released groups followed by the pending ones are the pending groups of before. */
  lemma {:induction false} PollPrefix(s: State, now: real, settle: real)
    ensures var out := Poll(s, now, settle);
            out.groups + Listed(out.state.pending, false) == Listed(s.pending, false)
    decreases |s.pending|
  {
    var out := Poll(s, now, settle);
    if s.pending != map[] && Ripe(s, Oldest(s.pending), now, settle) {
      var t := Oldest(s.pending);
      Shrinks(s.pending, t);
      PollPrefix(Pop(s, t), now, settle);
      var rest := Poll(Pop(s, t), now, settle);
      assert out.groups + Listed(out.state.pending, false)
             == [Group(t, s.pending[t], false)] + (rest.groups + Listed(rest.state.pending, false));
    } else {
      assert [] + Listed(s.pending, false) == Listed(s.pending, false);
    }
  }

  ghost predicate Older(low: Bins, high: Bins) { forall t, u :: t in low && u in high ==> t < u }

  lemma OldestIs(bins: Bins, t: int)
    requires t in bins && forall u :: u in bins ==> t <= u
    ensures bins != map[] && Oldest(bins) == t
  {
  }

  lemma DropFromUnion(low: Bins, high: Bins, t: int)
    requires t in low && t !in high
    ensures (low + high) - {t} == (low - {t}) + high && (low + high)[t] == low[t]
  {
  }

  lemma {:induction false} ListedSplits(low: Bins, high: Bins, late: bool)
    requires Older(low, high)
    ensures Listed(low + high, late) == Listed(low, late) + Listed(high, late)
    decreases |low|
  {
    if low == map[] {
      NothingBefore(high, late);
      assert low + high == high;
    } else {
      var t := Oldest(low);
      Shrinks(low, t);
      ListedSplits(low - {t}, high, late);
      SplitAtOldest(low, high, t, late);
    }
  }

  lemma NothingBefore(high: Bins, late: bool)
    ensures Listed(high, late) == Listed(map[], late) + Listed(high, late)
  {
  }

  lemma SplitAtOldest(low: Bins, high: Bins, t: int, late: bool)
    requires Older(low, high) && t in low && forall u :: u in low ==> t <= u
    requires Listed((low - {t}) + high, late) == Listed(low - {t}, late) + Listed(high, late)
    ensures Listed(low + high, late) == Listed(low, late) + Listed(high, late)
  {
    DropFromUnion(low, high, t);
    ListedCons(low + high, t, late);
    ListedCons(low, t, late);
    Reassociate([Group(t, low[t], late)], Listed(low - {t}, late), Listed(high, late));
  }

  lemma ListedCons(bins: Bins, t: int, late: bool)
    requires t in bins && forall u :: u in bins ==> t <= u
    ensures Listed(bins, late) == [Group(t, bins[t], late)] + Listed(bins - {t}, late)
  {
    OldestIs(bins, t);
  }

  lemma Reassociate<T>(a: seq<T>, b: seq<T>, c: seq<T>)
    ensures a + (b + c) == (a + b) + c
  {
  }

  // ------------------------------------------------------------ whole sessions

  datatype Call = FeedCall(changes: seq<Change>, now: real) | PollCall(now: real)

  function Do(s: State, c: Call, settle: real): Output {
    match c
    case FeedCall(cs, now) => Feed(s, cs, now, settle)
    case PollCall(now) => Poll(s, now, settle)
  }

  /** Any interleaving of calls, then a flush. */
  function Session(s: State, calls: seq<Call>, settle: real): Output
    decreases |calls|
  {
    if calls == [] then Flush(s)
    else
      var first := Do(s, calls[0], settle);
      var rest := Session(first.state, calls[1..], settle);
      Output(rest.state, first.groups + rest.groups)
  }

  function Changes(c: Call): seq<Change> { if c.FeedCall? then c.changes else [] }

  function Fed(calls: seq<Call>): seq<Change>
    decreases |calls|
  {
    if calls == [] then [] else Changes(calls[0]) + Fed(calls[1..])
  }

  ghost predicate NoneLate(gs: seq<Group>) { forall i :: 0 <= i < |gs| ==> !gs[i].late }

  lemma {:induction false} CollectAppend(bins: Bins, a: seq<Change>, b: seq<Change>)
    ensures Collect(bins, a + b) == Collect(Collect(bins, a), b)
    decreases |a|
  {
    if a == [] {
      assert a + b == b;
    } else {
      assert (a + b)[1..] == a[1..] + b;
      CollectAppend(Put(bins, a[0]), a[1..], b);
    }
  }

  // ------------------------------------------------------------ what comes in time

  /** The changes of one call newer than everything released before it. */
  function Timely(released: Option<int>, cs: seq<Change>): seq<Change>
    decreases |cs|
  {
    if cs == [] then []
    else if Past(released, cs[0].ts) then Timely(released, cs[1..])
    else [cs[0]] + Timely(released, cs[1..])
  }

  function Tardy(released: Option<int>, cs: seq<Change>): seq<Change>
    decreases |cs|
  {
    if cs == [] then []
    else if Past(released, cs[0].ts) then [cs[0]] + Tardy(released, cs[1..])
    else Tardy(released, cs[1..])
  }

  lemma CollectCons(bins: Bins, c: Change, cs: seq<Change>)
    ensures Collect(bins, [c] + cs) == Collect(Put(bins, c), cs)
  {
    assert ([c] + cs)[1..] == cs;
  }

  /** One call bins the late changes apart and adds the others to the pending groups. */
  lemma {:induction false} SiftSplits(s: State, late: Bins, cs: seq<Change>, now: real, r: Sifted)
    requires r == Sift(s, late, cs, now)
    ensures r.late == Collect(late, Tardy(s.released, cs))
    ensures r.state.pending == Collect(s.pending, Timely(s.released, cs))
    decreases |cs|
  {
    if cs != [] {
      var c := cs[0];
      if Past(s.released, c.ts) {
        SiftSplits(s, Put(late, c), cs[1..], now, r);
        CollectCons(late, c, Tardy(s.released, cs[1..]));
      } else {
        SiftSplits(Hold(s, c, now), late, cs[1..], now, r);
        CollectCons(s.pending, c, Timely(s.released, cs[1..]));
      }
    }
  }

  lemma PutAside(out: Bins, bins: Bins, c: Change)
    requires c.ts !in out
    ensures Put(out + bins, c) == out + Put(bins, c)
  {
    assert ValuesAt(out + bins, c.ts) == ValuesAt(bins, c.ts);
  }

  /** Timely changes touch no released group. */
  lemma {:induction false} TimelyAside(out: Bins, bins: Bins, released: Option<int>, cs: seq<Change>)
    requires AllPast(out, released)
    ensures Collect(out + bins, Timely(released, cs)) == out + Collect(bins, Timely(released, cs))
    decreases |cs|
  {
    if cs != [] {
      var c, rest := cs[0], Timely(released, cs[1..]);
      if Past(released, c.ts) {
        TimelyAside(out, bins, released, cs[1..]);
      } else {
        PutAside(out, bins, c);
        TimelyAside(out, Put(bins, c), released, cs[1..]);
        CollectCons(out + bins, c, rest);
        CollectCons(bins, c, rest);
      }
    }
  }

  ghost predicate AllPast(bins: Bins, released: Option<int>) { forall t :: t in bins ==> Past(released, t) }

  /** What a poll takes out of the pending bins. */
  function Gone(s: State, after: State): Bins { s.pending - after.pending.Keys }

  lemma GoneSplits(s: State, out: Bins, after: State, now: real, settle: real)
    requires Valid(s) && Valid(after) && AllPast(out, s.released) && Kept(s, after, now, settle)
    ensures Gone(s, after) + after.pending == s.pending
    ensures out + Gone(s, after) + after.pending == out + s.pending
    ensures Older(Gone(s, after), after.pending) && Older(out, Gone(s, after))
    ensures AllPast(out + Gone(s, after), after.released)
  {
    GoneJoins(s.pending, out, after.pending, Gone(s, after));
  }

  lemma GoneJoins(all: Bins, out: Bins, kept: Bins, gone: Bins)
    requires gone == all - kept.Keys && forall t :: t in kept ==> t in all && kept[t] == all[t]
    ensures gone + kept == all && out + gone + kept == out + all
  {
    forall t | t in kept.Keys ensures t in all.Keys { assert t in kept; }
    assert (all.Keys - kept.Keys) + kept.Keys == all.Keys;
    forall t | t in all ensures t in gone + kept && (gone + kept)[t] == all[t] {
      if t !in kept { assert t in gone; }
    }
    assert gone + kept == all;
    assert out + gone + kept == out + all;
  }

  /** One call moves ripe groups to the output: released and pending together stay what was fed. */
  lemma PollMoves(s: State, out: Bins, now: real, settle: real) returns (moved: Bins)
    requires Valid(s) && AllPast(out, s.released)
    ensures var after := Poll(s, now, settle);
            && Valid(after.state)
            && Listed(moved, false) == Listed(out, false) + after.groups
            && AllPast(moved, after.state.released)
            && moved + after.state.pending == out + s.pending
  {
    var after := Poll(s, now, settle);
    var gone := Gone(s, after.state);
    PollKeeps(s, now, settle);
    GoneSplits(s, out, after.state, now, settle);
    PollPrefix(s, now, settle);
    ListedSplits(gone, after.state.pending, false);
    SameSuffix(after.groups, Listed(gone, false), Listed(after.state.pending, false));
    ListedSplits(out, gone, false);
    moved := out + gone;
  }

  lemma SameSuffix<T>(a: seq<T>, b: seq<T>, c: seq<T>)
    requires a + c == b + c
    ensures a == b
  {
    assert |a + c| == |b + c|;
    assert a == (a + c)[..|a|] && b == (b + c)[..|b|];
  }

  function OnTime(gs: seq<Group>): seq<Group> {
    if gs == [] then [] else (if gs[0].late then [] else [gs[0]]) + OnTime(gs[1..])
  }

  function Flagged(gs: seq<Group>): seq<Group> {
    if gs == [] then [] else (if gs[0].late then [gs[0]] else []) + Flagged(gs[1..])
  }

  lemma {:induction false} FiltersAppend(a: seq<Group>, b: seq<Group>)
    ensures OnTime(a + b) == OnTime(a) + OnTime(b) && Flagged(a + b) == Flagged(a) + Flagged(b)
    decreases |a|
  {
    if a == [] {
      assert a + b == b;
    } else {
      assert (a + b)[0] == a[0] && (a + b)[1..] == a[1..] + b;
      FiltersAppend(a[1..], b);
    }
  }

  lemma {:induction false} FiltersOfOne(gs: seq<Group>, late: bool)
    requires forall i :: 0 <= i < |gs| ==> gs[i].late == late
    ensures if late then OnTime(gs) == [] && Flagged(gs) == gs else OnTime(gs) == gs && Flagged(gs) == []
    decreases |gs|
  {
    if gs != [] { FiltersOfOne(gs[1..], late); }
  }

  function FlaggedBy(released: Option<int>, cs: seq<Change>): seq<Group> {
    Listed(Collect(map[], Tardy(released, cs)), true)
  }

  lemma PollIsOnTime(s: State, now: real, settle: real)
    requires Valid(s)
    ensures OnTime(Poll(s, now, settle).groups) == Poll(s, now, settle).groups
    ensures Flagged(Poll(s, now, settle).groups) == []
  {
    PollOrder(s, now, settle);
    FiltersOfOne(Poll(s, now, settle).groups, false);
  }

  lemma FeedOutput(late: Bins, polled: seq<Group>)
    requires OnTime(polled) == polled && Flagged(polled) == []
    ensures OnTime(Listed(late, true) + polled) == polled
    ensures Flagged(Listed(late, true) + polled) == Listed(late, true)
  {
    ListedAscends(late, true);
    FiltersOfOne(Listed(late, true), true);
    FiltersAppend(Listed(late, true), polled);
  }

  /** One call: its timely changes join what was pending, of which ripe groups leave; its late ones are
      flagged, and form groups of their own. */
  lemma CallMoves(s: State, out: Bins, call: Call, settle: real) returns (moved: Bins)
    requires Valid(s) && AllPast(out, s.released)
    ensures var after := Do(s, call, settle);
            && Valid(after.state) && AllPast(moved, after.state.released)
            && Listed(moved, false) == Listed(out, false) + OnTime(after.groups)
            && Flagged(after.groups) == FlaggedBy(s.released, Changes(call))
            && moved + after.state.pending == Collect(out + s.pending, Timely(s.released, Changes(call)))
  {
    match call
    case PollCall(now) =>
      PollIsOnTime(s, now, settle);
      moved := PollMoves(s, out, now, settle);
    case FeedCall(cs, now) =>
      var sifted := Sift(s, map[], cs, now);
      SiftKeeps(s, map[], cs, now);
      SiftSplits(s, map[], cs, now, sifted);
      TimelyAside(out, s.pending, s.released, cs);
      PollIsOnTime(sifted.state, now, settle);
      FeedOutput(sifted.late, Poll(sifted.state, now, settle).groups);
      moved := PollMoves(sifted.state, out, now, settle);
  }

  /** The changes of a session that come in time, in order of arrival. */
  function TimelyFed(s: State, calls: seq<Call>, settle: real): seq<Change>
    decreases |calls|
  {
    if calls == [] then []
    else Timely(s.released, Changes(calls[0])) + TimelyFed(Do(s, calls[0], settle).state, calls[1..], settle)
  }

  /** What its late changes become: groups of the changes of one call at one instant. */
  function TardyFed(s: State, calls: seq<Call>, settle: real): seq<Group>
    decreases |calls|
  {
    if calls == [] then []
    else FlaggedBy(s.released, Changes(calls[0])) + TardyFed(Do(s, calls[0], settle).state, calls[1..], settle)
  }

  lemma FlushOutput(s: State, out: Bins)
    requires Valid(s) && AllPast(out, s.released)
    ensures Listed(out, false) + OnTime(Flush(s).groups) == Listed(out + s.pending, false)
    ensures Flagged(Flush(s).groups) == []
  {
    assert Older(out, s.pending);
    ListedSplits(out, s.pending, false);
    ListedAscends(s.pending, false);
    FiltersOfOne(Listed(s.pending, false), false);
  }

  lemma {:induction false} SessionSorts(s: State, out: Bins, calls: seq<Call>, settle: real)
    requires Valid(s) && AllPast(out, s.released)
    ensures Listed(out, false) + OnTime(Session(s, calls, settle).groups)
            == Listed(Collect(out + s.pending, TimelyFed(s, calls, settle)), false)
    ensures Flagged(Session(s, calls, settle).groups) == TardyFed(s, calls, settle)
    decreases |calls|
  {
    if calls == [] {
      FlushOutput(s, out);
    } else {
      var first := Do(s, calls[0], settle);
      var rest := Session(first.state, calls[1..], settle);
      var moved := CallMoves(s, out, calls[0], settle);
      SessionSorts(first.state, moved, calls[1..], settle);
      FiltersAppend(first.groups, rest.groups);
      CollectAppend(out + s.pending, Timely(s.released, Changes(calls[0])),
                    TimelyFed(first.state, calls[1..], settle));
      Reassociate(Listed(out, false), OnTime(first.groups), OnTime(rest.groups));
    }
  }

  /** The output of any session, whatever comes late: its on-time groups are all the timely changes
      grouped by timestamp and sorted, the last write to a tag winning; its flagged groups are, call by
      call, the late ones. */
  lemma SessionOutput(calls: seq<Call>, settle: real)
    ensures OnTime(Session(IDLE, calls, settle).groups) == Batch(TimelyFed(IDLE, calls, settle))
    ensures Flagged(Session(IDLE, calls, settle).groups) == TardyFed(IDLE, calls, settle)
  {
    SessionSorts(IDLE, IDLE.pending, calls, settle);
    NothingYet(IDLE.pending, OnTime(Session(IDLE, calls, settle).groups), TimelyFed(IDLE, calls, settle));
  }

  lemma NothingYet(none: Bins, gs: seq<Group>, cs: seq<Change>)
    requires none == map[]
    ensures Listed(none, false) + gs == gs && Listed(Collect(none + none, cs), false) == Batch(cs)
  {
    assert Listed(none, false) == [] && none + none == none;
  }

  lemma {:induction false} CollectGrows(bins: Bins, cs: seq<Change>)
    ensures bins != map[] || cs != [] ==> Collect(bins, cs) != map[]
    decreases |cs|
  {
    if cs != [] {
      assert cs[0].ts in Put(bins, cs[0]);
      CollectGrows(Put(bins, cs[0]), cs[1..]);
    }
  }

  lemma {:induction false} AllTimely(released: Option<int>, cs: seq<Change>)
    requires Tardy(released, cs) == []
    ensures Timely(released, cs) == cs
    decreases |cs|
  {
    if cs != [] { AllTimely(released, cs[1..]); }
  }

  lemma {:induction false} NothingTardy(s: State, calls: seq<Call>, settle: real)
    requires TardyFed(s, calls, settle) == []
    ensures TimelyFed(s, calls, settle) == Fed(calls)
    decreases |calls|
  {
    if calls != [] {
      var cs := Changes(calls[0]);
      CollectGrows(map[], Tardy(s.released, cs));
      AllTimely(s.released, cs);
      NothingTardy(Do(s, calls[0], settle).state, calls[1..], settle);
    }
  }

  /** Streaming re-sequencing equals batch grouping, for any arrival order and any interleaving of
      calls in which nothing is flagged late. */
  lemma StreamingEqualsBatch(calls: seq<Call>, settle: real)
    requires NoneLate(Session(IDLE, calls, settle).groups)
    ensures Session(IDLE, calls, settle).groups == Batch(Fed(calls))
  {
    SessionOutput(calls, settle);
    FiltersOfOne(Session(IDLE, calls, settle).groups, false);
    NothingTardy(IDLE, calls, settle);
  }

  // ------------------------------------------------------------ sessions with late changes

  ghost predicate Carries(gs: seq<Group>, ts: int, tag: Tag) {
    exists i :: 0 <= i < |gs| && gs[i].ts == ts && tag in gs[i].values
  }

  predicate Holds(bins: Bins, ts: int, tag: Tag) { ts in bins && tag in bins[ts] }

  lemma CarriesAppend(a: seq<Group>, b: seq<Group>, ts: int, tag: Tag)
    ensures Carries(a + b, ts, tag) <==> Carries(a, ts, tag) || Carries(b, ts, tag)
  {
    if Carries(a, ts, tag) {
      var i :| 0 <= i < |a| && a[i].ts == ts && tag in a[i].values;
      assert (a + b)[i] == a[i];
    }
    if Carries(b, ts, tag) {
      var i :| 0 <= i < |b| && b[i].ts == ts && tag in b[i].values;
      assert (a + b)[|a| + i] == b[i];
    }
  }

  lemma {:induction false} ListedCarries(bins: Bins, late: bool, ts: int, tag: Tag)
    ensures Carries(Listed(bins, late), ts, tag) <==> Holds(bins, ts, tag)
    decreases |bins|
  {
    if bins != map[] {
      var t := Oldest(bins);
      Shrinks(bins, t);
      ListedCons(bins, t, late);
      var first := [Group(t, bins[t], late)];
      CarriesAppend(first, Listed(bins - {t}, late), ts, tag);
      assert Carries(first, ts, tag) <==> first[0].ts == ts && tag in first[0].values;
      ListedCarries(bins - {t}, late, ts, tag);
    }
  }

  /** Some change is of that tag at that instant. */
  ghost predicate Mentions(cs: seq<Change>, ts: int, tag: Tag) { exists c :: c in cs && c.ts == ts && c.tag == tag }

  lemma MentionsCons(cs: seq<Change>, ts: int, tag: Tag)
    requires cs != []
    ensures Mentions(cs, ts, tag) <==> (cs[0].ts == ts && cs[0].tag == tag) || Mentions(cs[1..], ts, tag)
  {
    assert cs == [cs[0]] + cs[1..];
    if cs[0].ts == ts && cs[0].tag == tag { assert cs[0] in cs; }
  }

  lemma PutHolds(bins: Bins, c: Change, ts: int, tag: Tag)
    ensures Holds(Put(bins, c), ts, tag) <==> Holds(bins, ts, tag) || (c.ts == ts && c.tag == tag)
  {
  }

  lemma {:induction false} SiftHolds(s: State, late: Bins, cs: seq<Change>, now: real, ts: int, tag: Tag)
    ensures var sifted := Sift(s, late, cs, now);
            (Holds(sifted.state.pending, ts, tag) || Holds(sifted.late, ts, tag))
            <==> (Holds(s.pending, ts, tag) || Holds(late, ts, tag) || Mentions(cs, ts, tag))
    decreases |cs|
  {
    if cs != [] {
      MentionsCons(cs, ts, tag);
      if Past(s.released, cs[0].ts) {
        PutHolds(late, cs[0], ts, tag);
        SiftHolds(s, Put(late, cs[0]), cs[1..], now, ts, tag);
      } else {
        PutHolds(s.pending, cs[0], ts, tag);
        SiftHolds(Hold(s, cs[0], now), late, cs[1..], now, ts, tag);
      }
    }
  }

  /** Every value is the one some change gives its tag at its instant. */
  ghost predicate HoldsOf(bins: Bins, cs: seq<Change>) {
    forall ts, tag :: Holds(bins, ts, tag) ==> Change(tag, bins[ts][tag], ts) in cs
  }

  ghost predicate CarriesOf(gs: seq<Group>, cs: seq<Change>) {
    forall i, tag :: 0 <= i < |gs| && tag in gs[i].values ==> Change(tag, gs[i].values[tag], gs[i].ts) in cs
  }

  lemma CarriesOfAppend(a: seq<Group>, b: seq<Group>, cs: seq<Change>)
    requires CarriesOf(a, cs) && CarriesOf(b, cs)
    ensures CarriesOf(a + b, cs)
  {
  }

  lemma PutOf(bins: Bins, c: Change, all: seq<Change>)
    requires HoldsOf(bins, all) && c in all
    ensures HoldsOf(Put(bins, c), all)
  {
    forall ts, tag | Holds(Put(bins, c), ts, tag) ensures Change(tag, Put(bins, c)[ts][tag], ts) in all {
      if !(ts == c.ts && tag == c.tag) { assert Holds(bins, ts, tag); }
    }
  }

  lemma {:induction false} SiftOf(s: State, late: Bins, cs: seq<Change>, now: real, all: seq<Change>)
    requires HoldsOf(s.pending, all) && HoldsOf(late, all) && forall c :: c in cs ==> c in all
    ensures var r := Sift(s, late, cs, now); HoldsOf(r.state.pending, all) && HoldsOf(r.late, all)
    decreases |cs|
  {
    if cs != [] {
      if Past(s.released, cs[0].ts) {
        PutOf(late, cs[0], all);
        SiftOf(s, Put(late, cs[0]), cs[1..], now, all);
      } else {
        PutOf(s.pending, cs[0], all);
        SiftOf(Hold(s, cs[0], now), late, cs[1..], now, all);
      }
    }
  }

  lemma {:induction false} ListedOf(bins: Bins, late: bool, all: seq<Change>)
    requires HoldsOf(bins, all)
    ensures CarriesOf(Listed(bins, late), all)
    decreases |bins|
  {
    if bins != map[] {
      var t := Oldest(bins);
      Shrinks(bins, t);
      forall ts, tag | Holds(bins - {t}, ts, tag) ensures Change(tag, (bins - {t})[ts][tag], ts) in all {
        assert Holds(bins, ts, tag);
      }
      ListedOf(bins - {t}, late, all);
      forall tag | tag in bins[t] ensures Change(tag, bins[t][tag], t) in all { assert Holds(bins, t, tag); }
    }
  }

  lemma {:induction false} PollOf(s: State, now: real, settle: real, all: seq<Change>)
    requires HoldsOf(s.pending, all)
    ensures var out := Poll(s, now, settle); HoldsOf(out.state.pending, all) && CarriesOf(out.groups, all)
    decreases |s.pending|
  {
    if s.pending != map[] && Ripe(s, Oldest(s.pending), now, settle) {
      var t := Oldest(s.pending);
      Shrinks(s.pending, t);
      var rest := Pop(s, t);
      forall ts, tag | Holds(rest.pending, ts, tag) ensures Change(tag, rest.pending[ts][tag], ts) in all {
        assert Holds(s.pending, ts, tag);
      }
      PollOf(rest, now, settle, all);
      forall tag | tag in s.pending[t] ensures Change(tag, s.pending[t][tag], t) in all {
        assert Holds(s.pending, t, tag);
      }
    }
  }

  lemma CallOf(s: State, call: Call, settle: real, all: seq<Change>)
    requires HoldsOf(s.pending, all) && forall c :: c in Changes(call) ==> c in all
    ensures var out := Do(s, call, settle); HoldsOf(out.state.pending, all) && CarriesOf(out.groups, all)
  {
    match call
    case PollCall(now) => PollOf(s, now, settle, all);
    case FeedCall(cs, now) =>
      var sifted := Sift(s, map[], cs, now);
      SiftOf(s, map[], cs, now, all);
      PollOf(sifted.state, now, settle, all);
      ListedOf(sifted.late, true, all);
  }

  lemma {:induction false} SessionOf(s: State, calls: seq<Call>, settle: real, all: seq<Change>)
    requires HoldsOf(s.pending, all) && forall c :: c in Fed(calls) ==> c in all
    ensures CarriesOf(Session(s, calls, settle).groups, all)
    decreases |calls|
  {
    if calls == [] {
      ListedOf(s.pending, false, all);
    } else {
      CallOf(s, calls[0], settle, all);
      SessionOf(Do(s, calls[0], settle).state, calls[1..], settle, all);
    }
  }

  /** Every change fed is released or flagged late at its own timestamp, and nothing else ever is; and
      each value that comes out is one that some change gave that tag at that instant. */
  lemma NothingLostOrInvented(s: State, calls: seq<Call>, settle: real, known: seq<Change>, ts: int, tag: Tag)
    requires HoldsOf(s.pending, known)
    ensures Carries(Session(s, calls, settle).groups, ts, tag)
            <==> (Holds(s.pending, ts, tag) || Mentions(Fed(calls), ts, tag))
    ensures CarriesOf(Session(s, calls, settle).groups, known + Fed(calls))
  {
    SessionCarries(s, calls, settle, ts, tag);
    SessionOf(s, calls, settle, known + Fed(calls));
  }

  lemma {:induction false} SessionCarries(s: State, calls: seq<Call>, settle: real, ts: int, tag: Tag)
    ensures Carries(Session(s, calls, settle).groups, ts, tag)
            <==> (Holds(s.pending, ts, tag) || Mentions(Fed(calls), ts, tag))
    decreases |calls|
  {
    if calls == [] {
      ListedCarries(s.pending, false, ts, tag);
    } else {
      var first := Do(s, calls[0], settle);
      var rest := Session(first.state, calls[1..], settle);
      SessionCarries(first.state, calls[1..], settle, ts, tag);
      CarriesAppend(first.groups, rest.groups, ts, tag);
      CallHolds(s, calls[0], settle, ts, tag);
      MentionsAppend(Changes(calls[0]), Fed(calls[1..]), ts, tag);
    }
  }

  lemma MentionsAppend(a: seq<Change>, b: seq<Change>, ts: int, tag: Tag)
    ensures Mentions(a + b, ts, tag) <==> Mentions(a, ts, tag) || Mentions(b, ts, tag)
  {
  }

  lemma CallHolds(s: State, call: Call, settle: real, ts: int, tag: Tag)
    ensures var after := Do(s, call, settle);
            (Carries(after.groups, ts, tag) || Holds(after.state.pending, ts, tag))
            <==> (Holds(s.pending, ts, tag) || Mentions(Changes(call), ts, tag))
  {
    match call
    case PollCall(now) =>
      PollHolds(s, now, settle, ts, tag);
    case FeedCall(cs, now) =>
      var sifted := Sift(s, map[], cs, now);
      SiftHolds(s, map[], cs, now, ts, tag);
      PollHolds(sifted.state, now, settle, ts, tag);
      ListedCarries(sifted.late, true, ts, tag);
      CarriesAppend(Listed(sifted.late, true), Poll(sifted.state, now, settle).groups, ts, tag);
  }

  lemma PollHolds(s: State, now: real, settle: real, ts: int, tag: Tag)
    ensures var after := Poll(s, now, settle);
            (Carries(after.groups, ts, tag) || Holds(after.state.pending, ts, tag)) <==> Holds(s.pending, ts, tag)
  {
    var after := Poll(s, now, settle);
    PollPrefix(s, now, settle);
    ListedCarries(s.pending, false, ts, tag);
    ListedCarries(after.state.pending, false, ts, tag);
    CarriesAppend(after.groups, Listed(after.state.pending, false), ts, tag);
  }

  /** On-time groups are strictly increasing and newer than anything released before. */
  ghost predicate OnTimeIncreasing(released: Option<int>, gs: seq<Group>) {
    && (forall i :: 0 <= i < |gs| && !gs[i].late ==> !Past(released, gs[i].ts))
    && (forall i, j :: 0 <= i < j < |gs| && !gs[i].late && !gs[j].late ==> gs[i].ts < gs[j].ts)
  }

  ghost predicate Released(gs: seq<Group>, released: Option<int>) {
    forall i :: 0 <= i < |gs| && !gs[i].late ==> Past(released, gs[i].ts)
  }

  ghost predicate AscendingIn(bins: Bins, late: bool, gs: seq<Group>) {
    && (forall i :: 0 <= i < |gs| ==> gs[i].ts in bins && gs[i].late == late)
    && (forall i, j :: 0 <= i < j < |gs| ==> gs[i].ts < gs[j].ts)
  }

  lemma OnTimeAppend(released: Option<int>, mid: Option<int>, a: seq<Group>, b: seq<Group>)
    requires OnTimeIncreasing(released, a) && OnTimeIncreasing(mid, b)
    requires forall t :: Past(released, t) ==> Past(mid, t)
    requires Released(a, mid)
    ensures OnTimeIncreasing(released, a + b)
  {
  }

  lemma {:induction false} ListedAscends(bins: Bins, late: bool)
    ensures AscendingIn(bins, late, Listed(bins, late))
    decreases |bins|
  {
    if bins != map[] {
      var t := Oldest(bins);
      Shrinks(bins, t);
      ListedCons(bins, t, late);
      ListedAscends(bins - {t}, late);
    }
  }

  lemma {:induction false} PollReleases(s: State, now: real, settle: real)
    requires Valid(s)
    ensures Released(Poll(s, now, settle).groups, Poll(s, now, settle).state.released)
    decreases |s.pending|
  {
    if s.pending != map[] && Ripe(s, Oldest(s.pending), now, settle) {
      var t := Oldest(s.pending);
      Shrinks(s.pending, t);
      PopValid(s, t);
      PollKeeps(Pop(s, t), now, settle);
      PollReleases(Pop(s, t), now, settle);
      assert Past(Pop(s, t).released, t);
    }
  }

  /** Whatever is fed and whenever it is polled, groups released on time never go back in time. */
  lemma {:induction false} SessionNeverGoesBack(s: State, calls: seq<Call>, settle: real)
    requires Valid(s)
    ensures OnTimeIncreasing(s.released, Session(s, calls, settle).groups)
    decreases |calls|
  {
    if calls == [] {
      var gs := Listed(s.pending, false);
      ListedAscends(s.pending, false);
      assert Session(s, calls, settle).groups == gs;
      assert OnTimeIncreasing(s.released, gs);
    } else {
      var first := Do(s, calls[0], settle);
      CallNeverGoesBack(s, calls[0], settle);
      SessionNeverGoesBack(first.state, calls[1..], settle);
      OnTimeAppend(s.released, first.state.released, first.groups, Session(first.state, calls[1..], settle).groups);
    }
  }

  lemma CallNeverGoesBack(s: State, call: Call, settle: real)
    requires Valid(s)
    ensures var after := Do(s, call, settle);
            && Valid(after.state)
            && OnTimeIncreasing(s.released, after.groups)
            && (forall t :: Past(s.released, t) ==> Past(after.state.released, t))
            && Released(after.groups, after.state.released)
  {
    match call
    case PollCall(now) =>
      PollOrder(s, now, settle);
      PollKeeps(s, now, settle);
      PollReleases(s, now, settle);
    case FeedCall(cs, now) =>
      var sifted := Sift(s, map[], cs, now);
      SiftKeeps(s, map[], cs, now);
      PollOrder(sifted.state, now, settle);
      PollKeeps(sifted.state, now, settle);
      PollReleases(sifted.state, now, settle);
      ListedAscends(sifted.late, true);
      var flagged := Listed(sifted.late, true);
      assert OnTimeIncreasing(s.released, flagged);
      OnTimeAppend(s.released, s.released, Listed(sifted.late, true), Poll(sifted.state, now, settle).groups);
  }

  // ------------------------------------------------------------ the class

  class ChangeAssembler {
    const settle: real
    var pending: Bins
    var arrived: map<int, real>
    var released: Option<int>

    function View(): State
      reads this
    {
      State(pending, arrived, released)
    }

    constructor (settle: real)
      ensures View() == IDLE && this.settle == settle
    {
      this.settle := settle;
      pending, arrived, released := map[], map[], None;
    }

    method FeedChanges(changes: seq<Change>, now: real) returns (out: seq<Group>)
      modifies this
      ensures Output(View(), out) == Feed(old(View()), changes, now, settle)
    {
      var late: Bins := map[];
      for i := 0 to |changes|
        invariant Sift(old(View()), map[], changes, now) == Sift(View(), late, changes[i..], now)
      {
        var c := changes[i];
        assert changes[i..][1..] == changes[i + 1..];
        if released.Some? && c.ts <= released.value {
          late := late[c.ts := ValuesAt(late, c.ts)[c.tag := c.value]];
        } else {
          HoldOne(c, now);
        }
      }
      out := List(late, true);
      var ready := PollGroups(now);
      out := out + ready;
    }

    method HoldOne(c: Change, now: real)
      modifies this
      ensures View() == Hold(old(View()), c, now)
    {
      if c.ts !in pending {
        pending := pending[c.ts := map[]];
        arrived := arrived[c.ts := now];
      }
      pending := pending[c.ts := pending[c.ts][c.tag := c.value]];
    }

    method PollGroups(now: real) returns (out: seq<Group>)
      modifies this
      ensures Output(View(), out) == Poll(old(View()), now, settle)
    {
      out := [];
      while pending != map[]
        invariant PolledUpTo(old(View()), View(), out, now, settle)
        decreases |pending|
      {
        var ts := Oldest(pending);
        if ts !in arrived || now - arrived[ts] < settle { break; }
        PolledOneMore(old(View()), View(), out, now, settle, ts);
        out := out + [Group(ts, pending[ts], false)];
        PopOldest(ts);
      }
    }

    method PopOldest(ts: int)
      requires ts in pending
      modifies this
      ensures View() == Pop(old(View()), ts) && |pending| < old(|pending|)
    {
      Shrinks(pending, ts);
      pending := pending - {ts};
      arrived := arrived - {ts};
      released := Some(ts);
    }

    method FlushGroups() returns (out: seq<Group>)
      modifies this
      ensures Output(View(), out) == Flush(old(View()))
    {
      out := List(pending, false);
      ListedEndsNewest(pending);
      if out != [] { released := Some(out[|out| - 1].ts); }
      pending, arrived := map[], map[];
    }

    method OldestPending() returns (t: Option<int>)
      ensures t == MinOf(pending.Keys)
    {
      t := MinOf(pending.Keys);
    }

    method List(bins: Bins, late: bool) returns (out: seq<Group>)
      ensures out == Listed(bins, late)
    {
      out := [];
      var left := bins;
      while left != map[]
        invariant Listed(bins, late) == out + Listed(left, late)
        decreases |left|
      {
        var t := Oldest(left);
        Shrinks(left, t);
        ListedCons(left, t, late);
        out := out + [Group(t, left[t], late)];
        left := left - {t};
      }
    }
  }

  /** The groups out, and those a poll would still release, are those of the poll from the start. */
  ghost predicate PolledUpTo(start: State, s: State, out: seq<Group>, now: real, settle: real) {
    var all, rest := Poll(start, now, settle), Poll(s, now, settle);
    all.state == rest.state && all.groups == out + rest.groups
  }

  lemma PolledOneMore(start: State, s: State, out: seq<Group>, now: real, settle: real, t: int)
    requires PolledUpTo(start, s, out, now, settle) && s.pending != map[]
    requires t == Oldest(s.pending) && Ripe(s, t, now, settle)
    ensures PolledUpTo(start, Pop(s, t), out + [Group(t, s.pending[t], false)], now, settle)
  {
    var rest := Poll(Pop(s, t), now, settle);
    Reassociate(out, [Group(t, s.pending[t], false)], rest.groups);
  }

  lemma {:induction false} ListedEndsNewest(bins: Bins)
    ensures var gs := Listed(bins, false);
            if bins == map[] then gs == [] else gs != [] && MaxOf(bins.Keys) == Some(gs[|gs| - 1].ts)
    decreases |bins|
  {
    if bins != map[] {
      var t := Oldest(bins);
      Shrinks(bins, t);
      ListedCons(bins, t, false);
      ListedEndsNewest(bins - {t});
      assert bins.Keys == (bins - {t}).Keys + {t};
      if bins - {t} != map[] {
        var m := MaxOf((bins - {t}).Keys).value;
        assert m in bins.Keys && forall u :: u in bins.Keys ==> u <= m;
      }
    }
  }
}
