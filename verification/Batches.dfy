/** What groups carry: the last write of each tag at each instant. */
module Batches {
  import opened Basics
  import opened Facts
  import opened Assembling

  /** The value of the last change of this tag at this instant. */
  function LastWrite(cs: seq<Change>, ts: int, tag: Tag): Option<TagValue>
    decreases |cs|
  {
    if cs == [] then None
    else
      var last := cs[|cs| - 1];
      if last.ts == ts && last.tag == tag then Some(last.value) else LastWrite(cs[..|cs| - 1], ts, tag)
  }

  /** Bins that hold, of every instant and tag, the last write on top of what they held. */
  function Over(bins: Bins, cs: seq<Change>, ts: int, tag: Tag): Option<TagValue> {
    var last := LastWrite(cs, ts, tag);
    if last.Some? then last else if Holds(bins, ts, tag) then Some(bins[ts][tag]) else None
  }

  function Held(bins: Bins, ts: int, tag: Tag): Option<TagValue> {
    if Holds(bins, ts, tag) then Some(bins[ts][tag]) else None
  }

  lemma PutOne(bins: Bins, c: Change, ts: int, tag: Tag)
    ensures Held(Put(bins, c), ts, tag) == if c.ts == ts && c.tag == tag then Some(c.value) else Held(bins, ts, tag)
  {
  }

  lemma {:induction false} CollectHolds(bins: Bins, cs: seq<Change>, ts: int, tag: Tag)
    ensures Held(Collect(bins, cs), ts, tag) == Over(bins, cs, ts, tag)
    decreases |cs|
  {
    if cs != [] {
      var front, last := cs[..|cs| - 1], cs[|cs| - 1];
      assert cs == front + [last];
      CollectAppend(bins, front, [last]);
      CollectHolds(bins, front, ts, tag);
      OnePut(Collect(bins, front), last);
      PutOne(Collect(bins, front), last, ts, tag);
    }
  }

  lemma OnePut(bins: Bins, c: Change)
    ensures Collect(bins, [c]) == Put(bins, c)
  {
    assert [c][1..] == [];
  }

  ghost predicate SomeAt(cs: seq<Change>, ts: int) { exists c :: c in cs && c.ts == ts }

  lemma {:induction false} CollectInstants(bins: Bins, cs: seq<Change>, ts: int)
    ensures ts in Collect(bins, cs) <==> ts in bins || SomeAt(cs, ts)
    decreases |cs|
  {
    if cs != [] {
      CollectInstants(Put(bins, cs[0]), cs[1..], ts);
      assert cs == [cs[0]] + cs[1..];
      if cs[0].ts == ts { assert cs[0] in cs; }
    }
  }

  ghost predicate Ascending(gs: seq<Group>) { forall i, j :: 0 <= i < j < |gs| ==> gs[i].ts < gs[j].ts }

  ghost predicate OfBins(gs: seq<Group>, bins: Bins, late: bool) {
    forall i :: 0 <= i < |gs| ==> gs[i].ts in bins && gs[i].values == bins[gs[i].ts] && gs[i].late == late
  }

  ghost predicate HasGroup(gs: seq<Group>, t: int) { exists i :: 0 <= i < |gs| && gs[i].ts == t }

  /** One group for every instant of the changes and for no other, oldest first, and in it exactly the tags written
      at that instant, each with its last write. */
  ghost predicate GroupsOf(cs: seq<Change>, gs: seq<Group>, late: bool) {
    && Ascending(gs) && (forall c :: c in cs ==> HasGroup(gs, c.ts))
    && (forall i :: 0 <= i < |gs| ==> SomeAt(cs, gs[i].ts) && gs[i].late == late)
    && (forall i, tag :: 0 <= i < |gs| ==> (tag in gs[i].values <==> LastWrite(cs, gs[i].ts, tag).Some?))
    && (forall i, tag :: 0 <= i < |gs| && tag in gs[i].values ==>
          LastWrite(cs, gs[i].ts, tag) == Some(gs[i].values[tag]))
  }

  lemma {:induction false} ListedIs(bins: Bins, late: bool, gs: seq<Group>)
    requires gs == Listed(bins, late)
    ensures Ascending(gs) && OfBins(gs, bins, late) && forall t :: t in bins ==> HasGroup(gs, t)
    decreases |bins|
  {
    if bins != map[] {
      var t := Oldest(bins);
      Shrinks(bins, t);
      var rest := Listed(bins - {t}, late);
      ListedIs(bins - {t}, late, rest);
      OneGroupMore(bins, late, t, rest, gs);
    }
  }

  lemma OneGroupMore(bins: Bins, late: bool, t: int, rest: seq<Group>, gs: seq<Group>)
    requires t in bins && (forall u :: u in bins ==> t <= u) && gs == [Group(t, bins[t], late)] + rest
    requires Ascending(rest) && OfBins(rest, bins - {t}, late) && forall u :: u in bins - {t} ==> HasGroup(rest, u)
    ensures Ascending(gs) && OfBins(gs, bins, late) && forall u :: u in bins ==> HasGroup(gs, u)
  {
    FirstIsOldest(bins, late, t, rest, gs);
    forall u | u in bins ensures HasGroup(gs, u) {
      if u == t { assert gs[0].ts == u; } else { HasOneMore(rest, gs, u); }
    }
  }

  lemma HasOneMore(rest: seq<Group>, gs: seq<Group>, u: int)
    requires gs != [] && gs[1..] == rest && HasGroup(rest, u)
    ensures HasGroup(gs, u)
  {
    var i :| 0 <= i < |rest| && rest[i].ts == u;
    assert gs[i + 1] == rest[i];
  }

  lemma FirstIsOldest(bins: Bins, late: bool, t: int, rest: seq<Group>, gs: seq<Group>)
    requires t in bins && (forall u :: u in bins ==> t <= u) && gs == [Group(t, bins[t], late)] + rest
    requires Ascending(rest) && OfBins(rest, bins - {t}, late)
    ensures Ascending(gs) && OfBins(gs, bins, late) && gs[1..] == rest
  {
    assert forall i :: 0 < i < |gs| ==> gs[i] == rest[i - 1] && gs[i].ts in bins - {t};
  }

  /** Grouping changes by instant keeps the last write of each tag: of a whole batch, and of the late changes of a
      call, which are flagged. */
  lemma LastWriteWins(cs: seq<Change>, late: bool)
    ensures GroupsOf(cs, Listed(Collect(map[], cs), late), late)
  {
    var bins := Collect(map[], cs);
    var gs := Listed(bins, late);
    ListedIs(bins, late, gs);
    forall ts ensures ts in bins <==> SomeAt(cs, ts) { CollectInstants(map[], cs, ts); }
    forall c | c in cs ensures HasGroup(gs, c.ts) { assert SomeAt(cs, c.ts); }
    forall i, tag | 0 <= i < |gs|
      ensures tag in gs[i].values <==> LastWrite(cs, gs[i].ts, tag).Some?
      ensures tag in gs[i].values ==> LastWrite(cs, gs[i].ts, tag) == Some(gs[i].values[tag])
    {
      CollectHolds(map[], cs, gs[i].ts, tag);
    }
  }
}
