/** How a batch is taken apart, and how far the progress mark goes: as far as is safe, and no less. */
module Progress {
  import opened Basics
  import opened Facts
  import opened Tracking
  import opened Storage
  import opened Collecting
  import A = Assembling
  import B = Batches
  import W = Watching

  // ------------------------------------------------------------ the two halves of a batch

  ghost predicate InTime(ts: seq<int>) { forall i, j :: 0 <= i < j < |ts| ==> ts[i] <= ts[j] }

  /** The timestamps of the heartbeats, as they came. */
  function BeatTimes(batch: seq<Change>): seq<int> {
    if batch == [] then []
    else (if batch[0].tag == Heartbeat then [batch[0].ts] else []) + BeatTimes(batch[1..])
  }

  lemma {:induction false} InsertKeeps(ts: int, sorted: seq<int>)
    ensures multiset(InsertTs(ts, sorted)) == multiset{ts} + multiset(sorted)
    decreases |sorted|
  {
    if sorted == [] || ts <= sorted[0] {
      assert multiset([ts] + sorted) == multiset{ts} + multiset(sorted);
    } else {
      InsertKeeps(ts, sorted[1..]);
      assert sorted == [sorted[0]] + sorted[1..];
    }
  }

  lemma {:induction false} InsertSorts(ts: int, sorted: seq<int>)
    requires InTime(sorted)
    ensures InTime(InsertTs(ts, sorted))
    decreases |sorted|
  {
    if sorted != [] && ts > sorted[0] {
      var first, rest := sorted[0], sorted[1..];
      InsertSorts(ts, rest);
      InsertKeeps(ts, rest);
      var tail := InsertTs(ts, rest);
      forall j | 0 <= j < |tail| ensures first <= tail[j] {
        assert tail[j] in multiset(tail);
        assert tail[j] == ts || tail[j] in rest;
      }
    }
  }

  /** The watchdog hears all heartbeats of a batch, none twice, in timestamp order. */
  lemma {:induction false} BeatsAreSorted(batch: seq<Change>)
    ensures InTime(Beats(batch)) && multiset(Beats(batch)) == multiset(BeatTimes(batch))
    decreases |batch|
  {
    if batch != [] {
      BeatsAreSorted(batch[1..]);
      if batch[0].tag == Heartbeat {
        InsertKeeps(batch[0].ts, Beats(batch[1..]));
        InsertSorts(batch[0].ts, Beats(batch[1..]));
        assert BeatTimes(batch) == [batch[0].ts] + BeatTimes(batch[1..]);
      } else {
        assert BeatTimes(batch) == BeatTimes(batch[1..]);
      }
    }
  }

  lemma {:induction false} OthersSnoc(batch: seq<Change>, c: Change)
    ensures Others(batch + [c]) == if c.tag == Heartbeat then Others(batch) else Others(batch) + [c]
    decreases |batch|
  {
    if batch == [] {
      assert batch + [c] == [c] && [c][1..] == [];
    } else {
      assert (batch + [c])[0] == batch[0] && (batch + [c])[1..] == batch[1..] + [c];
      OthersSnoc(batch[1..], c);
    }
  }

  /** The assembler is fed every other change, none invented, with the last write of each tag still the last. */
  lemma {:induction false} OthersAreTheRest(batch: seq<Change>, ts: int, tag: Tag)
    ensures forall c :: c in Others(batch) <==> c in batch && c.tag != Heartbeat
    ensures B.LastWrite(Others(batch), ts, tag) == if tag == Heartbeat then None else B.LastWrite(batch, ts, tag)
    decreases |batch|
  {
    if batch != [] {
      var front, last := batch[..|batch| - 1], batch[|batch| - 1];
      assert batch == front + [last];
      OthersAreTheRest(front, ts, tag);
      OthersSnoc(front, last);
      var rest := Others(front);
      assert (rest + [last])[..|rest|] == rest;
    }
  }

  lemma {:induction false} BatchBounds(batch: seq<Change>)
    requires batch != []
    ensures forall c :: c in batch ==> Oldest(batch) <= c.ts <= Newest(batch)
    ensures (exists c :: c in batch && c.ts == Oldest(batch)) && (exists c :: c in batch && c.ts == Newest(batch))
    decreases |batch|
  {
    assert batch == [batch[0]] + batch[1..];
    assert batch[0] in batch;
    if |batch| > 1 {
      BatchBounds(batch[1..]);
      var c :| c in batch[1..] && c.ts == Oldest(batch[1..]);
      var d :| d in batch[1..] && d.ts == Newest(batch[1..]);
      assert c in batch && d in batch;
    } else {
      assert batch[1..] == [];
    }
  }

  // ------------------------------------------------------------ the progress mark

  /** An instant is safe when something that new was received and nothing that old still waits. */
  ghost predicate Safe(p: Pipe, t: int) {
    p.maxTs.Some? && t <= p.maxTs.value && forall u :: u in p.assembler.pending ==> t < u
  }

  /** Every safe instant is marked as seen. */
  ghost predicate AllMarked(p: Pipe) {
    forall t :: Safe(p, t) ==> p.writtenTs.Some? && t <= p.writtenTs.value
  }

  /** The mark is a safe instant and the next one is not. */
  ghost predicate Tight(p: Pipe) {
    p.writtenTs.Some? && Safe(p, p.writtenTs.value) && !Safe(p, p.writtenTs.value + 1)
  }

  lemma SafeUpTo(p: Pipe, t: int)
    ensures Safe(p, t) <==> SafeLastSeen(p.maxTs, p.assembler).Some?
                            && t <= SafeLastSeen(p.maxTs, p.assembler).value
  {
    var oldest := MinOf(p.assembler.pending.Keys);
    if oldest.Some? { assert oldest.value in p.assembler.pending; }
    assert forall u :: u in p.assembler.pending ==> u in p.assembler.pending.Keys;
  }

  lemma WriteMarks(p: Pipe, ops: seq<Op>, now: real, force: bool, cfg: Config, q: Pipe)
    requires q == Write(p, ops, now, force, cfg)
    ensures q == p.(db := q.db, writtenTs := q.writtenTs, lastFlush := q.lastFlush)
    ensures ops != [] || force || now - p.lastFlush >= cfg.flushEvery ==> AllMarked(q)
    ensures q.writtenTs != p.writtenTs ==> Tight(q) && AllMarked(q) && q.lastFlush == now
    ensures q.writtenTs == p.writtenTs ==> q.lastFlush == p.lastFlush
    ensures q.writtenTs != p.writtenTs || ops != [] || q.db == p.db
    ensures p.db.lastSeen.Some? ==> q.db.lastSeen.Some? && p.db.lastSeen.value <= q.db.lastSeen.value
  {
    forall t ensures Safe(q, t) <==> Safe(p, t) {}
    forall t
      ensures Safe(p, t) <==> SafeLastSeen(p.maxTs, p.assembler).Some?
                              && t <= SafeLastSeen(p.maxTs, p.assembler).value
    {
      SafeUpTo(p, t);
    }
    SeenStays(p.db, ops);
  }

  lemma OneSeenStays(db: Db, op: Op)
    ensures ApplyOp(db, op).lastSeen == db.lastSeen
  {
  }

  lemma {:induction false} SeenStays(db: Db, ops: seq<Op>)
    ensures ApplyOps(db, ops).lastSeen == db.lastSeen
    decreases |ops|
  {
    if ops != [] {
      var next := ApplyOp(db, ops[0]);
      OneSeenStays(db, ops[0]);
      SeenStays(next, ops[1..]);
    }
  }

  /** A call that stores anything, comes after the flush interval or drains leaves no safe instant unmarked; the mark
      moves only onto the last safe instant; and the one in the database never goes back. */
  lemma MarkGoesAllTheWay(p: Pipe, c: Call, cfg: Config, q: Pipe)
    requires Do(p, c, cfg) == Success(q) && !c.Connect? && !(c.Process? && c.batch == [])
    ensures q.db != p.db || c.Drain? || c.now - p.lastFlush >= cfg.flushEvery ==> AllMarked(q)
    ensures q.writtenTs != p.writtenTs ==> Tight(q) && q.lastFlush == c.now
    ensures q.writtenTs == p.writtenTs ==> q.lastFlush == p.lastFlush
    ensures p.db.lastSeen.Some? ==> q.db.lastSeen.Some? && p.db.lastSeen.value <= q.db.lastSeen.value
    ensures q.maxTs == if !c.Process? then p.maxTs
                       else Some(if p.maxTs.None? then Newest(c.batch) else Max(p.maxTs.value, Newest(c.batch)))
  {
    var out, d := Handed(p, c, cfg), Prepare(p, c, cfg);
    var step := ApplyAll(p.tracker, out.groups).value;
    var ready := d.pipe.(assembler := out.state, tracker := step.tracker);
    PreparedOps(p, c, cfg);
    WriteMarks(ready, d.before + step.ops + d.after, d.now, d.force, cfg, q);
  }

  // ------------------------------------------------------------ sessions

  /** Some change of these calls, heartbeats included, has this timestamp. */
  ghost predicate Came(cs: seq<Call>, ts: int) {
    exists i, c :: 0 <= i < |cs| && cs[i].Process? && c in cs[i].batch && c.ts == ts
  }

  lemma CameCons(cs: seq<Call>, ts: int)
    requires cs != []
    ensures Came(cs, ts) <==> (cs[0].Process? && exists c :: c in cs[0].batch && c.ts == ts) || Came(cs[1..], ts)
  {
    var rest := cs[1..];
    if Came(rest, ts) {
      var i, c :| 0 <= i < |rest| && rest[i].Process? && c in rest[i].batch && c.ts == ts;
      assert cs[i + 1] == rest[i];
    }
    if Came(cs, ts) {
      var i, c :| 0 <= i < |cs| && cs[i].Process? && c in cs[i].batch && c.ts == ts;
      if i > 0 { assert rest[i - 1] == cs[i]; }
    }
  }

  /** The newest timestamp known is that of the newest change that came, or the one the session began with. */
  ghost predicate NewestOf(first: Option<int>, cs: seq<Call>, newest: Option<int>) {
    && (first.Some? ==> newest.Some? && first.value <= newest.value)
    && (forall ts :: Came(cs, ts) ==> newest.Some? && ts <= newest.value)
    && (newest.Some? ==> newest == first || Came(cs, newest.value))
  }

  lemma CallNewest(p: Pipe, c: Call, cfg: Config, q: Pipe)
    requires Do(p, c, cfg) == Success(q)
    ensures q.maxTs == if c.Process? && c.batch != []
                       then Some(if p.maxTs.None? then Newest(c.batch) else Max(p.maxTs.value, Newest(c.batch)))
                       else p.maxTs
  {
    if !c.Connect? && !(c.Process? && c.batch == []) { MarkGoesAllTheWay(p, c, cfg, q); }
  }

  lemma {:induction false} NewestIsKnown(t: Trace, cs: seq<Call>, cfg: Config, end: Trace)
    requires Session(t, cs, cfg) == Success(end)
    ensures NewestOf(t.pipe.maxTs, cs, end.pipe.maxTs)
    decreases |cs|
  {
    if cs != [] {
      var c, q := cs[0], Do(t.pipe, cs[0], cfg).value;
      CallNewest(t.pipe, c, cfg, q);
      NewestIsKnown(Trace(q, t.received + Received(c), t.handed + GroupsOf(t.pipe, c, cfg)), cs[1..], cfg, end);
      if c.Process? && c.batch != [] { BatchBounds(c.batch); }
      forall ts ensures Came(cs, ts) <==> (c.Process? && exists d :: d in c.batch && d.ts == ts) || Came(cs[1..], ts) {
        CameCons(cs, ts);
      }
    }
  }

  /** A session that ends with a drain marks everything it received: the mark is the newest timestamp that came. */
  lemma DrainMarksEverything(db: Db, now: real, cs: seq<Call>, at: real, cfg: Config, before: Trace, end: Trace)
    requires Session(Opening(db, now), cs, cfg) == Success(before)
    requires Do(before.pipe, Drain(at), cfg) == Success(end.pipe)
    ensures forall ts :: Came(cs, ts) ==> end.pipe.writtenTs.Some? && ts <= end.pipe.writtenTs.value
  {
    NewestIsKnown(Opening(db, now), cs, cfg, before);
    MarkGoesAllTheWay(before.pipe, Drain(at), cfg, end.pipe);
    assert end.pipe.assembler.pending == map[] by { CallStores(before.pipe, Drain(at), cfg); }
    forall ts | Came(cs, ts) ensures end.pipe.writtenTs.Some? && ts <= end.pipe.writtenTs.value {
      assert Safe(end.pipe, ts);
    }
  }
}
