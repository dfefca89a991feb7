/** backend/app/oee/counters.py: cumulative UInt32 counters become production deltas. */
module Counters {
  import opened Basics

  const UINT32_RANGE := 0x1_0000_0000

  datatype DeltaKind = First | Normal | Rollover | Reset

  datatype Delta = Delta(parts: int, kind: DeltaKind)

  function DeltaOf(prev: int, cur: int, window: int): Delta {
    if cur >= prev then Delta(cur - prev, Normal)
    else if prev >= UINT32_RANGE - window && cur <= window then Delta(cur + UINT32_RANGE - prev, Rollover)
    else Delta(0, Reset)
  }

  predicate IsUInt32(n: int) { 0 <= n < UINT32_RANGE }

  /** For any two counter values no delta is negative, every delta but a reset is congruent to the
      change modulo 2^32, and a rollover reveals at most twice the window. */
  lemma DeltaIsSane(prev: int, cur: int, window: int)
    requires IsUInt32(prev) && IsUInt32(cur)
    ensures var d := DeltaOf(prev, cur, window);
            && 0 <= d.parts < UINT32_RANGE
            && (d.kind != Reset ==> (prev + d.parts) % UINT32_RANGE == cur)
            && (d.kind == Reset ==> d.parts == 0 && cur < prev)
            && (d.kind == Rollover ==> d.parts <= 2 * window)
  {
    var d := DeltaOf(prev, cur, window);
    if d.kind == Rollover { assert prev + d.parts == cur + UINT32_RANGE; }
  }

  /** A counter that advanced by less than 2^32 is read exactly if and only if it did not wrap, or
      wrapped within the window on both sides. */
  lemma DeltaExact(count: nat, step: nat, window: int)
    requires step < UINT32_RANGE
    ensures var prev, cur := count % UINT32_RANGE, (count + step) % UINT32_RANGE;
            DeltaOf(prev, cur, window).parts == step
            <==> cur >= prev || (prev >= UINT32_RANGE - window && cur <= window)
  {
    WrapCases(count, step);
  }

  lemma WrapCases(count: nat, step: nat)
    requires step < UINT32_RANGE
    ensures var prev, cur := count % UINT32_RANGE, (count + step) % UINT32_RANGE;
            cur == if prev + step < UINT32_RANGE then prev + step else prev + step - UINT32_RANGE
  {
    var prev, q := count % UINT32_RANGE, count / UINT32_RANGE;
    assert count == q * UINT32_RANGE + prev;
    if prev + step < UINT32_RANGE {
      assert count + step == q * UINT32_RANGE + (prev + step);
    } else {
      assert count + step == (q + 1) * UINT32_RANGE + (prev + step - UINT32_RANGE);
    }
  }

  // ------------------------------------------------------------ a sequence of readings

  /** The parts attributed to a sequence of readings of one counter. */
  function Attributed(readings: seq<int>, window: int): int {
    if |readings| < 2 then 0
    else DeltaOf(readings[0], readings[1], window).parts + Attributed(readings[1..], window)
  }

  /** A true count, advancing by at most the window from one reading to the next. */
  ghost predicate SlowCount(counts: seq<nat>, window: int) {
    forall i :: 0 < i < |counts| ==> counts[i - 1] <= counts[i] <= counts[i - 1] + window
  }

  function Wrapped(counts: seq<nat>): seq<int> {
    if counts == [] then [] else [counts[0] % UINT32_RANGE] + Wrapped(counts[1..])
  }

  /** However many times the counter wraps, the deltas add up to exactly the true production. */
  lemma {:induction false} WrapsAreExact(counts: seq<nat>, window: int)
    requires counts != [] && window < UINT32_RANGE && SlowCount(counts, window)
    ensures Attributed(Wrapped(counts), window) == counts[|counts| - 1] as int - counts[0] as int
  {
    var readings := Wrapped(counts);
    if |counts| > 1 {
      var rest := counts[1..];
      forall i | 0 < i < |rest| ensures rest[i - 1] <= rest[i] <= rest[i - 1] + window {
        assert rest[i] == counts[i + 1] && rest[i - 1] == counts[i];
      }
      WrapsAreExact(rest, window);
      var step := counts[1] - counts[0];
      assert counts[1] == counts[0] + step;
      WrapCases(counts[0], step);
      DeltaExact(counts[0], step, window);
      assert readings[1..] == Wrapped(rest) && Wrapped(rest)[0] == counts[1] % UINT32_RANGE;
    }
  }

  // ------------------------------------------------------------ samples

  datatype Sample = Sample(ts: int, good: int, scrap: int, cycle: real)

  datatype CounterDelta = CounterDelta(ts: int, prevTs: Option<int>, good: int, scrap: int, cycle: real,
                                       kind: DeltaKind)
  {
    function Parts(): int { good + scrap }
  }

  function Severity(k: DeltaKind): int { match k case Rollover => 1 case Reset => 2 case _ => 0 }

  function Worse(a: DeltaKind, b: DeltaKind): DeltaKind { if Severity(b) > Severity(a) then b else a }

  function Between(prev: Sample, s: Sample, window: int): CounterDelta {
    var good, scrap := DeltaOf(prev.good, s.good, window), DeltaOf(prev.scrap, s.scrap, window);
    CounterDelta(s.ts, Some(prev.ts), good.parts, scrap.parts, s.cycle, Worse(good.kind, scrap.kind))
  }

  /** The deltas of samples already in timestamp order, after `prev` if there is one. */
  function DeltasAfter(prev: Option<Sample>, ordered: seq<Sample>, window: int): seq<CounterDelta>
    decreases |ordered|
  {
    if ordered == [] then []
    else
      var s := ordered[0];
      [if prev.None? then CounterDelta(s.ts, None, 0, 0, s.cycle, First) else Between(prev.value, s, window)]
      + DeltasAfter(Some(s), ordered[1..], window)
  }

  function InsertSample(s: Sample, sorted: seq<Sample>): seq<Sample> {
    if sorted == [] || s.ts <= sorted[0].ts then [s] + sorted else [sorted[0]] + InsertSample(s, sorted[1..])
  }

  /** `sorted(samples, key=ts)`, stable. */
  function InOrder(samples: seq<Sample>): seq<Sample> {
    if samples == [] then [] else InsertSample(samples[0], InOrder(samples[1..]))
  }

  function DeltasOf(samples: seq<Sample>, window: int): seq<CounterDelta> {
    DeltasAfter(None, InOrder(samples), window)
  }

  ghost predicate Chronological(samples: seq<Sample>) {
    forall i, j :: 0 <= i < j < |samples| ==> samples[i].ts < samples[j].ts
  }

  lemma {:induction false} InOrderIdle(samples: seq<Sample>)
    requires Chronological(samples)
    ensures InOrder(samples) == samples
  {
    if samples != [] {
      var rest := samples[1..];
      assert forall i :: 0 <= i < |rest| ==> rest[i] == samples[i + 1];
      InOrderIdle(rest);
      assert samples == [samples[0]] + rest;
    }
  }

  lemma {:induction false} DeltasAppend(prev: Option<Sample>, a: seq<Sample>, b: seq<Sample>, window: int)
    ensures DeltasAfter(prev, a + b, window)
            == DeltasAfter(prev, a, window) + DeltasAfter(if a == [] then prev else Some(a[|a| - 1]), b, window)
    decreases |a|
  {
    if a == [] {
      assert a + b == b;
    } else {
      assert (a + b)[0] == a[0] && (a + b)[1..] == a[1..] + b;
      DeltasAppend(Some(a[0]), a[1..], b, window);
    }
  }

  lemma {:induction false} DeltaTimes(prev: Option<Sample>, ordered: seq<Sample>, window: int)
    ensures |DeltasAfter(prev, ordered, window)| == |ordered|
    ensures forall i :: 0 <= i < |ordered| ==> DeltasAfter(prev, ordered, window)[i].ts == ordered[i].ts
    ensures forall i :: 0 <= i < |ordered| ==>
                          DeltasAfter(prev, ordered, window)[i].prevTs
                          == if i > 0 then Some(ordered[i - 1].ts) else if prev.Some? then Some(prev.value.ts) else None
    decreases |ordered|
  {
    if ordered != [] { DeltaTimes(Some(ordered[0]), ordered[1..], window); }
  }

  // ------------------------------------------------------------ what the deltas say

  /** The two counters of the cell. */
  datatype Counter = GoodCounter | ScrapCounter

  function Reading(s: Sample, which: Counter): int { if which.GoodCounter? then s.good else s.scrap }

  function Revealed(d: CounterDelta, which: Counter): int { if which.GoodCounter? then d.good else d.scrap }

  function Readings(samples: seq<Sample>, which: Counter): seq<int> {
    if samples == [] then [] else [Reading(samples[0], which)] + Readings(samples[1..], which)
  }

  function AllRevealed(deltas: seq<CounterDelta>, which: Counter): int {
    if deltas == [] then 0 else Revealed(deltas[0], which) + AllRevealed(deltas[1..], which)
  }

  lemma {:induction false} RevealedIsAttributed(prev: Sample, ordered: seq<Sample>, which: Counter, window: int)
    ensures AllRevealed(DeltasAfter(Some(prev), ordered, window), which)
            == Attributed([Reading(prev, which)] + Readings(ordered, which), window)
    decreases |ordered|
  {
    if ordered != [] {
      var s := ordered[0];
      var deltas := DeltasAfter(Some(prev), ordered, window);
      RevealedIsAttributed(s, ordered[1..], which, window);
      assert deltas[1..] == DeltasAfter(Some(s), ordered[1..], window);
      var readings := [Reading(prev, which)] + Readings(ordered, which);
      assert readings[1..] == [Reading(s, which)] + Readings(ordered[1..], which);
    }
  }

  /** The parts of one counter in all deltas are exactly what was produced between the first and last sample,
      however often the counter wraps and in whatever order the samples come. */
  lemma ProductionIsExact(samples: seq<Sample>, which: Counter, counts: seq<nat>, window: int)
    requires counts != [] && window < UINT32_RANGE && SlowCount(counts, window)
    requires Readings(InOrder(samples), which) == Wrapped(counts)
    ensures AllRevealed(DeltasOf(samples, window), which) == counts[|counts| - 1] as int - counts[0] as int
  {
    var ordered := InOrder(samples);
    WrapsAreExact(counts, window);
    assert ordered != [];
    RevealedIsAttributed(ordered[0], ordered[1..], which, window);
    var deltas := DeltasOf(samples, window);
    assert deltas[1..] == DeltasAfter(Some(ordered[0]), ordered[1..], window);
    assert Readings(ordered, which) == [Reading(ordered[0], which)] + Readings(ordered[1..], which);
  }

  /** A counter that went down: by a wrap inside the window on both sides, or else by a restart. */
  predicate RolledOver(prev: int, cur: int, window: int) {
    cur < prev && UINT32_RANGE - prev <= window && cur <= window
  }

  predicate WasReset(prev: int, cur: int, window: int) { cur < prev && !RolledOver(prev, cur, window) }

  /** What the parts of a delta mean for one counter: the modular advance, or nothing after a reset. */
  predicate Advanced(prev: int, cur: int, window: int, parts: int) {
    if WasReset(prev, cur, window) then parts == 0
    else prev + parts == if RolledOver(prev, cur, window) then cur + UINT32_RANGE else cur
  }

  /** A delta tells of its own sample: when, with which cycle, how each counter advanced since the sample
      before, and whether one of them was reset or else rolled over. */
  predicate Tells(d: CounterDelta, prev: Sample, s: Sample, window: int) {
    && d.ts == s.ts && d.cycle == s.cycle && d.prevTs == Some(prev.ts)
    && Advanced(prev.good, s.good, window, d.good) && Advanced(prev.scrap, s.scrap, window, d.scrap)
    && (d.kind.Reset? <==> WasReset(prev.good, s.good, window) || WasReset(prev.scrap, s.scrap, window))
    && (d.kind.Rollover? <==>
          !d.kind.Reset? && (RolledOver(prev.good, s.good, window) || RolledOver(prev.scrap, s.scrap, window)))
    && !d.kind.First?
  }

  lemma {:induction false} DeltasTellAfter(prev: Sample, ordered: seq<Sample>, window: int)
    ensures var ds := DeltasAfter(Some(prev), ordered, window);
            && |ds| == |ordered|
            && forall i :: 0 <= i < |ds| ==> Tells(ds[i], if i == 0 then prev else ordered[i - 1], ordered[i], window)
    decreases |ordered|
  {
    if ordered != [] {
      DeltasTellAfter(ordered[0], ordered[1..], window);
      var ds := DeltasAfter(Some(prev), ordered, window);
      assert ds[1..] == DeltasAfter(Some(ordered[0]), ordered[1..], window);
      assert Tells(ds[0], prev, ordered[0], window);
      forall i | 0 < i < |ds| ensures Tells(ds[i], ordered[i - 1], ordered[i], window) {
        assert ds[i] == ds[1..][i - 1];
      }
    }
  }

  /** One delta per sample in timestamp order: the first reveals nothing, each later one tells of its sample. */
  lemma DeltasTell(samples: seq<Sample>, window: int, ordered: seq<Sample>, ds: seq<CounterDelta>)
    requires ordered == InOrder(samples) && ds == DeltasOf(samples, window)
    ensures |ds| == |ordered|
    ensures ds != [] ==> ds[0] == CounterDelta(ordered[0].ts, None, 0, 0, ordered[0].cycle, First)
    ensures forall i :: 0 < i < |ds| ==> Tells(ds[i], ordered[i - 1], ordered[i], window)
  {
    if ordered != [] {
      DeltasTellAfter(ordered[0], ordered[1..], window);
      var rest := DeltasAfter(Some(ordered[0]), ordered[1..], window);
      assert ds[1..] == rest;
      forall i | 0 < i < |ds| ensures Tells(ds[i], ordered[i - 1], ordered[i], window) {
        assert ds[i] == rest[i - 1];
      }
    }
  }

  // ------------------------------------------------------------ the order of the samples

  ghost predicate InTime(samples: seq<Sample>) {
    forall i, j :: 0 <= i < j < |samples| ==> samples[i].ts <= samples[j].ts
  }

  /** The samples of one instant, in the order given. */
  function SamplesOf(samples: seq<Sample>, ts: int): seq<Sample> {
    if samples == [] then []
    else (if samples[0].ts == ts then [samples[0]] else []) + SamplesOf(samples[1..], ts)
  }

  lemma {:induction false} InsertKeepsAll(s: Sample, sorted: seq<Sample>)
    ensures multiset(InsertSample(s, sorted)) == multiset{s} + multiset(sorted)
    decreases |sorted|
  {
    if sorted == [] || s.ts <= sorted[0].ts {
      assert multiset([s] + sorted) == multiset{s} + multiset(sorted);
    } else {
      InsertKeepsAll(s, sorted[1..]);
      assert sorted == [sorted[0]] + sorted[1..];
    }
  }

  lemma {:induction false} InsertSorts(s: Sample, sorted: seq<Sample>)
    requires InTime(sorted)
    ensures InTime(InsertSample(s, sorted))
    decreases |sorted|
  {
    if sorted != [] && s.ts > sorted[0].ts {
      var first, rest := sorted[0], sorted[1..];
      InsertSorts(s, rest);
      InsertKeepsAll(s, rest);
      var tail := InsertSample(s, rest);
      forall j | 0 <= j < |tail| ensures first.ts <= tail[j].ts {
        assert tail[j] in multiset(tail);
        assert tail[j] == s || tail[j] in rest;
      }
    }
  }

  lemma SamplesOfCons(s: Sample, rest: seq<Sample>, ts: int)
    ensures SamplesOf([s] + rest, ts) == if s.ts == ts then [s] + SamplesOf(rest, ts) else SamplesOf(rest, ts)
  {
    assert ([s] + rest)[1..] == rest;
  }

  lemma {:induction false} InsertIsStable(s: Sample, sorted: seq<Sample>, ts: int)
    ensures SamplesOf(InsertSample(s, sorted), ts)
            == if s.ts == ts then [s] + SamplesOf(sorted, ts) else SamplesOf(sorted, ts)
    decreases |sorted|
  {
    if sorted == [] || s.ts <= sorted[0].ts {
      SamplesOfCons(s, sorted, ts);
    } else {
      var first, rest := sorted[0], sorted[1..];
      InsertIsStable(s, rest, ts);
      SamplesOfCons(first, InsertSample(s, rest), ts);
      SamplesOfCons(first, rest, ts);
      assert sorted == [first] + rest;
    }
  }

  /** The samples come in timestamp order, none lost or repeated, those of one instant as they were given. */
  lemma {:induction false} InOrderSorts(samples: seq<Sample>, ts: int)
    ensures InTime(InOrder(samples)) && multiset(InOrder(samples)) == multiset(samples)
    ensures SamplesOf(InOrder(samples), ts) == SamplesOf(samples, ts)
  {
    if samples != [] {
      var rest := InOrder(samples[1..]);
      InOrderSorts(samples[1..], ts);
      InsertSorts(samples[0], rest);
      InsertKeepsAll(samples[0], rest);
      InsertIsStable(samples[0], rest, ts);
      assert samples == [samples[0]] + samples[1..];
      SamplesOfCons(samples[0], samples[1..], ts);
    }
  }

  /** The loop of `counter_deltas`. */
  method CounterDeltas(samples: seq<Sample>, window: int) returns (out: seq<CounterDelta>)
    ensures out == DeltasOf(samples, window)
  {
    var ordered := InOrder(samples);
    out := [];
    var prev: Option<Sample> := None;
    for i := 0 to |ordered|
      invariant out + DeltasAfter(prev, ordered[i..], window) == DeltasAfter(None, ordered, window)
    {
      var s := ordered[i];
      assert ordered[i..][0] == s && ordered[i..][1..] == ordered[i + 1..];
      if prev.None? {
        out := out + [CounterDelta(s.ts, None, 0, 0, s.cycle, First)];
      } else {
        var good, scrap := DeltaOf(prev.value.good, s.good, window), DeltaOf(prev.value.scrap, s.scrap, window);
        out := out + [CounterDelta(s.ts, Some(prev.value.ts), good.parts, scrap.parts, s.cycle,
            Worse(good.kind, scrap.kind))];
      }
      prev := Some(s);
    }
  }
}
