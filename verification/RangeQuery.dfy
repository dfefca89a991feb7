/** backend/app/db/repo.py: the range query behind the OEE routes loses nothing. */
module RangeQuery {
  import opened Basics
  import opened Facts
  import opened Counters
  import opened Oee
  import opened OeeLaws

  datatype Inputs = Inputs(stops: seq<StopRecord>, samples: seq<Sample>, gaps: seq<Gap>)

  // ------------------------------------------------------------ rows in key order

  function StopsAt(stops: map<int, StopRow>, ts: seq<int>): seq<StopRecord> {
    if ts == [] then []
    else if ts[0] !in stops then StopsAt(stops, ts[1..])
    else [StopRecord(ts[0], stops[ts[0]].end, stops[ts[0]].state)] + StopsAt(stops, ts[1..])
  }

  function SampleOf(ts: int, row: CounterRow): Sample { Sample(ts, row.good, row.scrap, row.cycle) }

  function SamplesAt(counters: map<int, CounterRow>, ts: seq<int>): seq<Sample> {
    if ts == [] then []
    else (if ts[0] in counters then [SampleOf(ts[0], counters[ts[0]])] else []) + SamplesAt(counters, ts[1..])
  }

  function GapsAt(gaps: map<int, Option<int>>, ts: seq<int>): seq<Gap> {
    if ts == [] then [] else (if ts[0] in gaps then [Gap(ts[0], gaps[ts[0]])] else []) + GapsAt(gaps, ts[1..])
  }

  predicate EndsAfter(end: Option<int>, t: int) { end.Some? ==> end.value > t }

  function StopKeys(db: Db, frm: int, to: int): set<int> {
    set t | t in db.stops && t < to && EndsAfter(db.stops[t].end, frm)
  }

  function GapKeys(db: Db, horizon: int, to: int): set<int> {
    set t | t in db.gaps && t < to && EndsAfter(db.gaps[t], horizon)
  }

  function KeysBefore(db: Db, frm: int): set<int> { set t | t in db.counters && t < frm }

  function KeysWithin(db: Db, frm: int, to: int): set<int> { set t | t in db.counters && frm <= t < to }

  function KeysFrom(db: Db, to: int): set<int> { set t | t in db.counters && to <= t }

  function LeadIn(db: Db, frm: int): Option<int> { MaxOf(KeysBefore(db, frm)) }

  function Horizon(db: Db, frm: int): int { var lead := LeadIn(db, frm); if lead.Some? then lead.value else frm }

  function LeadKeys(db: Db, frm: int): seq<int> { var lead := LeadIn(db, frm); if lead.Some? then [lead.value] else [] }

  function RangeSamples(db: Db, frm: int, to: int): seq<Sample> {
    SamplesAt(db.counters, LeadKeys(db, frm) + Sorted(KeysWithin(db, frm, to)))
  }

  function RangeGaps(db: Db, frm: int, to: int): seq<Gap> { GapsAt(db.gaps, Sorted(GapKeys(db, Horizon(db, frm), to))) }

  /** `fetch_oee_inputs`: overlapping stops, samples of the range after one lead-in, gaps past it. */
  function Fetch(db: Db, frm: int, to: int): Inputs {
    Inputs(StopsAt(db.stops, Sorted(StopKeys(db, frm, to))), RangeSamples(db, frm, to), RangeGaps(db, frm, to))
  }

  function AllSamples(db: Db): seq<Sample> { SamplesAt(db.counters, Sorted(db.counters.Keys)) }

  function AllGaps(db: Db): seq<Gap> { GapsAt(db.gaps, Sorted(db.gaps.Keys)) }

  /** The whole history. */
  function FetchAll(db: Db): Inputs {
    Inputs(StopsAt(db.stops, Sorted(db.stops.Keys)), AllSamples(db), AllGaps(db))
  }

  datatype Params = Params(micro: int, window: int)

  /** `compute_oee_windows` with an explicit `until`. */
  function ComputeWindows(ws: seq<Window>, i: Inputs, p: Params, until: int): Result<seq<OeeResult>> {
    if ws == [] then Success([])
    else if !NoneProducing(i.stops) then Failure("a stop cannot be in the PRODUCING state")
    else Success(Results(ws, Classified(i.stops, until, p.micro), DeltasOf(i.samples, p.window), i.gaps))
  }

  // ------------------------------------------------------------ stops and gaps

  lemma {:induction false} CoveredAt(stops: map<int, StopRow>, ts: seq<int>, until: int, micro: int, kind: StopKind,
                                     state: int, y: int)
    requires forall t :: t in ts ==> t in stops
    ensures Covered(Classified(StopsAt(stops, ts), until, micro), kind, state, y) <==>
            exists t :: t in ts && Matches(Classify(StopRecord(t, stops[t].end, stops[t].state), until, micro), kind,
                state, y)
    decreases |ts|
  {
    if ts != [] {
      var rest := ts[1..];
      assert forall t :: t in ts <==> t == ts[0] || t in rest;
      CoveredAt(stops, rest, until, micro, kind, state, y);
      var all := Classified(StopsAt(stops, ts), until, micro);
      CoveredCons(all, kind, state, y);
      assert StopsAt(stops, ts)[1..] == StopsAt(stops, rest);
      assert all[1..] == Classified(StopsAt(stops, rest), until, micro);
    }
  }

  lemma StopsSuffice(db: Db, frm: int, to: int, until: int, micro: int, kind: StopKind, state: int, y: int)
    requires frm <= y < to
    ensures Covered(Classified(Fetch(db, frm, to).stops, until, micro), kind, state, y)
            <==> Covered(Classified(FetchAll(db).stops, until, micro), kind, state, y)
  {
    var some, all := Sorted(StopKeys(db, frm, to)), Sorted(db.stops.Keys);
    CoveredAt(db.stops, some, until, micro, kind, state, y);
    CoveredAt(db.stops, all, until, micro, kind, state, y);
    forall t | t in db.stops
               && Matches(Classify(StopRecord(t, db.stops[t].end, db.stops[t].state), until, micro), kind, state, y)
      ensures t in some
    {
      CoveringStopIsFetched(db, frm, to, until, micro, kind, state, t, y);
    }
  }

  lemma CoveringStopIsFetched(db: Db, frm: int, to: int, until: int, micro: int, kind: StopKind, state: int, t: int,
                              y: int)
    requires frm <= y < to && t in db.stops
    requires Matches(Classify(StopRecord(t, db.stops[t].end, db.stops[t].state), until, micro), kind, state, y)
    ensures t in StopKeys(db, frm, to)
  {
  }

  predicate GapCovers(g: Gap, y: int) { g.start <= y && EndsAfter(g.end, y) }

  lemma {:induction false} InGapAt(gaps: map<int, Option<int>>, ts: seq<int>, y: int)
    requires forall t :: t in ts ==> t in gaps
    ensures InGap(GapsAt(gaps, ts), y) <==> exists t :: t in ts && GapCovers(Gap(t, gaps[t]), y)
    decreases |ts|
  {
    if ts != [] {
      assert forall t :: t in ts <==> t == ts[0] || t in ts[1..];
      InGapAt(gaps, ts[1..], y);
      InGapCons(GapsAt(gaps, ts), y);
      assert GapsAt(gaps, ts)[1..] == GapsAt(gaps, ts[1..]);
    }
  }

  lemma GapKeysSuffice(db: Db, frm: int, to: int, t: int, y: int)
    requires t in db.gaps && GapCovers(Gap(t, db.gaps[t]), y) && frm <= y < to
    ensures t in GapKeys(db, Horizon(db, frm), to)
  {
    var lead := LeadIn(db, frm);
    assert lead.Some? ==> lead.value in KeysBefore(db, frm);
  }

  lemma GapsSuffice(db: Db, frm: int, to: int, y: int)
    requires frm <= y < to
    ensures InGap(RangeGaps(db, frm, to), y) <==> InGap(AllGaps(db), y)
  {
    var some, all := Sorted(GapKeys(db, Horizon(db, frm), to)), Sorted(db.gaps.Keys);
    InGapAt(db.gaps, some, y);
    InGapAt(db.gaps, all, y);
    forall t | t in all && GapCovers(Gap(t, db.gaps[t]), y) ensures t in some { GapKeysSuffice(db, frm, to, t, y); }
  }

  predicate GapTouches(g: Gap, prev: int, ts: int) { g.start < ts && EndsAfter(g.end, prev) }

  lemma {:induction false} OverlapsAt(gaps: map<int, Option<int>>, ts: seq<int>, d: CounterDelta)
    requires (forall t :: t in ts ==> t in gaps) && d.prevTs.Some?
    ensures OverlapsGap(d, GapsAt(gaps, ts))
            <==> exists t :: t in ts && GapTouches(Gap(t, gaps[t]), d.prevTs.value, d.ts)
    decreases |ts|
  {
    var list := GapsAt(gaps, ts);
    if ts != [] {
      assert forall t :: t in ts <==> t == ts[0] || t in ts[1..];
      OverlapsAt(gaps, ts[1..], d);
      var rest := GapsAt(gaps, ts[1..]);
      assert list == [Gap(ts[0], gaps[ts[0]])] + rest;
      if OverlapsGap(d, rest) {
        var i :| 0 <= i < |rest| && rest[i].start < d.ts && (rest[i].end.Some? ==> rest[i].end.value > d.prevTs.value);
        assert list[i + 1] == rest[i];
      }
      if OverlapsGap(d, list) {
        var i :| 0 <= i < |list| && list[i].start < d.ts && (list[i].end.Some? ==> list[i].end.value > d.prevTs.value);
        if i > 0 { assert rest[i - 1] == list[i]; }
      }
    }
  }

  /** A delta revealed in the range is dropped by the fetched gaps exactly when it is by all gaps. */
  lemma OverlapsSuffice(db: Db, frm: int, to: int, d: CounterDelta)
    requires d.ts < to && (d.prevTs.Some? ==> Horizon(db, frm) <= d.prevTs.value)
    ensures OverlapsGap(d, RangeGaps(db, frm, to)) <==> OverlapsGap(d, AllGaps(db))
  {
    if d.prevTs.Some? {
      var some, all := Sorted(GapKeys(db, Horizon(db, frm), to)), Sorted(db.gaps.Keys);
      OverlapsAt(db.gaps, some, d);
      OverlapsAt(db.gaps, all, d);
      forall t | t in all && GapTouches(Gap(t, db.gaps[t]), d.prevTs.value, d.ts) ensures t in some {
        TouchingGapIsFetched(db, frm, to, d, t);
      }
    }
  }

  lemma TouchingGapIsFetched(db: Db, frm: int, to: int, d: CounterDelta, t: int)
    requires d.ts < to && d.prevTs.Some? && Horizon(db, frm) <= d.prevTs.value
    requires t in db.gaps && GapTouches(Gap(t, db.gaps[t]), d.prevTs.value, d.ts)
    ensures t in GapKeys(db, Horizon(db, frm), to)
  {
  }

  // ------------------------------------------------------------ samples

  lemma {:induction false} SamplesAppend(counters: map<int, CounterRow>, a: seq<int>, b: seq<int>)
    ensures SamplesAt(counters, a + b) == SamplesAt(counters, a) + SamplesAt(counters, b)
    decreases |a|
  {
    if a == [] {
      assert a + b == b;
    } else {
      assert (a + b)[0] == a[0] && (a + b)[1..] == a[1..] + b;
      SamplesAppend(counters, a[1..], b);
    }
  }

  lemma {:induction false} SampleTimes(counters: map<int, CounterRow>, ts: seq<int>)
    requires forall t :: t in ts ==> t in counters
    ensures |SamplesAt(counters, ts)| == |ts|
    ensures forall i :: 0 <= i < |ts| ==> SamplesAt(counters, ts)[i].ts == ts[i]
    decreases |ts|
  {
    if ts != [] {
      var t := ts[0];
      assert t in ts && t in counters;
      SampleTimes(counters, ts[1..]);
    }
  }

  lemma SortedSamples(counters: map<int, CounterRow>, ts: seq<int>)
    requires (forall t :: t in ts ==> t in counters) && Increasing(ts)
    ensures InOrder(SamplesAt(counters, ts)) == SamplesAt(counters, ts)
  {
    SampleTimes(counters, ts);
    InOrderIdle(SamplesAt(counters, ts));
  }

  ghost predicate DeltasOutside(w: Window, deltas: seq<CounterDelta>) {
    forall i :: 0 <= i < |deltas| ==> !(w.start <= deltas[i].ts < w.end)
  }

  /** Deltas outside the window are worth nothing. */
  lemma {:induction false} OutsideIsNothing(w: Window, deltas: seq<CounterDelta>, worth: CounterDelta -> Parts)
    requires DeltasOutside(w, deltas)
    ensures PartsBy(w, deltas, worth) == NO_PARTS
    decreases |deltas|
  {
    if deltas != [] {
      var d, rest := deltas[0], deltas[1..];
      assert Share(w, d, worth) == NO_PARTS;
      assert forall i :: 0 <= i < |rest| ==> rest[i] == deltas[i + 1];
      OutsideIsNothing(w, rest, worth);
      PlusNothing(NO_PARTS);
    }
  }

  lemma {:induction false} WorthAgrees(w: Window, deltas: seq<CounterDelta>, f: CounterDelta -> Parts,
                                       g: CounterDelta -> Parts)
    requires forall i :: 0 <= i < |deltas| ==> f(deltas[i]) == g(deltas[i])
    ensures PartsBy(w, deltas, f) == PartsBy(w, deltas, g)
    decreases |deltas|
  {
    if deltas != [] { WorthAgrees(w, deltas[1..], f, g); }
  }

  ghost predicate TimesOutside(w: Window, samples: seq<Sample>) {
    forall i :: 0 <= i < |samples| ==> !(w.start <= samples[i].ts < w.end)
  }

  function LastOf(samples: seq<Sample>): Option<Sample> { if samples == [] then None else Some(samples[|samples| - 1]) }

  lemma OutsideDeltas(w: Window, prev: Option<Sample>, samples: seq<Sample>, n: int)
    requires TimesOutside(w, samples)
    ensures DeltasOutside(w, DeltasAfter(prev, samples, n))
  {
    DeltaTimes(prev, samples, n);
  }

  /** Around the samples of the window, what comes before and after adds no part. */
  lemma OnlyMiddleCounts(w: Window, pre: seq<Sample>, mid: seq<Sample>, post: seq<Sample>, n: int,
                         worth: CounterDelta -> Parts)
    requires TimesOutside(w, pre) && TimesOutside(w, post)
    ensures PartsBy(w, DeltasAfter(None, pre + mid + post, n), worth)
            == PartsBy(w, DeltasAfter(LastOf(pre), mid, n), worth)
  {
    DeltasAppend(None, pre + mid, post, n);
    DeltasAppend(None, pre, mid, n);
    var a, b, c := DeltasAfter(None, pre, n), DeltasAfter(LastOf(pre), mid, n), DeltasAfter(LastOf(pre + mid), post, n);
    OutsideDeltas(w, None, pre, n);
    OutsideDeltas(w, LastOf(pre + mid), post, n);
    OutsideIsNothing(w, a, worth);
    OutsideIsNothing(w, c, worth);
    PartsAppend(w, a + b, c, worth);
    PartsAppend(w, a, b, worth);
    PlusNothing(PartsBy(w, b, worth));
  }

  lemma MaxIsLast(s: set<int>)
    ensures MaxOf(s) == if Sorted(s) == [] then None else Some(Sorted(s)[|s| - 1])
  {
    var r := Sorted(s);
    if r != [] {
      assert r[|r| - 1] in r;
      forall t | t in s ensures t <= r[|r| - 1] {
        assert t in r;
        var i :| 0 <= i < |r| && r[i] == t;
      }
    }
  }

  ghost predicate KeysOf(counters: map<int, CounterRow>, ts: seq<int>) { forall t :: t in ts ==> t in counters }

  lemma SamplesOne(counters: map<int, CounterRow>, t: int)
    requires t in counters
    ensures SamplesAt(counters, [t]) == [SampleOf(t, counters[t])]
  {
    assert [t][1..] == [];
    assert SamplesAt(counters, []) == [];
  }

  lemma LeadIsKey(db: Db, frm: int)
    ensures var kb := Sorted(KeysBefore(db, frm));
            LeadKeys(db, frm) == if kb == [] then [] else [kb[|kb| - 1]]
    ensures forall t :: t in LeadKeys(db, frm) ==> t in db.counters && t < frm
  {
    MaxIsLast(KeysBefore(db, frm));
    var lead := LeadIn(db, frm);
    if lead.Some? { assert lead.value in KeysBefore(db, frm); }
  }

  lemma LastOfKeys(counters: map<int, CounterRow>, kb: seq<int>)
    requires forall t :: t in kb ==> t in counters
    ensures LastOf(SamplesAt(counters, kb))
            == if kb == [] then None else LastOf(SamplesAt(counters, [kb[|kb| - 1]]))
  {
    if kb != [] {
      var front, x := kb[..|kb| - 1], kb[|kb| - 1];
      assert kb == front + [x];
      assert x in kb;
      SamplesAppend(counters, front, [x]);
      SamplesOne(counters, x);
    }
  }

  /** The lead-in is the last sample before the range. */
  lemma LeadIsLast(db: Db, frm: int)
    ensures LastOf(SamplesAt(db.counters, LeadKeys(db, frm)))
            == LastOf(SamplesAt(db.counters, Sorted(KeysBefore(db, frm))))
  {
    LeadIsKey(db, frm);
    LastOfKeys(db.counters, Sorted(KeysBefore(db, frm)));
  }

  lemma SplitKeys(db: Db, frm: int, to: int)
    requires frm <= to
    ensures Sorted(db.counters.Keys)
            == Sorted(KeysBefore(db, frm)) + Sorted(KeysWithin(db, frm, to)) + Sorted(KeysFrom(db, to))
  {
    var a, b, c := KeysBefore(db, frm), KeysWithin(db, frm, to), KeysFrom(db, to);
    assert db.counters.Keys == (a + b) + c;
    SortedSplits(a, b);
    SortedSplits(a + b, c);
  }

  lemma KeysOutside(counters: map<int, CounterRow>, ts: seq<int>, w: Window)
    requires KeysOf(counters, ts) && forall t :: t in ts ==> !(w.start <= t < w.end)
    ensures TimesOutside(w, SamplesAt(counters, ts))
  {
    SampleTimes(counters, ts);
    forall i | 0 <= i < |ts| ensures !(w.start <= ts[i] < w.end) { assert ts[i] in ts; }
  }

  /** The samples of the range, and the one before them. */
  function Mid(db: Db, frm: int, to: int): seq<Sample> { SamplesAt(db.counters, Sorted(KeysWithin(db, frm, to))) }

  function LastSample(db: Db, frm: int): Option<Sample> { LastOf(SamplesAt(db.counters, Sorted(KeysBefore(db, frm)))) }

  lemma LeadBeforeRange(kl: seq<int>, kw: seq<int>, frm: int)
    requires Increasing(kl) && Increasing(kw)
    requires (forall t :: t in kl ==> t < frm) && (forall t :: t in kw ==> frm <= t)
    ensures Increasing(kl + kw)
  {
    var keys := kl + kw;
    forall i, j | 0 <= i < j < |keys| ensures keys[i] < keys[j] {
      if i < |kl| <= j {
        var t, u := kl[i], kw[j - |kl|];
        assert t in kl && u in kw;
      }
    }
  }

  lemma RangeOrder(db: Db, frm: int, to: int)
    ensures InOrder(RangeSamples(db, frm, to)) == SamplesAt(db.counters, LeadKeys(db, frm)) + Mid(db, frm, to)
  {
    var kl, kw := LeadKeys(db, frm), Sorted(KeysWithin(db, frm, to));
    LeadIsKey(db, frm);
    assert forall t :: t in kw ==> t in KeysWithin(db, frm, to);
    LeadBeforeRange(kl, kw, frm);
    SortedSamples(db.counters, kl + kw);
    SamplesAppend(db.counters, kl, kw);
  }

  lemma RangeParts(db: Db, frm: int, to: int, w: Window, n: int, worth: CounterDelta -> Parts)
    requires frm <= w.start <= w.end <= to
    ensures PartsBy(w, DeltasOf(RangeSamples(db, frm, to), n), worth)
            == PartsBy(w, DeltasAfter(LastSample(db, frm), Mid(db, frm, to), n), worth)
  {
    LeadIsKey(db, frm);
    LeadIsLast(db, frm);
    RangeOrder(db, frm, to);
    KeysOutside(db.counters, LeadKeys(db, frm), w);
    var one, mid := SamplesAt(db.counters, LeadKeys(db, frm)), Mid(db, frm, to);
    OnlyMiddleCounts(w, one, mid, [], n, worth);
    assert one + mid + [] == one + mid;
  }

  lemma AllParts(db: Db, frm: int, to: int, w: Window, n: int, worth: CounterDelta -> Parts)
    requires frm <= w.start <= w.end <= to
    ensures PartsBy(w, DeltasOf(AllSamples(db), n), worth)
            == PartsBy(w, DeltasAfter(LastSample(db, frm), Mid(db, frm, to), n), worth)
  {
    var kb, kw, ka := Sorted(KeysBefore(db, frm)), Sorted(KeysWithin(db, frm, to)), Sorted(KeysFrom(db, to));
    SplitKeys(db, frm, to);
    SortedSamples(db.counters, Sorted(db.counters.Keys));
    assert forall t :: t in kb ==> t in KeysBefore(db, frm);
    assert forall t :: t in kw ==> t in KeysWithin(db, frm, to);
    assert forall t :: t in ka ==> t in KeysFrom(db, to);
    SamplesAppend(db.counters, kb + kw, ka);
    SamplesAppend(db.counters, kb, kw);
    KeysOutside(db.counters, kb, w);
    KeysOutside(db.counters, ka, w);
    OnlyMiddleCounts(w, SamplesAt(db.counters, kb), Mid(db, frm, to), SamplesAt(db.counters, ka), n, worth);
  }

  lemma LastSampleTime(db: Db, frm: int)
    ensures LastSample(db, frm).Some? ==> LastSample(db, frm).value.ts == Horizon(db, frm)
    ensures Horizon(db, frm) <= frm
  {
    LeadIsKey(db, frm);
    LeadIsLast(db, frm);
    if LeadIn(db, frm).Some? {
      var t := LeadIn(db, frm).value;
      assert LeadKeys(db, frm) == [t] && t in LeadKeys(db, frm);
      SamplesOne(db.counters, t);
    }
  }

  /** Every delta of the range looks back no further than the horizon of the fetched gaps. */
  lemma MidDeltas(db: Db, frm: int, to: int, n: int, i: nat)
    requires i < |DeltasAfter(LastSample(db, frm), Mid(db, frm, to), n)|
    ensures var d := DeltasAfter(LastSample(db, frm), Mid(db, frm, to), n)[i];
            d.ts < to && (d.prevTs.Some? ==> Horizon(db, frm) <= d.prevTs.value)
  {
    var kw, mid := Sorted(KeysWithin(db, frm, to)), Mid(db, frm, to);
    assert forall t :: t in kw ==> t in KeysWithin(db, frm, to);
    SampleTimes(db.counters, kw);
    DeltaTimes(LastSample(db, frm), mid, n);
    LastSampleTime(db, frm);
    var t := kw[i];
    assert t in kw && mid[i].ts == t;
    if i > 0 {
      var u := kw[i - 1];
      assert u in kw && mid[i - 1].ts == u;
    }
  }

  lemma PartsSuffice(db: Db, frm: int, to: int, w: Window, n: int)
    requires frm <= w.start <= w.end <= to
    ensures PartsIn(w, DeltasOf(RangeSamples(db, frm, to), n), RangeGaps(db, frm, to))
            == PartsIn(w, DeltasOf(AllSamples(db), n), AllGaps(db))
  {
    var f, g := Valuation(RangeGaps(db, frm, to)), Valuation(AllGaps(db));
    RangeParts(db, frm, to, w, n, f);
    AllParts(db, frm, to, w, n, g);
    var deltas := DeltasAfter(LastSample(db, frm), Mid(db, frm, to), n);
    forall i | 0 <= i < |deltas| ensures f(deltas[i]) == g(deltas[i]) {
      MidDeltas(db, frm, to, n, i);
      OverlapsSuffice(db, frm, to, deltas[i]);
    }
    WorthAgrees(w, deltas, f, g);
  }

  // ------------------------------------------------------------ the theorem

  ghost predicate SameCategories(w: Window, s: seq<ClassifiedStop>, g: seq<Gap>, t: seq<ClassifiedStop>, h: seq<Gap>) {
    forall y :: w.start <= y < w.end ==>
                  CategoryOf(s, g, y) == CategoryOf(t, h, y) && (Covered(s, Micro, 0, y) <==> Covered(t, Micro, 0, y))
  }

  lemma SameTallies(w: Window, s: seq<ClassifiedStop>, g: seq<Gap>, t: seq<ClassifiedStop>, h: seq<Gap>, c: Category)
    requires SameCategories(w, s, g, t, h)
    ensures Tally(w.start, w.end, s, g)(c) == Tally(w.start, w.end, t, h)(c)
    ensures MicroInstants(w.start, w.end, s, g) == MicroInstants(w.start, w.end, t, h)
  {
    assert Instants(w.start, w.end, s, g, c) == Instants(w.start, w.end, t, h, c);
  }

  lemma SameBooks(n: int, f: Category -> int, g: Category -> int, micro: int, p: Parts)
    requires forall c :: f(c) == g(c)
    ensures Booked(n, f, micro, p) == Booked(n, g, micro, p)
  {
  }

  lemma SameAccount(w: Window, s: seq<ClassifiedStop>, d: seq<CounterDelta>, g: seq<Gap>,
                    t: seq<ClassifiedStop>, e: seq<CounterDelta>, h: seq<Gap>)
    requires SameCategories(w, s, g, t, h) && PartsIn(w, d, g) == PartsIn(w, e, h)
    ensures AccountOf(w, s, d, g) == AccountOf(w, t, e, h)
  {
    forall c ensures Tally(w.start, w.end, s, g)(c) == Tally(w.start, w.end, t, h)(c) { SameTallies(w, s, g, t, h, c); }
    SameTallies(w, s, g, t, h, Operating);
    SameBooks(w.Length(), Tally(w.start, w.end, s, g), Tally(w.start, w.end, t, h),
              |MicroInstants(w.start, w.end, s, g)|, PartsIn(w, d, g));
  }

  lemma CategoriesSuffice(db: Db, frm: int, to: int, w: Window, until: int, micro: int)
    requires frm <= w.start <= w.end <= to
    ensures SameCategories(w, Classified(Fetch(db, frm, to).stops, until, micro), Fetch(db, frm, to).gaps,
                           Classified(FetchAll(db).stops, until, micro), FetchAll(db).gaps)
  {
    forall y | w.start <= y < w.end
      ensures CategoryOf(Classified(Fetch(db, frm, to).stops, until, micro), Fetch(db, frm, to).gaps, y)
              == CategoryOf(Classified(FetchAll(db).stops, until, micro), FetchAll(db).gaps, y)
      ensures Covered(Classified(Fetch(db, frm, to).stops, until, micro), Micro, 0, y)
              <==> Covered(Classified(FetchAll(db).stops, until, micro), Micro, 0, y)
    {
      GapsSuffice(db, frm, to, y);
      StopsSuffice(db, frm, to, until, micro, Planned, 0, y);
      StopsSuffice(db, frm, to, until, micro, Micro, 0, y);
      StopsSuffice(db, frm, to, until, micro, Loss, FAULT, y);
      StopsSuffice(db, frm, to, until, micro, Loss, SETUP, y);
      StopsSuffice(db, frm, to, until, micro, Loss, STARVED, y);
      StopsSuffice(db, frm, to, until, micro, Loss, BLOCKED, y);
      StopsSuffice(db, frm, to, until, micro, Loss, MANUAL, y);
    }
  }

  lemma {:induction false} ResultsSuffice(db: Db, frm: int, to: int, ws: seq<Window>, p: Params, until: int)
    requires forall i :: 0 <= i < |ws| ==> frm <= ws[i].start <= ws[i].end <= to
    ensures var some, all := Fetch(db, frm, to), FetchAll(db);
            Results(ws, Classified(some.stops, until, p.micro), DeltasOf(some.samples, p.window), some.gaps)
            == Results(ws, Classified(all.stops, until, p.micro), DeltasOf(all.samples, p.window), all.gaps)
    decreases |ws|
  {
    if ws != [] {
      var some, all := Fetch(db, frm, to), FetchAll(db);
      CategoriesSuffice(db, frm, to, ws[0], until, p.micro);
      PartsSuffice(db, frm, to, ws[0], p.window);
      SameAccount(ws[0], Classified(some.stops, until, p.micro), DeltasOf(some.samples, p.window), some.gaps,
                  Classified(all.stops, until, p.micro), DeltasOf(all.samples, p.window), all.gaps);
      ResultsSuffice(db, frm, to, ws[1..], p, until);
    }
  }

  lemma {:induction false} StoredStates(stops: map<int, StopRow>, ts: seq<int>)
    requires forall t :: t in ts ==> t in stops && stops[t].state != PRODUCING
    ensures NoneProducing(StopsAt(stops, ts))
    decreases |ts|
  {
    if ts != [] { StoredStates(stops, ts[1..]); }
  }

  lemma {:induction false} OneResultEach(ws: seq<Window>, stops: seq<ClassifiedStop>, deltas: seq<CounterDelta>,
                                         gaps: seq<Gap>)
    ensures var rs := Results(ws, stops, deltas, gaps);
            |rs| == |ws| && forall i :: 0 <= i < |ws| ==> rs[i] == OeeOf(ws[i], stops, deltas, gaps)
    decreases |ws|
  {
    if ws != [] { OneResultEach(ws[1..], stops, deltas, gaps); }
  }

  /** Any windows inside the range: the fetched facts give the same results as the whole history. */
  lemma RangeQueryIsLossless(db: Db, frm: int, to: int, ws: seq<Window>, p: Params, until: int)
    requires forall t :: t in db.stops ==> db.stops[t].state != PRODUCING
    requires forall i :: 0 <= i < |ws| ==> frm <= ws[i].start <= ws[i].end <= to
    ensures ComputeWindows(ws, Fetch(db, frm, to), p, until) == ComputeWindows(ws, FetchAll(db), p, until)
    ensures var all, rs := FetchAll(db), ComputeWindows(ws, Fetch(db, frm, to), p, until);
            && rs.Success? && |rs.value| == |ws|
            && forall i :: 0 <= i < |ws| ==>
                 rs.value[i] == OeeOf(ws[i], Classified(all.stops, until, p.micro), DeltasOf(all.samples, p.window),
                                      all.gaps)
  {
    if ws != [] {
      StoredStates(db.stops, Sorted(StopKeys(db, frm, to)));
      StoredStates(db.stops, Sorted(db.stops.Keys));
      ResultsSuffice(db, frm, to, ws, p, until);
      var all := FetchAll(db);
      OneResultEach(ws, Classified(all.stops, until, p.micro), DeltasOf(all.samples, p.window), all.gaps);
    }
  }
}
