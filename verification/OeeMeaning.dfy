/** What every field of an OEE result means, said of stops, gaps and deltas directly: instants for the times,
    the deltas of the window for the parts (backend/app/oee/compute.py:1-13 restates NF E60-182 this way). */
module OeeMeaning {
  import opened Basics
  import opened Facts
  import opened Intervals
  import opened Counters
  import opened Oee
  import opened OeeLaws

  // ------------------------------------------------------------ times

  /** The instant is observed, outside planned stops and outside the losses that come before state k. */
  ghost predicate Free(stops: seq<ClassifiedStop>, gaps: seq<Gap>, k: int, y: int) {
    && !InGap(gaps, y) && !Covered(stops, Planned, 0, y)
    && forall j :: FAULT <= j < k ==> !Covered(stops, Loss, j, y)
  }

  /** The cell runs: observed, and neither a planned stop nor a loss. */
  ghost predicate Runs(stops: seq<ClassifiedStop>, gaps: seq<Gap>, y: int) { Free(stops, gaps, MANUAL + 1, y) }

  ghost function LostTo(w: Window, stops: seq<ClassifiedStop>, gaps: seq<Gap>, k: int): set<int> {
    set y | w.start <= y < w.end && Free(stops, gaps, k, y) && Covered(stops, Loss, k, y)
  }

  ghost function Running(w: Window, stops: seq<ClassifiedStop>, gaps: seq<Gap>): set<int> {
    set y | w.start <= y < w.end && Runs(stops, gaps, y)
  }

  ghost function RunningInMicro(w: Window, stops: seq<ClassifiedStop>, gaps: seq<Gap>): set<int> {
    set y | w.start <= y < w.end && Runs(stops, gaps, y) && Covered(stops, Micro, 0, y)
  }

  lemma FreeByCategory(stops: seq<ClassifiedStop>, gaps: seq<Gap>, k: int, y: int)
    requires FAULT <= k <= MANUAL + 1
    ensures Free(stops, gaps, k, y) <==> Rank(CategoryOf(stops, gaps, y)) >= k
    ensures k <= MANUAL && Free(stops, gaps, k, y) ==>
              (Covered(stops, Loss, k, y) <==> CategoryOf(stops, gaps, y) == LossIn(k))
  {
    forall j | FAULT <= j < k && Rank(CategoryOf(stops, gaps, y)) >= k ensures !Covered(stops, Loss, j, y) {}
  }

  lemma LostInstants(w: Window, stops: seq<ClassifiedStop>, gaps: seq<Gap>, k: int)
    requires FAULT <= k <= MANUAL
    ensures Instants(w.start, w.end, stops, gaps, LossIn(k)) == LostTo(w, stops, gaps, k)
  {
    forall y ensures y in Instants(w.start, w.end, stops, gaps, LossIn(k)) <==> y in LostTo(w, stops, gaps, k) {
      FreeByCategory(stops, gaps, k, y);
    }
  }

  lemma RunningInstants(w: Window, stops: seq<ClassifiedStop>, gaps: seq<Gap>)
    ensures Instants(w.start, w.end, stops, gaps, Operating) == Running(w, stops, gaps)
    ensures MicroInstants(w.start, w.end, stops, gaps) == RunningInMicro(w, stops, gaps)
  {
    forall y ensures CategoryOf(stops, gaps, y) == Operating <==> Runs(stops, gaps, y) {
      FreeByCategory(stops, gaps, MANUAL + 1, y);
    }
  }

  /** Each time of the account is the measure of its own instants: of a loss, those it covers that are observed,
      outside planned stops and not lost to an earlier one in the order fault, setup, starved, blocked, manual. */
  lemma TimesAreInstants(w: Window, stops: seq<ClassifiedStop>, deltas: seq<CounterDelta>, gaps: seq<Gap>, a: Account)
    requires a == AccountOf(w, stops, deltas, gaps)
    ensures a.gap == |Shut(w, gaps)| && a.plannedStop == |Hit(w, stops, gaps, Planned, 0)|
    ensures a.fault == |LostTo(w, stops, gaps, FAULT)| && a.setup == |LostTo(w, stops, gaps, SETUP)|
    ensures a.starved == |LostTo(w, stops, gaps, STARVED)| && a.blocked == |LostTo(w, stops, gaps, BLOCKED)|
    ensures a.manual == |LostTo(w, stops, gaps, MANUAL)|
    ensures a.operating == |Running(w, stops, gaps)| && a.micro == |RunningInMicro(w, stops, gaps)|
    ensures a.opening == w.Length() - a.gap && a.planned == a.opening - a.plannedStop
  {
    AccountsByPriority(w, stops, gaps);
    LostInstants(w, stops, gaps, FAULT);
    LostInstants(w, stops, gaps, SETUP);
    LostInstants(w, stops, gaps, STARVED);
    LostInstants(w, stops, gaps, BLOCKED);
    LostInstants(w, stops, gaps, MANUAL);
    RunningInstants(w, stops, gaps);
  }

  /** A stop is classified on its whole duration, wherever the window cuts it: planned by its state alone, micro
      when it lasts fewer instants than the threshold, a loss otherwise. An open one lasts until `until`. */
  lemma KindsByDuration(s: StopRecord, until: int, micro: int, c: ClassifiedStop)
    requires c == Classify(s, until, micro) && (s.end.Some? ==> s.start <= s.end.value)
    ensures c.start == s.start && c.state == s.state
    ensures forall y :: y in Range(c.start, c.end) <==>
                          s.start <= y && (if s.end.Some? then y < s.end.value else y < until)
    ensures c.kind == Planned <==> s.state == PLANNED_STOP
    ensures c.kind == Micro <==> s.state != PLANNED_STOP && |Range(c.start, c.end)| < micro
    ensures c.kind == Loss <==> s.state != PLANNED_STOP && |Range(c.start, c.end)| >= micro
  {
    RangeSize(c.start, c.end);
  }

  // ------------------------------------------------------------ parts

  /** Some instant since the previous sample is in a gap: what was made meanwhile was not observed. */
  ghost predicate Unseen(d: CounterDelta, gaps: seq<Gap>) {
    d.prevTs.Some? && exists y :: d.prevTs.value <= y < d.ts && InGap(gaps, y)
  }

  /** Gaps are not empty, and samples are at distinct times. */
  ghost predicate Proper(deltas: seq<CounterDelta>, gaps: seq<Gap>) {
    && (forall i :: 0 <= i < |gaps| && gaps[i].end.Some? ==> gaps[i].start < gaps[i].end.value)
    && (forall i :: 0 <= i < |deltas| && deltas[i].prevTs.Some? ==> deltas[i].prevTs.value < deltas[i].ts)
  }

  /** Whatever the gaps and samples, nothing unseen passes for observed; and where gaps and intervals between
      samples are not empty, nothing else is dropped. */
  lemma UnseenIsDropped(d: CounterDelta, gaps: seq<Gap>)
    ensures Unseen(d, gaps) ==> OverlapsGap(d, gaps)
    ensures Proper([d], gaps) ==> (Unseen(d, gaps) <==> OverlapsGap(d, gaps))
  {
    if d.prevTs.Some? {
      var prev := d.prevTs.value;
      if y :| prev <= y < d.ts && InGap(gaps, y) {
        var i :| 0 <= i < |gaps| && gaps[i].start <= y && (gaps[i].end.Some? ==> y < gaps[i].end.value);
        assert gaps[i].start < d.ts;
      }
      if Proper([d], gaps) && OverlapsGap(d, gaps) {
        assert [d][0] == d;
        var i :| 0 <= i < |gaps| && gaps[i].start < d.ts && (gaps[i].end.Some? ==> gaps[i].end.value > prev);
        var y := Max(gaps[i].start, prev);
        assert gaps[i].start <= y && (gaps[i].end.Some? ==> y < gaps[i].end.value);
        assert InGap(gaps, y);
      }
    }
  }

  /** The deltas of the window that were seen, and those that were not. */
  ghost function Picked(w: Window, deltas: seq<CounterDelta>, gaps: seq<Gap>, seen: bool): seq<CounterDelta> {
    if deltas == [] then []
    else
      (if w.start <= deltas[0].ts < w.end && (Unseen(deltas[0], gaps) <==> !seen) then [deltas[0]] else [])
      + Picked(w, deltas[1..], gaps, seen)
  }

  /** Theoretical time of the parts of one counter: each at the cycle time in force when it was made. */
  function TimeOf(deltas: seq<CounterDelta>, which: Counter): real {
    if deltas == [] then 0.0
    else Revealed(deltas[0], which) as real * deltas[0].cycle + TimeOf(deltas[1..], which)
  }

  lemma FirstCounts(d: CounterDelta, rest: seq<CounterDelta>, which: Counter)
    ensures AllRevealed([d] + rest, which) == Revealed(d, which) + AllRevealed(rest, which)
    ensures TimeOf([d] + rest, which) == Revealed(d, which) as real * d.cycle + TimeOf(rest, which)
  {
    assert ([d] + rest)[1..] == rest;
  }

  /** What a list of deltas seen and one of deltas not seen come to. */
  ghost predicate Comes(p: Parts, seen: seq<CounterDelta>, unseen: seq<CounterDelta>) {
    && p.good == AllRevealed(seen, GoodCounter) && p.scrap == AllRevealed(seen, ScrapCounter)
    && p.dropped == AllRevealed(unseen, GoodCounter) + AllRevealed(unseen, ScrapCounter)
    && p.goodTct == TimeOf(seen, GoodCounter) && p.totalTct - p.goodTct == TimeOf(seen, ScrapCounter)
  }

  lemma SeenComes(d: CounterDelta, gaps: seq<Gap>, p: Parts, seen: seq<CounterDelta>, unseen: seq<CounterDelta>)
    requires Comes(p, seen, unseen) && !OverlapsGap(d, gaps)
    ensures Comes(Worth(d, gaps).Plus(p), [d] + seen, unseen)
  {
    FirstCounts(d, seen, GoodCounter);
    FirstCounts(d, seen, ScrapCounter);
    assert d.Parts() as real * d.cycle == d.good as real * d.cycle + d.scrap as real * d.cycle;
  }

  lemma UnseenComes(d: CounterDelta, gaps: seq<Gap>, p: Parts, seen: seq<CounterDelta>, unseen: seq<CounterDelta>)
    requires Comes(p, seen, unseen) && OverlapsGap(d, gaps)
    ensures Comes(Worth(d, gaps).Plus(p), seen, [d] + unseen)
  {
    FirstCounts(d, unseen, GoodCounter);
    FirstCounts(d, unseen, ScrapCounter);
  }

  lemma ProperTail(deltas: seq<CounterDelta>, gaps: seq<Gap>)
    requires deltas != [] && Proper(deltas, gaps)
    ensures Proper([deltas[0]], gaps) && Proper(deltas[1..], gaps)
  {
  }

  /** The parts of a window: good and scrap of the deltas that were seen, both of those that were not; useful time
      is that of the good parts, and net time exceeds it by the time of the scrapped ones. */
  lemma {:induction false} PartsAreThoseSeen(w: Window, deltas: seq<CounterDelta>, gaps: seq<Gap>)
    requires Proper(deltas, gaps)
    ensures Comes(PartsIn(w, deltas, gaps), Picked(w, deltas, gaps, true), Picked(w, deltas, gaps, false))
    decreases |deltas|
  {
    if deltas != [] {
      var rest := deltas[1..];
      ProperTail(deltas, gaps);
      PartsAreThoseSeen(w, rest, gaps);
      OneMoreSeen(w, deltas, gaps, PartsIn(w, rest, gaps), Picked(w, rest, gaps, true), Picked(w, rest, gaps, false));
      assert PartsIn(w, deltas, gaps) == Share(w, deltas[0], Valuation(gaps)).Plus(PartsIn(w, rest, gaps));
    }
  }

  lemma PickedFirst(w: Window, deltas: seq<CounterDelta>, gaps: seq<Gap>, seen: bool, rest: seq<CounterDelta>)
    requires deltas != [] && rest == Picked(w, deltas[1..], gaps, seen)
    ensures Picked(w, deltas, gaps, seen)
            == if w.start <= deltas[0].ts < w.end && (Unseen(deltas[0], gaps) <==> !seen) then [deltas[0]] + rest
               else rest
  {
    assert [] + rest == rest;
  }

  lemma OneMoreSeen(w: Window, deltas: seq<CounterDelta>, gaps: seq<Gap>, p: Parts, seen: seq<CounterDelta>,
                    unseen: seq<CounterDelta>)
    requires deltas != [] && Proper([deltas[0]], gaps) && Comes(p, seen, unseen)
    requires seen == Picked(w, deltas[1..], gaps, true) && unseen == Picked(w, deltas[1..], gaps, false)
    ensures Comes(Share(w, deltas[0], Valuation(gaps)).Plus(p), Picked(w, deltas, gaps, true),
                  Picked(w, deltas, gaps, false))
  {
    var d := deltas[0];
    UnseenIsDropped(d, gaps);
    PickedFirst(w, deltas, gaps, true, seen);
    PickedFirst(w, deltas, gaps, false, unseen);
    if !(w.start <= d.ts < w.end) {
      PlusNothing(p);
    } else if OverlapsGap(d, gaps) {
      UnseenComes(d, gaps, p, seen, unseen);
    } else {
      SeenComes(d, gaps, p, seen, unseen);
    }
  }

  // ------------------------------------------------------------ one cycle time

  lemma {:induction false} TimeAtOneCycle(deltas: seq<CounterDelta>, which: Counter, c: real)
    requires forall i :: 0 <= i < |deltas| ==> deltas[i].cycle == c
    ensures TimeOf(deltas, which) == AllRevealed(deltas, which) as real * c
    decreases |deltas|
  {
    if deltas != [] {
      TimeAtOneCycle(deltas[1..], which, c);
      Distributes(Revealed(deltas[0], which), AllRevealed(deltas[1..], which), c);
    }
  }

  lemma Distributes(a: int, b: int, c: real)
    ensures (a + b) as real * c == a as real * c + b as real * c
  {
  }

  /** Times of good and of all parts, at one cycle time. */
  predicate AtOneCycle(good: int, scrap: int, goodTct: real, totalTct: real, c: real) {
    goodTct == good as real * c && totalTct == (good + scrap) as real * c
  }

  lemma BookedParts(w: Window, stops: seq<ClassifiedStop>, deltas: seq<CounterDelta>, gaps: seq<Gap>, a: Account,
                    p: Parts)
    requires a == AccountOf(w, stops, deltas, gaps) && p == PartsIn(w, deltas, gaps)
    ensures a.good == p.good && a.scrap == p.scrap && a.dropped == p.dropped
    ensures a.goodTct == p.goodTct && a.totalTct == p.totalTct
  {
  }

  /** With one cycle time in force, useful time is good parts times the cycle, net time is all parts times the
      cycle, and quality is the share of good parts. */
  lemma QualityIsGoodShare(w: Window, stops: seq<ClassifiedStop>, deltas: seq<CounterDelta>, gaps: seq<Gap>, c: real,
                           a: Account, q: Ratios)
    requires Proper(deltas, gaps) && a == AccountOf(w, stops, deltas, gaps)
    requires q == RatiosOf(a.planned, a.operating, a.goodTct, a.totalTct)
    requires forall d :: d in Picked(w, deltas, gaps, true) ==> d.cycle == c
    ensures AtOneCycle(a.good, a.scrap, a.goodTct, a.totalTct, c)
    ensures a.planned > 0 && a.good + a.scrap > 0 && c > 0.0 ==>
              q.quality == Some(a.good as real / (a.good + a.scrap) as real)
  {
    var p := PartsIn(w, deltas, gaps);
    PartsAreThoseSeen(w, deltas, gaps);
    OneCycleParts(p, Picked(w, deltas, gaps, true), Picked(w, deltas, gaps, false), c);
    BookedParts(w, stops, deltas, gaps, a, p);
    SameCycle(p, a, c);
    QualityShare(a, c, q);
  }

  lemma SameCycle(p: Parts, a: Account, c: real)
    requires AtOneCycle(p.good, p.scrap, p.goodTct, p.totalTct, c)
    requires a.good == p.good && a.scrap == p.scrap && a.goodTct == p.goodTct && a.totalTct == p.totalTct
    ensures AtOneCycle(a.good, a.scrap, a.goodTct, a.totalTct, c)
  {
  }

  lemma OneCycleParts(p: Parts, seen: seq<CounterDelta>, unseen: seq<CounterDelta>, c: real)
    requires Comes(p, seen, unseen) && forall d :: d in seen ==> d.cycle == c
    ensures AtOneCycle(p.good, p.scrap, p.goodTct, p.totalTct, c)
  {
    TimeAtOneCycle(seen, GoodCounter, c);
    TimeAtOneCycle(seen, ScrapCounter, c);
    Distributes(p.good, p.scrap, c);
  }

  lemma QualityShare(a: Account, c: real, q: Ratios)
    requires q == RatiosOf(a.planned, a.operating, a.goodTct, a.totalTct)
    requires AtOneCycle(a.good, a.scrap, a.goodTct, a.totalTct, c)
    ensures a.planned > 0 && a.good + a.scrap > 0 && c > 0.0 ==>
              q.quality == Some(a.good as real / (a.good + a.scrap) as real)
  {
    var made, good := (a.good + a.scrap) as real, a.good as real;
    if a.planned > 0 && made > 0.0 && c > 0.0 {
      ShareOfProduct(good, made, c);
      assert a.totalTct == made * c && a.goodTct == good * c;
      assert q.quality == Some(a.goodTct / a.totalTct);
    }
  }

  lemma ShareOfProduct(a: real, b: real, c: real)
    requires b > 0.0 && c > 0.0
    ensures b * c > 0.0 && (a * c) / (b * c) == a / b
  {
    var q := a / b;
    assert a == q * b;
    assert a * c == q * (b * c);
  }

  lemma Divided(a: real, b: real)
    requires b > 0.0
    ensures a / b * b == a
  {
  }

  /** The ratios, where there is something to divide by: operating over required time, net over operating, useful
      over net; none at all without required time. */
  lemma RatiosDivide(planned: int, operating: int, goodTct: real, totalTct: real, q: Ratios)
    requires q == RatiosOf(planned, operating, goodTct, totalTct)
    ensures q.availability.Some? <==> planned > 0
    ensures q.performance.Some? <==> planned > 0 && operating > 0
    ensures q.quality.Some? <==> planned > 0 && totalTct > 0.0
    ensures q.availability.Some? ==> q.availability.value * planned as real == operating as real
    ensures q.performance.Some? ==> q.performance.value * operating as real == totalTct
    ensures q.quality.Some? ==> q.quality.value * totalTct == goodTct
  {
    if planned > 0 { Divided(operating as real, planned as real); }
    if operating > 0 { Divided(totalTct, operating as real); }
    if totalTct > 0.0 { Divided(goodTct, totalTct); }
  }

  /** Parts made while the cell did not run at all are an anomaly. */
  lemma AnomalyIsWorkAtRest(w: Window, stops: seq<ClassifiedStop>, deltas: seq<CounterDelta>, gaps: seq<Gap>,
                            r: OeeResult)
    requires r == OeeOf(w, stops, deltas, gaps)
    ensures r.window == w && (r.anomaly <==> r.account.good + r.account.scrap > 0 && Running(w, stops, gaps) == {})
  {
    RunningInstants(w, stops, gaps);
  }
}
