/** backend/app/oee/compute.py and stops.py: OEE of one window from stops, deltas and gaps.
    Times and theoretical cycle times are in microseconds. */
module Oee {
  import opened Basics
  import opened Facts
  import opened Intervals
  import opened Counters

  datatype Window = Window(name: string, start: int, end: int)
  {
    function Length(): int { end - start }
  }

  datatype StopRecord = StopRecord(start: int, end: Option<int>, state: int)

  datatype StopKind = Planned | Loss | Micro

  datatype ClassifiedStop = ClassifiedStop(start: int, end: int, state: int, kind: StopKind)

  datatype Gap = Gap(start: int, end: Option<int>)

  // ------------------------------------------------------------ classification

  function EndOf(s: StopRecord, until: int): int { if s.end.Some? then s.end.value else Max(until, s.start) }

  function KindOf(s: StopRecord, until: int, micro: int): StopKind {
    if s.state == PLANNED_STOP then Planned
    else if EndOf(s, until) - s.start < micro then Micro else Loss
  }

  function Classify(s: StopRecord, until: int, micro: int): ClassifiedStop {
    ClassifiedStop(s.start, EndOf(s, until), s.state, KindOf(s, until, micro))
  }

  function Classified(stops: seq<StopRecord>, until: int, micro: int): (r: seq<ClassifiedStop>)
    ensures |r| == |stops|
    ensures forall i :: 0 <= i < |stops| ==> r[i] == Classify(stops[i], until, micro)
  {
    if stops == [] then [] else [Classify(stops[0], until, micro)] + Classified(stops[1..], until, micro)
  }

  predicate NoneProducing(stops: seq<StopRecord>) { forall s :: s in stops ==> s.state != PRODUCING }

  /** `classify_stops`; it refuses a stop in the PRODUCING state. */
  method ClassifyStops(stops: seq<StopRecord>, until: int, micro: int) returns (r: Result<seq<ClassifiedStop>>)
    ensures r == if NoneProducing(stops) then Success(Classified(stops, until, micro))
                 else Failure("a stop cannot be in the PRODUCING state")
  {
    var out: seq<ClassifiedStop> := [];
    for i := 0 to |stops|
      invariant NoneProducing(stops[..i])
      invariant |out| == i && forall k :: 0 <= k < i ==> out[k] == Classify(stops[k], until, micro)
    {
      var s := stops[i];
      if s.state == PRODUCING { return Failure("a stop cannot be in the PRODUCING state"); }
      assert stops[..i + 1] == stops[..i] + [s];
      var end := if s.end.Some? then s.end.value else Max(until, s.start);
      var kind: StopKind;
      if s.state == PLANNED_STOP {
        kind := Planned;
      } else if end - s.start < micro {
        kind := Micro;
      } else {
        kind := Loss;
      }
      out := out + [ClassifiedStop(s.start, end, s.state, kind)];
    }
    assert stops[..|stops|] == stops;
    assert out == Classified(stops, until, micro);
    r := Success(out);
  }

  // ------------------------------------------------------------ what an instant is

  predicate InGap(gaps: seq<Gap>, y: int) {
    exists i :: 0 <= i < |gaps| && gaps[i].start <= y && (gaps[i].end.Some? ==> y < gaps[i].end.value)
  }

  predicate Matches(s: ClassifiedStop, kind: StopKind, state: int, y: int) {
    s.kind == kind && (state == 0 || s.state == state) && s.start <= y < s.end
  }

  /** Some stop of this kind covers the instant; `state` 0 stands for any state. */
  predicate Covered(stops: seq<ClassifiedStop>, kind: StopKind, state: int, y: int) {
    exists i :: 0 <= i < |stops| && Matches(stops[i], kind, state, y)
  }

  datatype Category = Unobserved | PlannedStop | LossIn(state: int) | Operating

  /** The one account an instant belongs to: gap, then planned stop, then the losses by priority. */
  function CategoryOf(stops: seq<ClassifiedStop>, gaps: seq<Gap>, y: int): Category {
    if InGap(gaps, y) then Unobserved
    else if Covered(stops, Planned, 0, y) then PlannedStop
    else if Covered(stops, Loss, FAULT, y) then LossIn(FAULT)
    else if Covered(stops, Loss, SETUP, y) then LossIn(SETUP)
    else if Covered(stops, Loss, STARVED, y) then LossIn(STARVED)
    else if Covered(stops, Loss, BLOCKED, y) then LossIn(BLOCKED)
    else if Covered(stops, Loss, MANUAL, y) then LossIn(MANUAL)
    else Operating
  }

  function Instants(lo: int, hi: int, stops: seq<ClassifiedStop>, gaps: seq<Gap>, c: Category): set<int> {
    set y | lo <= y < hi && CategoryOf(stops, gaps, y) == c
  }

  /** Operating instants covered by a micro-stop. */
  function MicroInstants(lo: int, hi: int, stops: seq<ClassifiedStop>, gaps: seq<Gap>): set<int> {
    set y | lo <= y < hi && CategoryOf(stops, gaps, y) == Operating && Covered(stops, Micro, 0, y)
  }

  // ------------------------------------------------------------ results

  /** The additive part of an OEE result. */
  datatype Account = Account(
    gap: int, opening: int, plannedStop: int, planned: int,
    fault: int, setup: int, starved: int, blocked: int, manual: int, micro: int, operating: int,
    good: int, scrap: int, goodTct: real, totalTct: real, dropped: int)
  {
    function LossTime(): int { fault + setup + starved + blocked + manual }

    function Plus(o: Account): Account {
      Account(gap + o.gap, opening + o.opening, plannedStop + o.plannedStop, planned + o.planned,
              fault + o.fault, setup + o.setup, starved + o.starved, blocked + o.blocked, manual + o.manual,
              micro + o.micro, operating + o.operating,
              good + o.good, scrap + o.scrap, goodTct + o.goodTct, totalTct + o.totalTct, dropped + o.dropped)
    }
  }

  const NOTHING := Account(0, 0, 0, 0, 0, 0, 0, 0, 0, 0, 0, 0, 0, 0.0, 0.0, 0)

  datatype Ratios = Ratios(availability: Option<real>, performance: Option<real>, quality: Option<real>,
                           oee: Option<real>)

  datatype OeeResult = OeeResult(window: Window, account: Account, ratios: Ratios, anomaly: bool)

  function Product(a: real, p: real, q: real): real { a * p * q }

  /** `_ratios`: None where a denominator is not positive. */
  function RatiosOf(planned: int, operating: int, goodTct: real, totalTct: real): Ratios {
    if planned <= 0 then Ratios(None, None, None, None)
    else
      var a := operating as real / planned as real;
      var p := if operating > 0 then Some(totalTct / operating as real) else None;
      var q := if totalTct > 0.0 then Some(goodTct / totalTct) else None;
      var oee := if p.Some? && q.Some? then Product(a, p.value, q.value) else goodTct / planned as real;
      Ratios(Some(a), p, q, Some(oee))
  }

  function ResultOf(w: Window, a: Account): OeeResult {
    OeeResult(w, a, RatiosOf(a.planned, a.operating, a.goodTct, a.totalTct), a.good + a.scrap > 0 && a.operating <= 0)
  }

  // ------------------------------------------------------------ parts

  predicate OverlapsGap(d: CounterDelta, gaps: seq<Gap>) {
    d.prevTs.Some? &&
    exists i :: 0 <= i < |gaps| && gaps[i].start < d.ts && (gaps[i].end.Some? ==> gaps[i].end.value > d.prevTs.value)
  }

  datatype Parts = Parts(good: int, scrap: int, dropped: int, goodTct: real, totalTct: real)
  {
    function Plus(o: Parts): Parts {
      Parts(good + o.good, scrap + o.scrap, dropped + o.dropped, goodTct + o.goodTct, totalTct + o.totalTct)
    }
  }

  const NO_PARTS := Parts(0, 0, 0, 0.0, 0.0)

  /** What one delta is worth: dropped parts if it touches a gap, counted parts otherwise. */
  function Worth(d: CounterDelta, gaps: seq<Gap>): Parts {
    if OverlapsGap(d, gaps) then Parts(0, 0, d.Parts(), 0.0, 0.0)
    else Parts(d.good, d.scrap, 0, d.good as real * d.cycle, d.Parts() as real * d.cycle)
  }

  function Valuation(gaps: seq<Gap>): CounterDelta -> Parts { d => Worth(d, gaps) }

  function Share(w: Window, d: CounterDelta, worth: CounterDelta -> Parts): Parts {
    if w.start <= d.ts < w.end then worth(d) else NO_PARTS
  }

  /** The worth of the deltas of a window. */
  function PartsBy(w: Window, deltas: seq<CounterDelta>, worth: CounterDelta -> Parts): Parts {
    if deltas == [] then NO_PARTS else Share(w, deltas[0], worth).Plus(PartsBy(w, deltas[1..], worth))
  }

  function PartsIn(w: Window, deltas: seq<CounterDelta>, gaps: seq<Gap>): Parts { PartsBy(w, deltas, Valuation(gaps)) }

  lemma {:induction false} PartsAppend(w: Window, a: seq<CounterDelta>, b: seq<CounterDelta>,
                                       worth: CounterDelta -> Parts)
    ensures PartsBy(w, a + b, worth) == PartsBy(w, a, worth).Plus(PartsBy(w, b, worth))
  {
    if a == [] {
      assert a + b == b;
    } else {
      assert (a + b)[0] == a[0] && (a + b)[1..] == a[1..] + b;
      PartsAppend(w, a[1..], b, worth);
    }
  }

  // ------------------------------------------------------------ the specification of compute_oee

  /** An account from the time tallied per category. */
  function Booked(length: int, tally: Category -> int, micro: int, p: Parts): Account {
    Account(tally(Unobserved), length - tally(Unobserved), tally(PlannedStop),
            length - tally(Unobserved) - tally(PlannedStop),
            tally(LossIn(FAULT)), tally(LossIn(SETUP)), tally(LossIn(STARVED)), tally(LossIn(BLOCKED)),
            tally(LossIn(MANUAL)),
            micro, tally(Operating), p.good, p.scrap, p.goodTct, p.totalTct, p.dropped)
  }

  function Tally(lo: int, hi: int, stops: seq<ClassifiedStop>, gaps: seq<Gap>): Category -> int {
    c => |Instants(lo, hi, stops, gaps, c)|
  }

  function AccountOf(w: Window, stops: seq<ClassifiedStop>, deltas: seq<CounterDelta>, gaps: seq<Gap>): Account {
    Booked(w.Length(), Tally(w.start, w.end, stops, gaps), |MicroInstants(w.start, w.end, stops, gaps)|,
        PartsIn(w, deltas, gaps))
  }

  function OeeOf(w: Window, stops: seq<ClassifiedStop>, deltas: seq<CounterDelta>, gaps: seq<Gap>): OeeResult {
    ResultOf(w, AccountOf(w, stops, deltas, gaps))
  }

  // ------------------------------------------------------------ interval lists of a window

  /** Offsets from the window start; an open gap lasts to the end of the window. */
  function GapSpans(w: Window, gaps: seq<Gap>): seq<Interval> {
    if gaps == [] then []
    else
      [Interval(gaps[0].start - w.start, if gaps[0].end.Some? then gaps[0].end.value - w.start else w.Length())]
      + GapSpans(w, gaps[1..])
  }

  function StopSpans(w: Window, stops: seq<ClassifiedStop>, kind: StopKind, state: int): seq<Interval> {
    if stops == [] then []
    else
      var s := stops[0];
      (if s.kind == kind && (state == 0 || s.state == state) then [Interval(s.start - w.start, s.end - w.start)]
          else [])
      + StopSpans(w, stops[1..], kind, state)
  }

  lemma {:induction false} GapSpansCover(w: Window, gaps: seq<Gap>, x: int)
    requires x < w.Length()
    ensures x in Points(GapSpans(w, gaps)) <==> InGap(gaps, w.start + x)
  {
    if gaps != [] {
      var g, rest := gaps[0], gaps[1..];
      GapSpansCover(w, rest, x);
      var first := Interval(g.start - w.start, if g.end.Some? then g.end.value - w.start else w.Length());
      PointsAppend([first], GapSpans(w, rest));
      PointsOne(first);
      InGapCons(gaps, w.start + x);
    }
  }

  lemma InGapCons(gaps: seq<Gap>, y: int)
    requires gaps != []
    ensures InGap(gaps, y)
            <==> (gaps[0].start <= y && (gaps[0].end.Some? ==> y < gaps[0].end.value)) || InGap(gaps[1..], y)
  {
    var rest := gaps[1..];
    if InGap(rest, y) {
      var i :| 0 <= i < |rest| && rest[i].start <= y && (rest[i].end.Some? ==> y < rest[i].end.value);
      assert gaps[i + 1] == rest[i];
    }
    if InGap(gaps, y) {
      var i :| 0 <= i < |gaps| && gaps[i].start <= y && (gaps[i].end.Some? ==> y < gaps[i].end.value);
      if i > 0 { assert rest[i - 1] == gaps[i]; }
    }
  }

  lemma CoveredCons(stops: seq<ClassifiedStop>, kind: StopKind, state: int, y: int)
    requires stops != []
    ensures Covered(stops, kind, state, y) <==> Matches(stops[0], kind, state, y) || Covered(stops[1..], kind, state, y)
  {
    var rest := stops[1..];
    if Covered(rest, kind, state, y) {
      var i :| 0 <= i < |rest| && Matches(rest[i], kind, state, y);
      assert stops[i + 1] == rest[i];
    }
    if Covered(stops, kind, state, y) {
      var i :| 0 <= i < |stops| && Matches(stops[i], kind, state, y);
      if i > 0 { assert rest[i - 1] == stops[i]; }
    }
  }

  lemma {:induction false} StopSpansCover(w: Window, stops: seq<ClassifiedStop>, kind: StopKind, state: int, x: int)
    ensures x in Points(StopSpans(w, stops, kind, state)) <==> Covered(stops, kind, state, w.start + x)
  {
    if stops != [] {
      var s, rest := stops[0], stops[1..];
      StopSpansCover(w, rest, kind, state, x);
      CoveredCons(stops, kind, state, w.start + x);
      var first := Interval(s.start - w.start, s.end - w.start);
      var mine := if s.kind == kind && (state == 0 || s.state == state) then [first] else [];
      PointsAppend(mine, StopSpans(w, rest, kind, state));
      PointsOne(first);
    }
  }

  /** A list of offsets that covers exactly these instants of the window. */
  ghost predicate Shows(w: Window, ivs: seq<Interval>, instants: set<int>) {
    Merged(ivs) && forall y :: y in instants <==> y - w.start in Points(ivs)
  }

  lemma ShownTotal(w: Window, ivs: seq<Interval>, instants: set<int>)
    requires Shows(w, ivs, instants)
    ensures Total(ivs) == |instants|
  {
    TotalIsMeasure(ivs);
    TranslateKeepsSize(Points(ivs), instants, w.start);
  }

  predicate InWindow(w: Window, y: int) { w.start <= y < w.end }

  function Open(w: Window, gaps: seq<Gap>): set<int> { set y | w.start <= y < w.end && !InGap(gaps, y) }

  function Shut(w: Window, gaps: seq<Gap>): set<int> { set y | w.start <= y < w.end && InGap(gaps, y) }

  /** Observed instants covered by a kind of stop. */
  function Hit(w: Window, stops: seq<ClassifiedStop>, gaps: seq<Gap>, kind: StopKind, state: int): set<int> {
    set y | w.start <= y < w.end && !InGap(gaps, y) && Covered(stops, kind, state, y)
  }

  /** Observed instants claimed by planned stops or by a loss of higher priority than `state`. */
  function Claimed(w: Window, stops: seq<ClassifiedStop>, gaps: seq<Gap>, state: int): set<int>
    decreases state, |stops|
  {
    if state <= FAULT then Hit(w, stops, gaps, Planned, 0)
    else Claimed(w, stops, gaps, state - 1) + Hit(w, stops, gaps, Loss, state - 1)
  }

  lemma LossByPriority(w: Window, stops: seq<ClassifiedStop>, gaps: seq<Gap>, k: int)
    requires FAULT <= k <= MANUAL
    ensures Instants(w.start, w.end, stops, gaps, LossIn(k))
            == Hit(w, stops, gaps, Loss, k) - Claimed(w, stops, gaps, k)
  {
    ClaimedLevels(w, stops, gaps);
  }

  lemma OperatingIsUnclaimed(w: Window, stops: seq<ClassifiedStop>, gaps: seq<Gap>, y: int)
    requires InWindow(w, y)
    ensures CategoryOf(stops, gaps, y) == Operating <==> !InGap(gaps, y) && y !in Claimed(w, stops, gaps, MANUAL + 1)
  {
    ClaimedLevels(w, stops, gaps);
  }

  /** Each account is what its own stops cover minus what higher priorities claimed. */
  lemma AccountsByPriority(w: Window, stops: seq<ClassifiedStop>, gaps: seq<Gap>)
    ensures Instants(w.start, w.end, stops, gaps, Unobserved) == Shut(w, gaps)
    ensures Instants(w.start, w.end, stops, gaps, PlannedStop) == Hit(w, stops, gaps, Planned, 0)
    ensures forall k :: FAULT <= k <= MANUAL ==>
                          Instants(w.start, w.end, stops, gaps, LossIn(k))
                          == Hit(w, stops, gaps, Loss, k) - Claimed(w, stops, gaps, k)
    ensures Instants(w.start, w.end, stops, gaps, Operating) == Open(w, gaps) - Claimed(w, stops, gaps, MANUAL + 1)
    ensures MicroInstants(w.start, w.end, stops, gaps)
            == Hit(w, stops, gaps, Micro, 0) - Claimed(w, stops, gaps, MANUAL + 1)
  {
    forall y | InWindow(w, y)
      ensures CategoryOf(stops, gaps, y) == Operating <==> !InGap(gaps, y) && y !in Claimed(w, stops, gaps, MANUAL + 1)
    {
      OperatingIsUnclaimed(w, stops, gaps, y);
    }
    forall k | FAULT <= k <= MANUAL
      ensures Instants(w.start, w.end, stops, gaps, LossIn(k))
              == Hit(w, stops, gaps, Loss, k) - Claimed(w, stops, gaps, k)
    {
      LossByPriority(w, stops, gaps, k);
    }
  }

  lemma ClaimedLevels(w: Window, stops: seq<ClassifiedStop>, gaps: seq<Gap>)
    ensures var p := Hit(w, stops, gaps, Planned, 0);
            var f, s, v := Hit(w, stops, gaps, Loss, FAULT), Hit(w, stops, gaps, Loss, SETUP),
                Hit(w, stops, gaps, Loss, STARVED);
            var b, m := Hit(w, stops, gaps, Loss, BLOCKED), Hit(w, stops, gaps, Loss, MANUAL);
            && Claimed(w, stops, gaps, 3) == p && Claimed(w, stops, gaps, 4) == p + f
            && Claimed(w, stops, gaps, 5) == p + f + s && Claimed(w, stops, gaps, 6) == p + f + s + v
            && Claimed(w, stops, gaps, 7) == p + f + s + v + b && Claimed(w, stops, gaps, 8) == p + f + s + v + b + m
  {
    assert Claimed(w, stops, gaps, 4) == Claimed(w, stops, gaps, 3) + Hit(w, stops, gaps, Loss, 3);
    assert Claimed(w, stops, gaps, 5) == Claimed(w, stops, gaps, 4) + Hit(w, stops, gaps, Loss, 4);
    assert Claimed(w, stops, gaps, 6) == Claimed(w, stops, gaps, 5) + Hit(w, stops, gaps, Loss, 5);
    assert Claimed(w, stops, gaps, 7) == Claimed(w, stops, gaps, 6) + Hit(w, stops, gaps, Loss, 6);
    assert Claimed(w, stops, gaps, 8) == Claimed(w, stops, gaps, 7) + Hit(w, stops, gaps, Loss, 7);
  }

  // ------------------------------------------------------------ the method

  method ObservedIn(w: Window, gaps: seq<Gap>) returns (gapIv: seq<Interval>, observed: seq<Interval>)
    requires w.start <= w.end
    ensures Shows(w, gapIv, Shut(w, gaps)) && Shows(w, observed, Open(w, gaps))
  {
    gapIv := Clip(GapSpans(w, gaps), 0, w.Length());
    forall x | x < w.Length() ensures x in Points(GapSpans(w, gaps)) <==> InGap(gaps, w.start + x) {
      GapSpansCover(w, gaps, x);
    }
    assert forall x :: x in Points(gapIv) <==> 0 <= x < w.Length() && InGap(gaps, w.start + x);
    StartsInside(gapIv, w.Length());
    observed := Complement(gapIv, 0, w.Length());
    assert forall x :: x in Points(observed) <==> 0 <= x < w.Length() && !InGap(gaps, w.start + x);
    forall y ensures y in Shut(w, gaps) <==> y - w.start in Points(gapIv) { assert w.start + (y - w.start) == y; }
    forall y ensures y in Open(w, gaps) <==> y - w.start in Points(observed) { assert w.start + (y - w.start) == y; }
  }

  lemma StartsInside(ivs: seq<Interval>, hi: int)
    requires Merged(ivs) && Points(ivs) <= Range(0, hi)
    ensures forall i :: 0 <= i < |ivs| ==> ivs[i].lo <= hi
  {
    forall i | 0 <= i < |ivs| ensures ivs[i].lo <= hi {
      InsideIsCovered(ivs, i);
      assert ivs[i].lo in Points(ivs);
    }
  }

  /** The inner function `within`: observed offsets covered by a kind of stop. */
  method CoveredIn(w: Window, stops: seq<ClassifiedStop>, gaps: seq<Gap>, observed: seq<Interval>, kind: StopKind,
                   state: int)
    returns (out: seq<Interval>)
    requires w.start <= w.end && Shows(w, observed, Open(w, gaps))
    ensures Shows(w, out, Hit(w, stops, gaps, kind, state))
  {
    var clipped := Clip(StopSpans(w, stops, kind, state), 0, w.Length());
    out := Intersect(clipped, observed);
    forall y ensures y in Hit(w, stops, gaps, kind, state) <==> y - w.start in Points(out) {
      StopSpansCover(w, stops, kind, state, y - w.start);
      assert y in Open(w, gaps) <==> y - w.start in Points(observed);
      assert w.start + (y - w.start) == y;
    }
  }

  method Minus(w: Window, a: seq<Interval>, b: seq<Interval>, ghost sa: set<int>, ghost sb: set<int>)
    returns (out: seq<Interval>, total: int)
    requires Shows(w, a, sa) && Shows(w, b, sb)
    ensures Shows(w, out, sa - sb) && total == |sa - sb|
  {
    out := Subtract(a, b);
    ShowsMinus(w, out, a, b, sa, sb);
    ShownTotal(w, out, sa - sb);
    total := Total(out);
  }

  method Plus(w: Window, a: seq<Interval>, b: seq<Interval>, ghost sa: set<int>, ghost sb: set<int>)
    returns (out: seq<Interval>)
    requires Shows(w, a, sa) && Shows(w, b, sb)
    ensures Shows(w, out, sa + sb)
  {
    out := Merge(a + b);
    PointsAppend(a, b);
    ShowsPlus(w, out, a, b, sa, sb);
  }

  lemma ShowsMinus(w: Window, out: seq<Interval>, a: seq<Interval>, b: seq<Interval>, sa: set<int>, sb: set<int>)
    requires Shows(w, a, sa) && Shows(w, b, sb) && Merged(out) && Points(out) == Points(a) - Points(b)
    ensures Shows(w, out, sa - sb)
  {
    forall y ensures y in sa - sb <==> y - w.start in Points(out) {
      assert y in sa <==> y - w.start in Points(a);
      assert y in sb <==> y - w.start in Points(b);
    }
  }

  lemma ShowsPlus(w: Window, out: seq<Interval>, a: seq<Interval>, b: seq<Interval>, sa: set<int>, sb: set<int>)
    requires Shows(w, a, sa) && Shows(w, b, sb) && Merged(out) && Points(out) == Points(a) + Points(b)
    ensures Shows(w, out, sa + sb)
  {
    forall y ensures y in sa + sb <==> y - w.start in Points(out) {
      assert y in sa <==> y - w.start in Points(a);
      assert y in sb <==> y - w.start in Points(b);
    }
  }

  lemma PartsTake(w: Window, deltas: seq<CounterDelta>, i: nat, worth: CounterDelta -> Parts)
    requires i < |deltas|
    ensures PartsBy(w, deltas[..i + 1], worth) == PartsBy(w, deltas[..i], worth).Plus(Share(w, deltas[i], worth))
  {
    assert deltas[..i + 1] == deltas[..i] + [deltas[i]];
    PartsAppend(w, deltas[..i], [deltas[i]], worth);
    var one := [deltas[i]];
    assert one[1..] == [] && PartsBy(w, [], worth) == NO_PARTS;
    assert PartsBy(w, one, worth) == Share(w, deltas[i], worth).Plus(NO_PARTS);
  }

  /** The parts loop. */
  method CountParts(w: Window, deltas: seq<CounterDelta>, gaps: seq<Gap>) returns (p: Parts)
    ensures p == PartsIn(w, deltas, gaps)
  {
    p := NO_PARTS;
    ghost var worth := Valuation(gaps);
    for i := 0 to |deltas|
      invariant p == PartsBy(w, deltas[..i], worth)
    {
      var d := deltas[i];
      PartsTake(w, deltas, i, worth);
      if !(w.start <= d.ts < w.end) { continue; }
      p := Counted(p, d, gaps);
    }
    assert deltas[..|deltas|] == deltas;
  }

  /** One delta of the window joins the running sums. */
  method Counted(p: Parts, d: CounterDelta, gaps: seq<Gap>) returns (q: Parts)
    ensures q == p.Plus(Worth(d, gaps))
  {
    if OverlapsGap(d, gaps) {
      q := p.(dropped := p.dropped + d.Parts());
    } else {
      q := Parts(p.good + d.good, p.scrap + d.scrap, p.dropped,
                 p.goodTct + d.good as real * d.cycle, p.totalTct + d.Parts() as real * d.cycle);
    }
  }

  /** The time claimed by one loss category. */
  function LossTime(w: Window, stops: seq<ClassifiedStop>, gaps: seq<Gap>, state: int): int {
    |Hit(w, stops, gaps, Loss, state) - Claimed(w, stops, gaps, state)|
  }

  ghost function LossAt(w: Window, stops: seq<ClassifiedStop>, gaps: seq<Gap>): int -> int {
    k => LossTime(w, stops, gaps, FAULT + k)
  }

  ghost predicate LossesUpTo(w: Window, stops: seq<ClassifiedStop>, gaps: seq<Gap>, losses: seq<int>) {
    Lists(LossAt(w, stops, gaps), losses)
  }

  ghost predicate Lists(f: int -> int, xs: seq<int>) { forall k :: 0 <= k < |xs| ==> xs[k] == f(k) }

  lemma ListsOneMore(f: int -> int, xs: seq<int>)
    requires Lists(f, xs)
    ensures Lists(f, xs + [f(|xs|)])
  {
  }

  lemma ClaimNext(w: Window, stops: seq<ClassifiedStop>, gaps: seq<Gap>, state: int)
    requires state >= FAULT
    ensures var hit, claimed := Hit(w, stops, gaps, Loss, state), Claimed(w, stops, gaps, state);
            claimed + (hit - claimed) == Claimed(w, stops, gaps, state + 1)
  {
  }

  lemma OneMoreLoss(w: Window, stops: seq<ClassifiedStop>, gaps: seq<Gap>, losses: seq<int>, seconds: int)
    requires LossesUpTo(w, stops, gaps, losses) && seconds == LossTime(w, stops, gaps, FAULT + |losses|)
    ensures LossesUpTo(w, stops, gaps, losses + [seconds])
  {
    ListsOneMore(LossAt(w, stops, gaps), losses);
  }

  lemma LossesListed(w: Window, stops: seq<ClassifiedStop>, gaps: seq<Gap>, losses: seq<int>)
    requires LossesUpTo(w, stops, gaps, losses)
    ensures forall k :: 0 <= k < |losses| ==> losses[k] == LossTime(w, stops, gaps, FAULT + k)
  {
    var f := LossAt(w, stops, gaps);
    forall k | 0 <= k < |losses| ensures losses[k] == LossTime(w, stops, gaps, FAULT + k) {
      assert losses[k] == f(k);
    }
  }

  method ClaimOne(w: Window, stops: seq<ClassifiedStop>, gaps: seq<Gap>, observed: seq<Interval>,
                  taken: seq<Interval>, state: int)
    returns (seconds: int, more: seq<Interval>)
    requires w.start <= w.end && Shows(w, observed, Open(w, gaps)) && state >= FAULT
    requires Shows(w, taken, Claimed(w, stops, gaps, state))
    ensures seconds == LossTime(w, stops, gaps, state)
    ensures Shows(w, more, Claimed(w, stops, gaps, state + 1))
  {
    ghost var hit, claimed := Hit(w, stops, gaps, Loss, state), Claimed(w, stops, gaps, state);
    ClaimNext(w, stops, gaps, state);
    var covered := CoveredIn(w, stops, gaps, observed, Loss, state);
    var mine;
    mine, seconds := Minus(w, covered, taken, hit, claimed);
    more := Plus(w, taken, mine, claimed, hit - claimed);
  }

  /** The priority claim loop: fault, setup, starved, blocked, manual. */
  method ClaimLosses(w: Window, stops: seq<ClassifiedStop>, gaps: seq<Gap>, observed: seq<Interval>,
                     planned: seq<Interval>)
    returns (losses: seq<int>, taken: seq<Interval>)
    requires w.start <= w.end && Shows(w, observed, Open(w, gaps))
    requires Shows(w, planned, Hit(w, stops, gaps, Planned, 0))
    ensures |losses| == 5 && forall k :: 0 <= k < 5 ==> losses[k] == LossTime(w, stops, gaps, FAULT + k)
    ensures Shows(w, taken, Claimed(w, stops, gaps, MANUAL + 1))
  {
    losses, taken := ClaimInOrder(w, stops, gaps, observed, planned);
    LossesListed(w, stops, gaps, losses);
  }

  method ClaimInOrder(w: Window, stops: seq<ClassifiedStop>, gaps: seq<Gap>, observed: seq<Interval>,
                      planned: seq<Interval>)
    returns (losses: seq<int>, taken: seq<Interval>)
    requires w.start <= w.end && Shows(w, observed, Open(w, gaps))
    requires Shows(w, planned, Hit(w, stops, gaps, Planned, 0))
    ensures |losses| == 5 && LossesUpTo(w, stops, gaps, losses)
    ensures Shows(w, taken, Claimed(w, stops, gaps, MANUAL + 1))
  {
    losses, taken := [], planned;
    var first, end := FAULT, MANUAL + 1;
    for state := first to end
      invariant |losses| == state - first && LossesUpTo(w, stops, gaps, losses)
      invariant Shows(w, taken, Claimed(w, stops, gaps, state))
    {
      var seconds, more := ClaimOne(w, stops, gaps, observed, taken, state);
      OneMoreLoss(w, stops, gaps, losses, seconds);
      losses, taken := losses + [seconds], more;
    }
  }

  /** `compute_oee`. */
  method ComputeOee(w: Window, stops: seq<ClassifiedStop>, deltas: seq<CounterDelta>, gaps: seq<Gap>)
    returns (r: OeeResult)
    requires w.start <= w.end
    ensures r == OeeOf(w, stops, deltas, gaps)
  {
    ghost var open := Open(w, gaps);
    ghost var claimed := Claimed(w, stops, gaps, MANUAL + 1);
    var gapIv, observed := ObservedIn(w, gaps);
    var planned := CoveredIn(w, stops, gaps, observed, Planned, 0);
    ShownTotal(w, planned, Hit(w, stops, gaps, Planned, 0));
    var _, required := Minus(w, observed, planned, open, Hit(w, stops, gaps, Planned, 0));
    var losses, taken := ClaimLosses(w, stops, gaps, observed, planned);
    var covered := CoveredIn(w, stops, gaps, observed, Micro, 0);
    var _, micro := Minus(w, covered, taken, Hit(w, stops, gaps, Micro, 0), claimed);
    var _, operating := Minus(w, observed, taken, open, claimed);
    var p := CountParts(w, deltas, gaps);
    ShownTotal(w, gapIv, Shut(w, gaps));
    ShownTotal(w, observed, open);
    Opening(w, stops, gaps);
    AccountsByPriority(w, stops, gaps);
    r := ResultOf(w, Account(Total(gapIv), Total(observed), Total(planned), required,
                             losses[0], losses[1], losses[2], losses[3], losses[4], micro, operating,
                             p.good, p.scrap, p.goodTct, p.totalTct, p.dropped));
  }

  lemma Opening(w: Window, stops: seq<ClassifiedStop>, gaps: seq<Gap>)
    requires w.start <= w.end
    ensures |Open(w, gaps)| == w.Length() - |Shut(w, gaps)|
    ensures |Open(w, gaps) - Hit(w, stops, gaps, Planned, 0)| == |Open(w, gaps)| - |Hit(w, stops, gaps, Planned, 0)|
  {
    RangeSize(w.start, w.end);
    assert Range(w.start, w.end) == Open(w, gaps) + Shut(w, gaps);
    var planned := Hit(w, stops, gaps, Planned, 0);
    assert Open(w, gaps) == (Open(w, gaps) - planned) + planned;
  }
}
