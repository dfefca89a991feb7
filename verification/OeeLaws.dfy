/** Laws of the OEE accounts: conservation, additivity over windows, the reference invariant, and
    monotonicity in the micro-stop threshold. */
module OeeLaws {
  import opened Basics
  import opened Facts
  import opened Intervals
  import opened Counters
  import opened Oee

  // ------------------------------------------------------------ conservation

  lemma SizeOfSplit(whole: set<int>, a: set<int>, b: set<int>)
    requires whole == a + b && a !! b
    ensures |whole| == |a| + |b|
  {
  }

  lemma SizeOfSubset(a: set<int>, b: set<int>)
    requires a <= b
    ensures |a| <= |b|
  {
    SizeOfSplit(b, a, b - a);
  }

  /** Instants of the window by the position of their account in the priority order. */
  function FromRank(lo: int, hi: int, stops: seq<ClassifiedStop>, gaps: seq<Gap>, rank: int): set<int> {
    set y | lo <= y < hi && rank <= Rank(CategoryOf(stops, gaps, y))
  }

  function Rank(c: Category): int {
    match c
    case Unobserved => 0
    case PlannedStop => 2
    case LossIn(k) => k
    case Operating => 8
  }

  function NextRank(c: Category): int { if c == Unobserved then 2 else Rank(c) + 1 }

  predicate Accountable(c: Category) { c.LossIn? ==> FAULT <= c.state <= MANUAL }

  lemma PeelRank(lo: int, hi: int, stops: seq<ClassifiedStop>, gaps: seq<Gap>, c: Category)
    requires Accountable(c)
    ensures |FromRank(lo, hi, stops, gaps, Rank(c))|
            == |Instants(lo, hi, stops, gaps, c)| + |FromRank(lo, hi, stops, gaps, NextRank(c))|
  {
    assert forall y :: Accountable(CategoryOf(stops, gaps, y));
    SizeOfSplit(FromRank(lo, hi, stops, gaps, Rank(c)), Instants(lo, hi, stops, gaps, c),
                FromRank(lo, hi, stops, gaps, NextRank(c)));
  }

  lemma RanksAddUp(lo: int, hi: int, stops: seq<ClassifiedStop>, gaps: seq<Gap>)
    requires lo <= hi
    ensures Tally(lo, hi, stops, gaps)(Unobserved) + Tally(lo, hi, stops, gaps)(PlannedStop)
            + Tally(lo, hi, stops, gaps)(LossIn(FAULT)) + Tally(lo, hi, stops, gaps)(LossIn(SETUP))
            + Tally(lo, hi, stops, gaps)(LossIn(STARVED)) + Tally(lo, hi, stops, gaps)(LossIn(BLOCKED))
            + Tally(lo, hi, stops, gaps)(LossIn(MANUAL)) + Tally(lo, hi, stops, gaps)(Operating) == hi - lo
  {
    PeelRank(lo, hi, stops, gaps, Unobserved);
    PeelRank(lo, hi, stops, gaps, PlannedStop);
    PeelRank(lo, hi, stops, gaps, LossIn(3));
    PeelRank(lo, hi, stops, gaps, LossIn(4));
    PeelRank(lo, hi, stops, gaps, LossIn(5));
    PeelRank(lo, hi, stops, gaps, LossIn(6));
    PeelRank(lo, hi, stops, gaps, LossIn(7));
    EndRanks(lo, hi, stops, gaps);
  }

  lemma EndRanks(lo: int, hi: int, stops: seq<ClassifiedStop>, gaps: seq<Gap>)
    requires lo <= hi
    ensures |FromRank(lo, hi, stops, gaps, 0)| == hi - lo
    ensures FromRank(lo, hi, stops, gaps, 8) == Instants(lo, hi, stops, gaps, Operating)
  {
    RangeSize(lo, hi);
    assert forall y :: Accountable(CategoryOf(stops, gaps, y));
    assert FromRank(lo, hi, stops, gaps, 0) == Range(lo, hi);
  }

  lemma MicroIsOperating(lo: int, hi: int, stops: seq<ClassifiedStop>, gaps: seq<Gap>)
    ensures |MicroInstants(lo, hi, stops, gaps)| <= Tally(lo, hi, stops, gaps)(Operating)
  {
    SizeOfSubset(MicroInstants(lo, hi, stops, gaps), Instants(lo, hi, stops, gaps, Operating));
  }

  /** Every instant of the window is in exactly one account. */
  lemma TimeIsConserved(w: Window, stops: seq<ClassifiedStop>, deltas: seq<CounterDelta>, gaps: seq<Gap>)
    requires w.start <= w.end
    ensures var a := AccountOf(w, stops, deltas, gaps);
            && a.gap + a.plannedStop + a.LossTime() + a.operating == w.Length()
            && a.opening == w.Length() - a.gap
            && a.planned == a.LossTime() + a.operating
            && 0 <= a.micro <= a.operating
  {
    RanksAddUp(w.start, w.end, stops, gaps);
    MicroIsOperating(w.start, w.end, stops, gaps);
  }

  function PartsAt(w: Window, deltas: seq<CounterDelta>): int {
    if deltas == [] then 0
    else (if w.start <= deltas[0].ts < w.end then deltas[0].Parts() else 0) + PartsAt(w, deltas[1..])
  }

  /** Every part of the window is counted or dropped, never both. */
  lemma {:induction false} PartsAreConserved(w: Window, deltas: seq<CounterDelta>, gaps: seq<Gap>)
    ensures var p := PartsIn(w, deltas, gaps); p.good + p.scrap + p.dropped == PartsAt(w, deltas)
  {
    if deltas != [] { PartsAreConserved(w, deltas[1..], gaps); }
  }

  // ------------------------------------------------------------ additivity

  lemma InstantsSplit(lo: int, mid: int, hi: int, stops: seq<ClassifiedStop>, gaps: seq<Gap>, c: Category)
    requires lo <= mid <= hi
    ensures |Instants(lo, hi, stops, gaps, c)|
            == |Instants(lo, mid, stops, gaps, c)| + |Instants(mid, hi, stops, gaps, c)|
  {
    SizeOfSplit(Instants(lo, hi, stops, gaps, c), Instants(lo, mid, stops, gaps, c), Instants(mid, hi, stops, gaps, c));
  }

  lemma MicroSplit(lo: int, mid: int, hi: int, stops: seq<ClassifiedStop>, gaps: seq<Gap>)
    requires lo <= mid <= hi
    ensures |MicroInstants(lo, hi, stops, gaps)|
            == |MicroInstants(lo, mid, stops, gaps)| + |MicroInstants(mid, hi, stops, gaps)|
  {
    SizeOfSplit(MicroInstants(lo, hi, stops, gaps), MicroInstants(lo, mid, stops, gaps),
        MicroInstants(mid, hi, stops, gaps));
  }

  lemma PlusNothing(p: Parts)
    ensures p.Plus(NO_PARTS) == p && NO_PARTS.Plus(p) == p
  {
  }

  lemma ShareSplit(w: Window, a: Window, b: Window, d: CounterDelta, worth: CounterDelta -> Parts)
    requires a.start == w.start <= a.end == b.start <= b.end == w.end
    ensures Share(w, d, worth) == Share(a, d, worth).Plus(Share(b, d, worth))
  {
    PlusNothing(worth(d));
  }

  lemma PlusSwaps(p: Parts, q: Parts, r: Parts, s: Parts)
    ensures p.Plus(q).Plus(r.Plus(s)) == p.Plus(r).Plus(q.Plus(s))
  {
  }

  lemma {:induction false} PartsSplit(w: Window, a: Window, b: Window, deltas: seq<CounterDelta>,
                                      worth: CounterDelta -> Parts)
    requires a.start == w.start <= a.end == b.start <= b.end == w.end
    ensures PartsBy(w, deltas, worth) == PartsBy(a, deltas, worth).Plus(PartsBy(b, deltas, worth))
    decreases |deltas|
  {
    if deltas == [] {
      PlusNothing(NO_PARTS);
    } else {
      var d, rest := deltas[0], deltas[1..];
      ShareSplit(w, a, b, d, worth);
      PartsSplit(w, a, b, rest, worth);
      PlusSwaps(Share(a, d, worth), Share(b, d, worth), PartsBy(a, rest, worth), PartsBy(b, rest, worth));
    }
  }

  lemma TalliesSplit(lo: int, mid: int, hi: int, stops: seq<ClassifiedStop>, gaps: seq<Gap>, c: Category)
    requires lo <= mid <= hi
    ensures Tally(lo, hi, stops, gaps)(c) == Tally(lo, mid, stops, gaps)(c) + Tally(mid, hi, stops, gaps)(c)
  {
    InstantsSplit(lo, mid, hi, stops, gaps, c);
  }

  lemma BookedAddsUp(n: int, m: int, t: Category -> int, f: Category -> int, g: Category -> int, x: int, y: int,
                     p: Parts, q: Parts)
    requires forall c :: t(c) == f(c) + g(c)
    ensures Booked(n + m, t, x + y, p.Plus(q)) == Booked(n, f, x, p).Plus(Booked(m, g, y, q))
  {
  }

  /** Cutting a window in two: every time and every part count of the whole is the sum of both. */
  lemma CutAddsUp(w: Window, a: Window, b: Window, stops: seq<ClassifiedStop>, deltas: seq<CounterDelta>,
                  gaps: seq<Gap>)
    requires a.start == w.start <= a.end == b.start <= b.end == w.end
    ensures AccountOf(w, stops, deltas, gaps)
            == AccountOf(a, stops, deltas, gaps).Plus(AccountOf(b, stops, deltas, gaps))
  {
    AllTalliesSplit(w.start, a.end, w.end, stops, gaps);
    MicroSplit(w.start, a.end, w.end, stops, gaps);
    PartsSplit(w, a, b, deltas, Valuation(gaps));
    WholeIsBooked(w, a, b, Tally(w.start, w.end, stops, gaps), Tally(a.start, a.end, stops, gaps),
        Tally(b.start, b.end, stops, gaps),
                  |MicroInstants(w.start, w.end, stops, gaps)|, |MicroInstants(a.start, a.end, stops, gaps)|,
                  |MicroInstants(b.start, b.end, stops, gaps)|,
                  PartsIn(w, deltas, gaps), PartsIn(a, deltas, gaps), PartsIn(b, deltas, gaps));
  }

  lemma WholeIsBooked(w: Window, a: Window, b: Window, t: Category -> int, f: Category -> int, g: Category -> int,
                      z: int, x: int, y: int, r: Parts, p: Parts, q: Parts)
    requires a.start == w.start <= a.end == b.start <= b.end == w.end
    requires (forall c :: t(c) == f(c) + g(c)) && z == x + y && r == p.Plus(q)
    ensures Booked(w.Length(), t, z, r) == Booked(a.Length(), f, x, p).Plus(Booked(b.Length(), g, y, q))
  {
    BookedAddsUp(a.Length(), b.Length(), t, f, g, x, y, p, q);
  }

  lemma AllTalliesSplit(lo: int, mid: int, hi: int, stops: seq<ClassifiedStop>, gaps: seq<Gap>)
    requires lo <= mid <= hi
    ensures forall c :: Tally(lo, hi, stops, gaps)(c) == Tally(lo, mid, stops, gaps)(c) + Tally(mid, hi, stops, gaps)(c)
  {
    forall c ensures Tally(lo, hi, stops, gaps)(c) == Tally(lo, mid, stops, gaps)(c) + Tally(mid, hi, stops, gaps)(c) {
      TalliesSplit(lo, mid, hi, stops, gaps, c);
    }
  }

  // ------------------------------------------------------------ partitions and combine

  /** Consecutive windows from `start` to `end`. */
  ghost predicate Tiles(ws: seq<Window>, start: int, end: int)
    decreases |ws|
  {
    if ws == [] then start == end
    else ws[0].start == start && start <= ws[0].end && Tiles(ws[1..], ws[0].end, end)
  }

  function Results(ws: seq<Window>, stops: seq<ClassifiedStop>, deltas: seq<CounterDelta>,
                   gaps: seq<Gap>): seq<OeeResult> {
    if ws == [] then [] else [OeeOf(ws[0], stops, deltas, gaps)] + Results(ws[1..], stops, deltas, gaps)
  }

  function SumOf(rs: seq<OeeResult>): Account {
    if rs == [] then NOTHING else rs[0].account.Plus(SumOf(rs[1..]))
  }

  function FirstStart(rs: seq<OeeResult>): int
    requires rs != []
  {
    if |rs| == 1 then rs[0].window.start else Min(rs[0].window.start, FirstStart(rs[1..]))
  }

  function LastEnd(rs: seq<OeeResult>): int
    requires rs != []
  {
    if |rs| == 1 then rs[0].window.end else Max(rs[0].window.end, LastEnd(rs[1..]))
  }

  predicate AnyAnomaly(rs: seq<OeeResult>) { exists r :: r in rs && r.anomaly }

  /** `combine`: sum times and parts, then recompute the ratios. */
  function Combine(rs: seq<OeeResult>, name: string): Result<OeeResult> {
    if rs == [] then Failure("nothing to combine")
    else
      var sum := SumOf(rs);
      Success(OeeResult(Window(name, FirstStart(rs), LastEnd(rs)), sum,
                        RatiosOf(sum.planned, sum.operating, sum.goodTct, sum.totalTct), AnyAnomaly(rs)))
  }

  /** The period of a combination reaches from the earliest start to the latest end, whatever the order. */
  lemma {:induction false} CombinedPeriod(rs: seq<OeeResult>)
    requires rs != []
    ensures forall r :: r in rs ==> FirstStart(rs) <= r.window.start && r.window.end <= LastEnd(rs)
    ensures exists r :: r in rs && r.window.start == FirstStart(rs)
    ensures exists r :: r in rs && r.window.end == LastEnd(rs)
    decreases |rs|
  {
    assert rs == [rs[0]] + rs[1..];
    if |rs| > 1 {
      CombinedPeriod(rs[1..]);
      var first :| first in rs[1..] && first.window.start == FirstStart(rs[1..]);
      var last :| last in rs[1..] && last.window.end == LastEnd(rs[1..]);
      assert rs[0] in rs && first in rs && last in rs;
    } else {
      assert rs[0] in rs;
    }
  }

  lemma {:induction false} TilesOrder(ws: seq<Window>, start: int, end: int)
    requires Tiles(ws, start, end)
    ensures start <= end
    decreases |ws|
  {
    if ws != [] { TilesOrder(ws[1..], ws[0].end, end); }
  }

  lemma EmptyAccount(w: Window, stops: seq<ClassifiedStop>, deltas: seq<CounterDelta>, gaps: seq<Gap>)
    requires w.start == w.end
    ensures AccountOf(w, stops, deltas, gaps) == NOTHING
  {
    forall c ensures Instants(w.start, w.end, stops, gaps, c) == {} {}
    assert MicroInstants(w.start, w.end, stops, gaps) == {};
    EmptyParts(w, deltas, gaps);
  }

  lemma {:induction false} EmptyParts(w: Window, deltas: seq<CounterDelta>, gaps: seq<Gap>)
    requires w.start == w.end
    ensures PartsIn(w, deltas, gaps) == NO_PARTS
  {
    if deltas != [] { EmptyParts(w, deltas[1..], gaps); }
  }

  lemma {:induction false} TilesAddUp(ws: seq<Window>, w: Window, stops: seq<ClassifiedStop>,
                                      deltas: seq<CounterDelta>, gaps: seq<Gap>)
    requires Tiles(ws, w.start, w.end)
    ensures SumOf(Results(ws, stops, deltas, gaps)) == AccountOf(w, stops, deltas, gaps)
    decreases |ws|
  {
    if ws == [] {
      EmptyAccount(w, stops, deltas, gaps);
    } else {
      var rest := Window("", ws[0].end, w.end);
      TilesOrder(ws[1..], ws[0].end, w.end);
      TilesAddUp(ws[1..], rest, stops, deltas, gaps);
      CutAddsUp(w, ws[0], rest, stops, deltas, gaps);
      var rs := Results(ws, stops, deltas, gaps);
      assert rs[1..] == Results(ws[1..], stops, deltas, gaps);
    }
  }

  lemma {:induction false} TilesHull(ws: seq<Window>, start: int, end: int, stops: seq<ClassifiedStop>,
                                     deltas: seq<CounterDelta>, gaps: seq<Gap>)
    requires Tiles(ws, start, end) && ws != []
    ensures var rs := Results(ws, stops, deltas, gaps); rs != [] && FirstStart(rs) == start && LastEnd(rs) == end
    decreases |ws|
  {
    var rs := Results(ws, stops, deltas, gaps);
    assert rs[1..] == Results(ws[1..], stops, deltas, gaps);
    if |ws| == 1 {
      assert ws[1..] == [];
    } else {
      TilesHull(ws[1..], ws[0].end, end, stops, deltas, gaps);
      assert |rs| > 1;
      TilesOrder(ws[1..], ws[0].end, end);
    }
  }

  /** Splitting a window changes nothing: combining the results of any partition gives every time,
      every count and every ratio of the whole. */
  lemma SplittingChangesNothing(ws: seq<Window>, w: Window, stops: seq<ClassifiedStop>, deltas: seq<CounterDelta>,
                                gaps: seq<Gap>)
    requires ws != [] && Tiles(ws, w.start, w.end)
    ensures var whole, parts := OeeOf(w, stops, deltas, gaps), Combine(Results(ws, stops, deltas, gaps), w.name);
            && parts.Success? && parts.value.window == w
            && parts.value.account == whole.account && parts.value.ratios == whole.ratios
  {
    TilesAddUp(ws, w, stops, deltas, gaps);
    TilesHull(ws, w.start, w.end, stops, deltas, gaps);
  }

  // ------------------------------------------------------------ the reference invariant

  lemma Cancel(a: real, b: real, c: real)
    requires b > 0.0 && c > 0.0
    ensures (a / b) * (b / c) == a / c
  {
    var x, y := a / b, b / c;
    assert x * b == a;
    assert y * c == b;
    assert (x * y) * c == x * (y * c);
  }

  lemma ProductIsOee(pl: real, op: real, total: real, good: real)
    requires pl > 0.0 && op > 0.0 && total > 0.0
    ensures Product(op / pl, total / op, good / total) == good / pl
  {
    Cancel(total, op, pl);
    Cancel(good, total, pl);
    var a, p, q := op / pl, total / op, good / total;
    assert a * p == p * a;
    assert (a * p) * q == q * (a * p);
  }

  /** Whenever something was required, OEE is useful time over required time, and it is the product
      A x P x Q whenever the three are defined. */
  lemma OeeIsUsefulOverRequired(planned: int, operating: int, goodTct: real, totalTct: real)
    requires planned > 0
    ensures var r := RatiosOf(planned, operating, goodTct, totalTct);
            && r.oee == Some(goodTct / planned as real)
            && r.availability.Some?
            && (r.performance.Some? && r.quality.Some? ==>
                  Product(r.availability.value, r.performance.value, r.quality.value) == goodTct / planned as real)
  {
    if operating > 0 && totalTct > 0.0 {
      var pl, op := planned as real, operating as real;
      ProductIsOee(pl, op, totalTct, goodTct);
      assert RatiosOf(planned, operating, goodTct, totalTct).oee
             == Some(Product(op / pl, totalTct / op, goodTct / totalTct));
    }
  }

  /** `check_invariant` with no tolerance: None where it accepts. */
  function CheckInvariant(r: OeeResult): Option<string> {
    var a := r.account;
    if a.gap + a.plannedStop + a.LossTime() + a.operating != r.window.Length() then Some("time accounting broken")
    else if a.planned <= 0 then
      if r.ratios == Ratios(None, None, None, None) then None else Some("ratios must be None without planned time")
    else if r.ratios.oee != Some(a.goodTct / a.planned as real) then Some("OEE differs from good x TCT / planned")
    else if r.ratios.availability.Some? && r.ratios.performance.Some? && r.ratios.quality.Some?
            && Product(r.ratios.availability.value, r.ratios.performance.value,
                r.ratios.quality.value) != r.ratios.oee.value
    then Some("A x P x Q differs from OEE")
    else None
  }

  lemma ChecksLength(r: OeeResult)
    requires r.ratios == RatiosOf(r.account.planned, r.account.operating, r.account.goodTct, r.account.totalTct)
    ensures CheckInvariant(r).None? <==>
            r.account.gap + r.account.plannedStop + r.account.LossTime() + r.account.operating == r.window.Length()
  {
    if r.account.planned > 0 {
      OeeIsUsefulOverRequired(r.account.planned, r.account.operating, r.account.goodTct, r.account.totalTct);
    }
  }

  /** `check_invariant` refuses exactly the results that break an identity: the times do not add up to the window,
      a ratio is given without required time, or OEE is not useful over required time or not the product of the
      three where they are given. */
  lemma CheckRefusesExactly(r: OeeResult)
    ensures var a, q := r.account, r.ratios;
            CheckInvariant(r).Some?
            <==> || a.gap + a.plannedStop + a.LossTime() + a.operating != r.window.end - r.window.start
                 || (a.planned <= 0
                     && (q.availability.Some? || q.performance.Some? || q.quality.Some? || q.oee.Some?))
                 || (a.planned > 0 && q.oee != Some(a.goodTct / a.planned as real))
                 || (a.planned > 0 && q.oee.Some? && q.availability.Some? && q.performance.Some? && q.quality.Some?
                     && Product(q.availability.value, q.performance.value, q.quality.value) != q.oee.value)
  {
    if r.account.planned <= 0 {
      assert r.ratios == Ratios(r.ratios.availability, r.ratios.performance, r.ratios.quality, r.ratios.oee);
    }
  }

  /** Every computed result passes `check_invariant` exactly. */
  lemma ComputedPassesCheck(w: Window, stops: seq<ClassifiedStop>, deltas: seq<CounterDelta>, gaps: seq<Gap>)
    requires w.start <= w.end
    ensures CheckInvariant(OeeOf(w, stops, deltas, gaps)).None?
  {
    TimeIsConserved(w, stops, deltas, gaps);
    ChecksLength(OeeOf(w, stops, deltas, gaps));
  }

  function LengthOf(ws: seq<Window>): int { if ws == [] then 0 else ws[0].Length() + LengthOf(ws[1..]) }

  lemma {:induction false} SumAccounts(ws: seq<Window>, stops: seq<ClassifiedStop>, deltas: seq<CounterDelta>,
                                       gaps: seq<Gap>)
    requires forall i :: 0 <= i < |ws| ==> ws[i].start <= ws[i].end
    ensures var s := SumOf(Results(ws, stops, deltas, gaps));
            s.gap + s.plannedStop + s.LossTime() + s.operating == LengthOf(ws)
    decreases |ws|
  {
    if ws != [] {
      TimeIsConserved(ws[0], stops, deltas, gaps);
      SumAccounts(ws[1..], stops, deltas, gaps);
      assert Results(ws, stops, deltas, gaps)[1..] == Results(ws[1..], stops, deltas, gaps);
    }
  }

  /** The combination of any windows passes `check_invariant` exactly when their lengths add up to the length
      of the period from the first start to the last end. */
  lemma CombinedPassesCheckIff(ws: seq<Window>, name: string, stops: seq<ClassifiedStop>, deltas: seq<CounterDelta>,
                               gaps: seq<Gap>)
    requires ws != [] && forall i :: 0 <= i < |ws| ==> ws[i].start <= ws[i].end
    ensures var rs := Results(ws, stops, deltas, gaps);
            && Combine(rs, name).Success?
            && (CheckInvariant(Combine(rs, name).value).None? <==> LengthOf(ws) == LastEnd(rs) - FirstStart(rs))
  {
    SumAccounts(ws, stops, deltas, gaps);
    ChecksLength(Combine(Results(ws, stops, deltas, gaps), name).value);
  }

  lemma PairOfResults(rs: seq<OeeResult>)
    requires |rs| == 2
    ensures var a, b := rs[0].window, rs[1].window;
            FirstStart(rs) == Min(a.start, b.start) && LastEnd(rs) == Max(a.end, b.end)
  {
    assert FirstStart(rs[1..]) == rs[1].window.start && LastEnd(rs[1..]) == rs[1].window.end;
  }

  lemma PairOfWindows(ws: seq<Window>, stops: seq<ClassifiedStop>, deltas: seq<CounterDelta>, gaps: seq<Gap>,
                      rs: seq<OeeResult>)
    requires |ws| == 2 && rs == Results(ws, stops, deltas, gaps)
    ensures |rs| == 2 && rs[0].window == ws[0] && rs[1].window == ws[1]
    ensures LengthOf(ws) == ws[0].Length() + ws[1].Length()
  {
    assert ws[1..][1..] == [];
    assert Results([], stops, deltas, gaps) == [];
    assert LengthOf([]) == 0;
  }

  /** Two windows with a hole between them: the combination claims thirty instants and accounts for twenty. */
  lemma HoleFailsCheck(ws: seq<Window>, name: string, stops: seq<ClassifiedStop>, deltas: seq<CounterDelta>,
                       gaps: seq<Gap>, c: Result<OeeResult>)
    requires ws == [Window("early", 0, 10), Window("late", 20, 30)]
    requires c == Combine(Results(ws, stops, deltas, gaps), name)
    ensures c.Success? && c.value.window == Window(name, 0, 30)
    ensures CheckInvariant(c.value) == Some("time accounting broken")
  {
    var rs := Results(ws, stops, deltas, gaps);
    PairOfWindows(ws, stops, deltas, gaps, rs);
    PairOfResults(rs);
    SumAccounts(ws, stops, deltas, gaps);
  }

  // ------------------------------------------------------------ the micro-stop threshold

  lemma KindsShift(stops: seq<StopRecord>, until: int, low: int, high: int, state: int, y: int)
    requires low <= high
    ensures var a, b := Classified(stops, until, low), Classified(stops, until, high);
            && (Covered(a, Planned, 0, y) <==> Covered(b, Planned, 0, y))
            && (Covered(b, Loss, state, y) ==> Covered(a, Loss, state, y))
            && (Covered(a, Micro, state, y) ==> Covered(b, Micro, state, y))
  {
    var a, b := Classified(stops, until, low), Classified(stops, until, high);
    if Covered(b, Loss, state, y) {
      var i :| 0 <= i < |b| && Matches(b[i], Loss, state, y);
      assert Matches(a[i], Loss, state, y);
    }
    if Covered(a, Micro, state, y) {
      var i :| 0 <= i < |a| && Matches(a[i], Micro, state, y);
      assert Matches(b[i], Micro, state, y);
    }
    if Covered(a, Planned, 0, y) {
      var i :| 0 <= i < |a| && Matches(a[i], Planned, 0, y);
      assert Matches(b[i], Planned, 0, y);
    }
    if Covered(b, Planned, 0, y) {
      var i :| 0 <= i < |b| && Matches(b[i], Planned, 0, y);
      assert Matches(a[i], Planned, 0, y);
    }
  }

  /** Raising the threshold never lowers operating time, micro-stop time or availability, and leaves
      the required time unchanged, even where stops overlap. */
  lemma ThresholdIsMonotone(w: Window, stops: seq<StopRecord>, until: int, low: int, high: int,
                            deltas: seq<CounterDelta>, gaps: seq<Gap>)
    requires w.start <= w.end && low <= high
    ensures var a, b := OeeOf(w, Classified(stops, until, low), deltas, gaps),
                        OeeOf(w, Classified(stops, until, high), deltas, gaps);
            && a.account.planned == b.account.planned
            && a.account.operating <= b.account.operating
            && a.account.micro <= b.account.micro
            && (a.ratios.availability.Some? ==>
                  b.ratios.availability.Some? && a.ratios.availability.value <= b.ratios.availability.value)
  {
    var s, t := Classified(stops, until, low), Classified(stops, until, high);
    forall y ensures AccountMoves(s, t, gaps, y) { ThresholdMoves(stops, until, low, high, gaps, y); }
    TalliesMove(w.start, w.end, s, t, gaps);
    var a, b := AccountOf(w, s, deltas, gaps), AccountOf(w, t, deltas, gaps);
    assert a.planned == b.planned && a.operating <= b.operating && a.micro <= b.micro;
    if a.planned > 0 { QuotientGrows(a.operating, b.operating, a.planned); }
  }

  lemma TalliesMove(lo: int, hi: int, s: seq<ClassifiedStop>, t: seq<ClassifiedStop>, gaps: seq<Gap>)
    requires forall y :: AccountMoves(s, t, gaps, y)
    ensures Tally(lo, hi, s, gaps)(PlannedStop) == Tally(lo, hi, t, gaps)(PlannedStop)
    ensures Tally(lo, hi, s, gaps)(Unobserved) == Tally(lo, hi, t, gaps)(Unobserved)
    ensures Tally(lo, hi, s, gaps)(Operating) <= Tally(lo, hi, t, gaps)(Operating)
    ensures |MicroInstants(lo, hi, s, gaps)| <= |MicroInstants(lo, hi, t, gaps)|
  {
    forall y
      ensures CategoryOf(s, gaps, y) == Operating ==> CategoryOf(t, gaps, y) == Operating
      ensures CategoryOf(s, gaps, y) == PlannedStop <==> CategoryOf(t, gaps, y) == PlannedStop
      ensures CategoryOf(s, gaps, y) == Unobserved <==> CategoryOf(t, gaps, y) == Unobserved
      ensures Covered(s, Micro, 0, y) ==> Covered(t, Micro, 0, y)
    {
      assert AccountMoves(s, t, gaps, y);
    }
    assert Instants(lo, hi, s, gaps, PlannedStop) == Instants(lo, hi, t, gaps, PlannedStop);
    assert Instants(lo, hi, s, gaps, Unobserved) == Instants(lo, hi, t, gaps, Unobserved);
    SizeOfSubset(Instants(lo, hi, s, gaps, Operating), Instants(lo, hi, t, gaps, Operating));
    SizeOfSubset(MicroInstants(lo, hi, s, gaps), MicroInstants(lo, hi, t, gaps));
  }

  /** How one instant may change accounts when the threshold is raised. */
  ghost predicate AccountMoves(s: seq<ClassifiedStop>, t: seq<ClassifiedStop>, gaps: seq<Gap>, y: int) {
    var before, after := CategoryOf(s, gaps, y), CategoryOf(t, gaps, y);
    && (before == Operating ==> after == Operating)
    && (before == PlannedStop <==> after == PlannedStop)
    && (before == Unobserved <==> after == Unobserved)
    && (Covered(s, Micro, 0, y) ==> Covered(t, Micro, 0, y))
  }

  lemma ThresholdMoves(stops: seq<StopRecord>, until: int, low: int, high: int, gaps: seq<Gap>, y: int)
    requires low <= high
    ensures AccountMoves(Classified(stops, until, low), Classified(stops, until, high), gaps, y)
  {
    KindsShift(stops, until, low, high, 0, y);
    KindsShift(stops, until, low, high, FAULT, y);
    KindsShift(stops, until, low, high, SETUP, y);
    KindsShift(stops, until, low, high, STARVED, y);
    KindsShift(stops, until, low, high, BLOCKED, y);
    KindsShift(stops, until, low, high, MANUAL, y);
  }

  lemma QuotientGrows(a: int, b: int, d: int)
    requires a <= b && d > 0
    ensures a as real / d as real <= b as real / d as real
  {
  }
}
