/** backend/app/oee/pareto.py: availability losses by cause, station or fault code. */
module Pareto {
  import opened Basics
  import opened Facts
  import opened Counters
  import opened Intervals
  import opened Oee
  import opened OeeLaws

  datatype Fact = Fact(start: int, end: Option<int>, state: int, station: string, fault: int, cause: Option<string>)

  datatype By = ByCause | ByStation | ByFaultCode

  datatype Metric = ByDuration | ByCount

  const UNQUALIFIED := "unqualified"

  function KeyOf(f: Fact, how: By): string {
    match how
    case ByCause => if f.cause.Some? && f.cause.value != "" then f.cause.value else UNQUALIFIED
    case ByStation => f.station
    case ByFaultCode => if f.fault != 0 then Decimal(f.fault) else "state_" + Decimal(f.state)
  }

  datatype Row = Row(duration: int, count: int, unqualified: int, unqualifiedCount: int)

  /** The dictionary being filled, with its insertion order, and the micro-stop counters. */
  datatype Totals = Totals(keys: seq<string>, rows: map<string, Row>, microCount: int, microDuration: int)

  const NO_TOTALS := Totals([], map[], 0, 0)

  datatype Period = Period(w: Window, gaps: seq<Gap>, bound: int, micro: int)

  function RecordOf(f: Fact): StopRecord { StopRecord(f.start, f.end, f.state) }

  function EndOfFact(p: Period, f: Fact): int { EndOf(RecordOf(f), p.bound) }

  /** The observed instants of the window inside one stop. */
  function Overlap(p: Period, f: Fact): set<int> {
    set y | p.w.start <= y < p.w.end && !InGap(p.gaps, y) && f.start <= y < EndOfFact(p, f)
  }

  predicate StartsHere(p: Period, f: Fact) { p.w.start <= f.start < p.w.end }

  predicate Misses(p: Period, f: Fact) { EndOfFact(p, f) <= p.w.start || f.start >= p.w.end }

  predicate IsLoss(p: Period, f: Fact) { KindOf(RecordOf(f), p.bound, p.micro) == Loss }

  function Bump(r: Row, time: int, here: bool, unqualified: bool): Row {
    var one := if here then 1 else 0;
    Row(r.duration + time, r.count + one, r.unqualified + (if unqualified then time else 0),
        r.unqualifiedCount + (if unqualified then one else 0))
  }

  function RowAt(t: Totals, key: string): Row { if key in t.rows then t.rows[key] else Row(0, 0, 0, 0) }

  /** One stop joins its bucket, the micro-stop counters, or nothing. */
  function AddFact(p: Period, how: By, t: Totals, f: Fact): Totals {
    if f.state == PLANNED_STOP || Misses(p, f) then t
    else if !IsLoss(p, f) then
      if StartsHere(p, f) then t.(microCount := t.microCount + 1, microDuration := t.microDuration + |Overlap(p, f)|)
          else t
    else
      var key := KeyOf(f, how);
      t.(keys := if key in t.rows then t.keys else t.keys + [key],
         rows := t.rows[key := Bump(RowAt(t, key), |Overlap(p, f)|, StartsHere(p, f), f.cause.None?)])
  }

  function AddAll(p: Period, how: By, t: Totals, fs: seq<Fact>): Totals
    decreases |fs|
  {
    if fs == [] then t else AddAll(p, how, AddFact(p, how, t, fs[0]), fs[1..])
  }

  // ------------------------------------------------------------ buckets

  datatype Bucket = Bucket(key: string, row: Row)

  function BucketsOf(rows: map<string, Row>, keys: seq<string>): seq<Bucket> {
    if keys == [] then []
    else (if keys[0] in rows then [Bucket(keys[0], rows[keys[0]])] else []) + BucketsOf(rows, keys[1..])
  }

  function ValueOf(b: Bucket, m: Metric): int { if m == ByDuration then b.row.duration else b.row.count }

  /** Sort key (key == UNQUALIFIED, -value). */
  predicate NotAfter(a: Bucket, b: Bucket, m: Metric) {
    if a.key == UNQUALIFIED then b.key == UNQUALIFIED && ValueOf(a, m) >= ValueOf(b, m)
    else b.key == UNQUALIFIED || ValueOf(a, m) >= ValueOf(b, m)
  }

  function InsertBucket(b: Bucket, sorted: seq<Bucket>, m: Metric): seq<Bucket> {
    if sorted == [] || NotAfter(b, sorted[0], m) then [b] + sorted else [sorted[0]] + InsertBucket(b, sorted[1..], m)
  }

  function SortBuckets(bs: seq<Bucket>, m: Metric): seq<Bucket> {
    if bs == [] then [] else InsertBucket(bs[0], SortBuckets(bs[1..], m), m)
  }

  datatype ParetoResult = ParetoResult(buckets: seq<Bucket>, microCount: int, microDuration: int)

  function ParetoOf(p: Period, how: By, m: Metric, fs: seq<Fact>): ParetoResult {
    var t := AddAll(p, how, NO_TOTALS, fs);
    ParetoResult(SortBuckets(BucketsOf(t.rows, t.keys), m), t.microCount, t.microDuration)
  }

  // ------------------------------------------------------------ the method

  method ComputePareto(p: Period, how: By, m: Metric, fs: seq<Fact>) returns (r: ParetoResult)
    requires p.w.start <= p.w.end
    ensures r == ParetoOf(p, how, m, fs)
  {
    var _, observed := ObservedIn(p.w, p.gaps);
    var t := NO_TOTALS;
    for i := 0 to |fs|
      invariant AddAll(p, how, NO_TOTALS, fs) == AddAll(p, how, t, fs[i..])
    {
      assert fs[i..][0] == fs[i] && fs[i..][1..] == fs[i + 1..];
      t := CountFact(p, how, fs[i], observed, t);
    }
    r := ParetoResult(SortBuckets(BucketsOf(t.rows, t.keys), m), t.microCount, t.microDuration);
  }

  /** The body of the loop: one stop. */
  method CountFact(p: Period, how: By, f: Fact, observed: seq<Interval>, before: Totals) returns (t: Totals)
    requires p.w.start <= p.w.end && Shows(p.w, observed, Open(p.w, p.gaps))
    ensures t == AddFact(p, how, before, f)
  {
    t := before;
    if f.state == PLANNED_STOP { return; }
    var end := if f.end.Some? then f.end.value else Max(p.bound, f.start);
    if end <= p.w.start || f.start >= p.w.end { return; }
    var time := OverlapOf(p, f, observed);
    var here := p.w.start <= f.start < p.w.end;
    if end - f.start < p.micro {
      if here {
        t := t.(microCount := t.microCount + 1, microDuration := t.microDuration + time);
      }
      return;
    }
    var key := KeyOf(f, how);
    if key !in t.rows {
      t := t.(keys := t.keys + [key], rows := t.rows[key := Row(0, 0, 0, 0)]);
    }
    t := t.(rows := t.rows[key := Bump(t.rows[key], time, here, f.cause.None?)]);
    assert t.rows == before.rows[key := Bump(RowAt(before, key), time, here, f.cause.None?)];
  }

  method OverlapOf(p: Period, f: Fact, observed: seq<Interval>) returns (time: int)
    requires p.w.start <= p.w.end && Shows(p.w, observed, Open(p.w, p.gaps))
    ensures time == |Overlap(p, f)|
  {
    var span := Interval(f.start - p.w.start, EndOfFact(p, f) - p.w.start);
    var clipped := Clip([span], 0, p.w.Length());
    var inside := Intersect(clipped, observed);
    PointsOne(span);
    forall y ensures y in Overlap(p, f) <==> y - p.w.start in Points(inside) {
      assert y in Open(p.w, p.gaps) <==> y - p.w.start in Points(observed);
    }
    ShownTotal(p.w, inside, Overlap(p, f));
    time := Total(inside);
  }

  // ------------------------------------------------------------ the sum of the buckets

  function DurationOf(bs: seq<Bucket>): int { if bs == [] then 0 else bs[0].row.duration + DurationOf(bs[1..]) }

  /** The time of every loss stop in the window, stop by stop. */
  function LossOverlap(p: Period, fs: seq<Fact>): int {
    if fs == [] then 0 else (if IsLoss(p, fs[0]) then |Overlap(p, fs[0])| else 0) + LossOverlap(p, fs[1..])
  }

  ghost predicate WellKeyed(t: Totals) {
    && (forall k :: k in t.rows <==> k in t.keys)
    && (forall i, j :: 0 <= i < j < |t.keys| ==> t.keys[i] != t.keys[j])
  }

  lemma {:induction false} BucketsAppend(rows: map<string, Row>, a: seq<string>, b: seq<string>)
    ensures BucketsOf(rows, a + b) == BucketsOf(rows, a) + BucketsOf(rows, b)
    decreases |a|
  {
    if a == [] {
      assert a + b == b;
    } else {
      assert (a + b)[0] == a[0] && (a + b)[1..] == a[1..] + b;
      BucketsAppend(rows, a[1..], b);
    }
  }

  lemma {:induction false} DurationAppend(a: seq<Bucket>, b: seq<Bucket>)
    ensures DurationOf(a + b) == DurationOf(a) + DurationOf(b)
    decreases |a|
  {
    if a == [] {
      assert a + b == b;
    } else {
      assert (a + b)[0] == a[0] && (a + b)[1..] == a[1..] + b;
      DurationAppend(a[1..], b);
    }
  }

  lemma {:induction false} OtherKeys(rows: map<string, Row>, keys: seq<string>, key: string, row: Row)
    requires key !in keys
    ensures BucketsOf(rows[key := row], keys) == BucketsOf(rows, keys)
    decreases |keys|
  {
    if keys != [] {
      var k := keys[0];
      assert k in keys && k != key;
      OtherKeys(rows, keys[1..], key, row);
    }
  }

  lemma BucketsOne(rows: map<string, Row>, key: string)
    requires key in rows
    ensures BucketsOf(rows, [key]) == [Bucket(key, rows[key])]
    ensures DurationOf(BucketsOf(rows, [key])) == rows[key].duration
  {
    assert [key][1..] == [];
    assert BucketsOf(rows, []) == [];
    assert [Bucket(key, rows[key])][1..] == [];
  }

  /** Updating one row changes the sum by the change of that row. */
  lemma UpdatedRow(t: Totals, key: string, row: Row)
    requires WellKeyed(t)
    ensures var keys := if key in t.rows then t.keys else t.keys + [key];
            && WellKeyed(t.(keys := keys, rows := t.rows[key := row]))
            && DurationOf(BucketsOf(t.rows[key := row], keys))
               == DurationOf(BucketsOf(t.rows, t.keys)) - RowAt(t, key).duration + row.duration
  {
    var rows := t.rows[key := row];
    if key in t.rows {
      var i :| 0 <= i < |t.keys| && t.keys[i] == key;
      ReplacedRow(t, i, row);
    } else {
      assert key !in t.keys;
      OtherKeys(t.rows, t.keys, key, row);
      BucketsAppend(rows, t.keys, [key]);
      BucketsOne(rows, key);
      DurationAppend(BucketsOf(rows, t.keys), BucketsOf(rows, [key]));
    }
  }

  lemma ReplacedRow(t: Totals, i: nat, row: Row)
    requires WellKeyed(t) && i < |t.keys|
    ensures var key := t.keys[i];
            && key in t.rows
            && DurationOf(BucketsOf(t.rows[key := row], t.keys))
               == DurationOf(BucketsOf(t.rows, t.keys)) - t.rows[key].duration + row.duration
  {
    var key := t.keys[i];
    assert key in t.keys;
    var a, b := t.keys[..i], t.keys[i + 1..];
    assert t.keys == a + ([key] + b);
    assert key !in a && key !in b;
    AroundKey(t.rows, a, key, b);
    AroundKey(t.rows[key := row], a, key, b);
    OtherKeys(t.rows, a, key, row);
    OtherKeys(t.rows, b, key, row);
  }

  lemma AroundKey(rows: map<string, Row>, a: seq<string>, key: string, b: seq<string>)
    requires key in rows
    ensures DurationOf(BucketsOf(rows, a + ([key] + b)))
            == DurationOf(BucketsOf(rows, a)) + rows[key].duration + DurationOf(BucketsOf(rows, b))
  {
    BucketsAppend(rows, a, [key] + b);
    BucketsAppend(rows, [key], b);
    BucketsOne(rows, key);
    DurationAppend(BucketsOf(rows, a), BucketsOf(rows, [key] + b));
    DurationAppend(BucketsOf(rows, [key]), BucketsOf(rows, b));
  }

  lemma NoOverlap(p: Period, f: Fact)
    requires Misses(p, f)
    ensures Overlap(p, f) == {}
  {
  }

  lemma {:induction false} TotalsAddUp(p: Period, how: By, t: Totals, fs: seq<Fact>)
    requires WellKeyed(t)
    ensures var all := AddAll(p, how, t, fs);
            && WellKeyed(all)
            && DurationOf(BucketsOf(all.rows, all.keys)) == DurationOf(BucketsOf(t.rows, t.keys)) + LossOverlap(p, fs)
    decreases |fs|
  {
    if fs != [] {
      var f := fs[0];
      var next := AddFact(p, how, t, f);
      if IsLoss(p, f) && !Misses(p, f) {
        var key := KeyOf(f, how);
        UpdatedRow(t, key, Bump(RowAt(t, key), |Overlap(p, f)|, StartsHere(p, f), f.cause.None?));
      } else {
        assert next.rows == t.rows && next.keys == t.keys;
        if Misses(p, f) { NoOverlap(p, f); }
      }
      TotalsAddUp(p, how, next, fs[1..]);
    }
  }

  lemma {:induction false} InsertKeepsDuration(b: Bucket, sorted: seq<Bucket>, m: Metric)
    ensures DurationOf(InsertBucket(b, sorted, m)) == b.row.duration + DurationOf(sorted)
    decreases |sorted|
  {
    var r := InsertBucket(b, sorted, m);
    if sorted == [] || NotAfter(b, sorted[0], m) {
      assert r[1..] == sorted;
    } else {
      InsertKeepsDuration(b, sorted[1..], m);
      assert r[1..] == InsertBucket(b, sorted[1..], m);
    }
  }

  lemma {:induction false} SortKeepsDuration(bs: seq<Bucket>, m: Metric)
    ensures DurationOf(SortBuckets(bs, m)) == DurationOf(bs)
    decreases |bs|
  {
    if bs != [] {
      SortKeepsDuration(bs[1..], m);
      InsertKeepsDuration(bs[0], SortBuckets(bs[1..], m), m);
    }
  }

  /** The bucket durations add up to the loss time stop by stop: the same for every grouping. */
  lemma BucketsAddUp(p: Period, how: By, m: Metric, fs: seq<Fact>)
    ensures DurationOf(ParetoOf(p, how, m, fs).buckets) == LossOverlap(p, fs)
  {
    var t := AddAll(p, how, NO_TOTALS, fs);
    TotalsAddUp(p, how, NO_TOTALS, fs);
    SortKeepsDuration(BucketsOf(t.rows, t.keys), m);
  }

  // ------------------------------------------------------------ order and shares

  ghost predicate Ranked(bs: seq<Bucket>, m: Metric) {
    forall i, j :: 0 <= i < j < |bs| ==> NotAfter(bs[i], bs[j], m)
  }

  lemma {:induction false} InsertKeeps(b: Bucket, sorted: seq<Bucket>, m: Metric)
    ensures multiset(InsertBucket(b, sorted, m)) == multiset{b} + multiset(sorted)
    decreases |sorted|
  {
    if sorted == [] || NotAfter(b, sorted[0], m) {
      assert multiset([b] + sorted) == multiset{b} + multiset(sorted);
    } else {
      InsertKeeps(b, sorted[1..], m);
      assert sorted == [sorted[0]] + sorted[1..];
    }
  }

  lemma {:induction false} InsertRanks(b: Bucket, sorted: seq<Bucket>, m: Metric)
    requires Ranked(sorted, m)
    ensures Ranked(InsertBucket(b, sorted, m), m)
    decreases |sorted|
  {
    if sorted != [] && !NotAfter(b, sorted[0], m) {
      var first, rest := sorted[0], sorted[1..];
      InsertRanks(b, rest, m);
      InsertKeeps(b, rest, m);
      forall k | 0 <= k < |rest| ensures NotAfter(first, rest[k], m) { assert sorted[k + 1] == rest[k]; }
      TailFollows(first, b, rest, InsertBucket(b, rest, m), m);
    } else if sorted != [] {
      BeforeAll(b, sorted, m);
    }
  }

  lemma BeforeAll(b: Bucket, sorted: seq<Bucket>, m: Metric)
    requires Ranked(sorted, m) && sorted != [] && NotAfter(b, sorted[0], m)
    ensures forall k :: 0 <= k < |sorted| ==> NotAfter(b, sorted[k], m)
  {
    forall k | 0 < k < |sorted| ensures NotAfter(b, sorted[k], m) { assert NotAfter(sorted[0], sorted[k], m); }
  }

  lemma TailFollows(first: Bucket, b: Bucket, rest: seq<Bucket>, tail: seq<Bucket>, m: Metric)
    requires multiset(tail) == multiset{b} + multiset(rest)
    requires NotAfter(first, b, m) && forall k :: 0 <= k < |rest| ==> NotAfter(first, rest[k], m)
    ensures forall j :: 0 <= j < |tail| ==> NotAfter(first, tail[j], m)
  {
    forall j | 0 <= j < |tail| ensures NotAfter(first, tail[j], m) {
      assert tail[j] in multiset(tail);
      assert tail[j] == b || tail[j] in multiset(rest);
    }
  }

  /** The buckets come sorted, the unqualified one last, and are those of the dictionary. */
  lemma {:induction false} BucketsAreRanked(bs: seq<Bucket>, m: Metric)
    ensures Ranked(SortBuckets(bs, m), m) && multiset(SortBuckets(bs, m)) == multiset(bs)
    decreases |bs|
  {
    if bs != [] {
      BucketsAreRanked(bs[1..], m);
      InsertRanks(bs[0], SortBuckets(bs[1..], m), m);
      InsertKeeps(bs[0], SortBuckets(bs[1..], m), m);
      assert bs == [bs[0]] + bs[1..];
    }
  }

  ghost predicate SharesOk(rows: map<string, Row>) {
    forall k :: k in rows ==>
      && 0 <= rows[k].unqualified <= rows[k].duration
      && 0 <= rows[k].unqualifiedCount <= rows[k].count
  }

  lemma {:induction false} SharesStayOk(p: Period, how: By, t: Totals, fs: seq<Fact>)
    requires SharesOk(t.rows)
    ensures SharesOk(AddAll(p, how, t, fs).rows)
    decreases |fs|
  {
    if fs != [] {
      assert SharesOk(AddFact(p, how, t, fs[0]).rows);
      SharesStayOk(p, how, AddFact(p, how, t, fs[0]), fs[1..]);
    }
  }

  lemma {:induction false} BucketRows(rows: map<string, Row>, keys: seq<string>, b: Bucket)
    requires b in BucketsOf(rows, keys)
    ensures b.key in rows && b.row == rows[b.key]
    decreases |keys|
  {
    if keys != [] && b in BucketsOf(rows, keys[1..]) { BucketRows(rows, keys[1..], b); }
  }

  /** The unqualified share of every bucket is at most the bucket. */
  lemma SharesAreParts(p: Period, how: By, m: Metric, fs: seq<Fact>, b: Bucket)
    requires b in ParetoOf(p, how, m, fs).buckets
    ensures 0 <= b.row.unqualified <= b.row.duration && 0 <= b.row.unqualifiedCount <= b.row.count
  {
    var t := AddAll(p, how, NO_TOTALS, fs);
    SharesStayOk(p, how, NO_TOTALS, fs);
    BucketsAreRanked(BucketsOf(t.rows, t.keys), m);
    assert b in multiset(SortBuckets(BucketsOf(t.rows, t.keys), m));
    BucketRows(t.rows, t.keys, b);
  }

  // ------------------------------------------------------------ against the OEE

  function Records(fs: seq<Fact>): seq<StopRecord> {
    if fs == [] then [] else [RecordOf(fs[0])] + Records(fs[1..])
  }

  /** The instants of the window inside some loss stop. */
  function LossSet(p: Period, fs: seq<Fact>): set<int> {
    if fs == [] then {} else (if IsLoss(p, fs[0]) then Overlap(p, fs[0]) else {}) + LossSet(p, fs[1..])
  }

  function PlannedSet(p: Period, fs: seq<Fact>): set<int> {
    if fs == [] then {} else (if fs[0].state == PLANNED_STOP then Overlap(p, fs[0]) else {}) + PlannedSet(p, fs[1..])
  }

  /** No two loss stops share an observed instant of the window. */
  ghost predicate LossesDisjoint(p: Period, fs: seq<Fact>) {
    forall i, j :: 0 <= i < j < |fs| && IsLoss(p, fs[i]) && IsLoss(p, fs[j]) ==> Overlap(p, fs[i]) !! Overlap(p, fs[j])
  }

  lemma {:induction false} InLossSet(p: Period, fs: seq<Fact>, y: int)
    ensures y in LossSet(p, fs) <==> exists i :: 0 <= i < |fs| && IsLoss(p, fs[i]) && y in Overlap(p, fs[i])
    decreases |fs|
  {
    if fs != [] {
      var rest := fs[1..];
      InLossSet(p, rest, y);
      if y in LossSet(p, rest) {
        var i :| 0 <= i < |rest| && IsLoss(p, rest[i]) && y in Overlap(p, rest[i]);
        assert fs[i + 1] == rest[i];
      }
      if i :| 0 <= i < |fs| && IsLoss(p, fs[i]) && y in Overlap(p, fs[i]) {
        if i > 0 { assert rest[i - 1] == fs[i]; }
      }
    }
  }

  lemma SizeOfUnion(a: set<int>, b: set<int>)
    ensures |a + b| + |a * b| == |a| + |b|
  {
  }

  /** Stop by stop is never less than the union, and equal exactly when nothing overlaps. */
  lemma {:induction false} OverlapsExceedUnion(p: Period, fs: seq<Fact>)
    ensures LossOverlap(p, fs) >= |LossSet(p, fs)|
    ensures LossOverlap(p, fs) == |LossSet(p, fs)| <==> LossesDisjoint(p, fs)
    decreases |fs|
  {
    if fs != [] {
      var f, rest := fs[0], fs[1..];
      OverlapsExceedUnion(p, rest);
      FirstDisjoint(p, fs);
      if IsLoss(p, f) {
        SizeOfUnion(Overlap(p, f), LossSet(p, rest));
        assert Overlap(p, f) !! LossSet(p, rest) <==> |Overlap(p, f) * LossSet(p, rest)| == 0;
      }
    }
  }

  lemma FirstDisjoint(p: Period, fs: seq<Fact>)
    requires fs != []
    ensures LossesDisjoint(p, fs) <==>
            LossesDisjoint(p, fs[1..]) && (IsLoss(p, fs[0]) ==> Overlap(p, fs[0]) !! LossSet(p, fs[1..]))
  {
    var rest := fs[1..];
    assert forall i :: 0 <= i < |rest| ==> rest[i] == fs[i + 1];
    forall y
      ensures y in LossSet(p, rest) <==> exists i :: 0 <= i < |rest| && IsLoss(p, rest[i]) && y in Overlap(p, rest[i])
    {
      InLossSet(p, rest, y);
    }
    if LossesDisjoint(p, fs) {
      forall y | IsLoss(p, fs[0]) && y in Overlap(p, fs[0]) ensures y !in LossSet(p, rest) {
        assert forall j :: 0 < j < |fs| && IsLoss(p, fs[j]) ==> Overlap(p, fs[0]) !! Overlap(p, fs[j]);
      }
    }
    if LossesDisjoint(p, rest) && (IsLoss(p, fs[0]) ==> Overlap(p, fs[0]) !! LossSet(p, rest)) {
      forall i, j | 0 <= i < j < |fs| && IsLoss(p, fs[i]) && IsLoss(p, fs[j])
        ensures Overlap(p, fs[i]) !! Overlap(p, fs[j])
      {
        if i > 0 {
          assert fs[i] == rest[i - 1] && fs[j] == rest[j - 1];
        } else {
          forall y | y in Overlap(p, fs[j]) ensures y in LossSet(p, rest) { assert fs[j] == rest[j - 1]; }
        }
      }
    }
  }

  ghost predicate StoredStates(fs: seq<Fact>) { forall i :: 0 <= i < |fs| ==> PLANNED_STOP <= fs[i].state <= MANUAL }

  /** What the classified stops cover, told from the facts. */
  lemma {:induction false} CoveredByFacts(p: Period, fs: seq<Fact>, y: int)
    requires StoredStates(fs) && p.w.start <= y < p.w.end && !InGap(p.gaps, y)
    ensures var stops := Classified(Records(fs), p.bound, p.micro);
            && (Covered(stops, Planned, 0, y) <==> y in PlannedSet(p, fs))
            && ((Covered(stops, Loss, FAULT, y) || Covered(stops, Loss, SETUP, y) || Covered(stops, Loss, STARVED, y)
                 || Covered(stops, Loss, BLOCKED, y) || Covered(stops, Loss, MANUAL, y)) <==> y in LossSet(p, fs))
    decreases |fs|
  {
    var stops := Classified(Records(fs), p.bound, p.micro);
    if fs != [] {
      var rest := fs[1..];
      CoveredByFacts(p, rest, y);
      assert Records(fs)[1..] == Records(rest);
      assert stops[1..] == Classified(Records(rest), p.bound, p.micro);
      CoveredCons(stops, Planned, 0, y);
      CoveredCons(stops, Loss, FAULT, y);
      CoveredCons(stops, Loss, SETUP, y);
      CoveredCons(stops, Loss, STARVED, y);
      CoveredCons(stops, Loss, BLOCKED, y);
      CoveredCons(stops, Loss, MANUAL, y);
    }
  }

  lemma {:induction false} SetsInWindow(p: Period, fs: seq<Fact>)
    ensures forall y :: y in LossSet(p, fs) || y in PlannedSet(p, fs) ==> p.w.start <= y < p.w.end && !InGap(p.gaps, y)
    decreases |fs|
  {
    if fs != [] { SetsInWindow(p, fs[1..]); }
  }

  /** An observed instant is lost time exactly when a loss, and no planned stop, covers it. */
  ghost predicate Splits(stops: seq<ClassifiedStop>, gaps: seq<Gap>, loss: set<int>, planned: set<int>, y: int) {
    var rank := Rank(CategoryOf(stops, gaps, y));
    && (3 <= rank < 8 <==> y in loss && y !in planned)
    && (3 <= rank <==> y !in planned)
  }

  lemma SplitByRank(lo: int, hi: int, stops: seq<ClassifiedStop>, gaps: seq<Gap>, loss: set<int>, planned: set<int>)
    requires forall y :: y in loss ==> lo <= y < hi && !InGap(gaps, y)
    requires forall y :: lo <= y < hi && !InGap(gaps, y) ==> Splits(stops, gaps, loss, planned, y)
    ensures FromRank(lo, hi, stops, gaps, 3) == (loss - planned) + FromRank(lo, hi, stops, gaps, 8)
    ensures (loss - planned) !! FromRank(lo, hi, stops, gaps, 8)
  {
    var from3, from8 := FromRank(lo, hi, stops, gaps, 3), FromRank(lo, hi, stops, gaps, 8);
    forall y ensures y in from3 <==> y in (loss - planned) + from8 {
      if lo <= y < hi && !InGap(gaps, y) { assert Splits(stops, gaps, loss, planned, y); }
    }
    forall y ensures !(y in loss - planned && y in from8) {
      if y in loss { assert Splits(stops, gaps, loss, planned, y); }
    }
  }

  lemma LossInstants(p: Period, fs: seq<Fact>)
    requires StoredStates(fs)
    ensures var stops := Classified(Records(fs), p.bound, p.micro);
            FromRank(p.w.start, p.w.end, stops, p.gaps, 3)
            == (LossSet(p, fs) - PlannedSet(p, fs)) + FromRank(p.w.start, p.w.end, stops, p.gaps, 8)
    ensures var stops := Classified(Records(fs), p.bound, p.micro);
            (LossSet(p, fs) - PlannedSet(p, fs)) !! FromRank(p.w.start, p.w.end, stops, p.gaps, 8)
  {
    var stops := Classified(Records(fs), p.bound, p.micro);
    FactsSplit(p, fs, stops, LossSet(p, fs), PlannedSet(p, fs));
    SplitByRank(p.w.start, p.w.end, stops, p.gaps, LossSet(p, fs), PlannedSet(p, fs));
  }

  lemma FactsSplit(p: Period, fs: seq<Fact>, stops: seq<ClassifiedStop>, loss: set<int>, planned: set<int>)
    requires StoredStates(fs) && stops == Classified(Records(fs), p.bound, p.micro)
    requires loss == LossSet(p, fs) && planned == PlannedSet(p, fs)
    ensures forall y :: y in loss ==> p.w.start <= y < p.w.end && !InGap(p.gaps, y)
    ensures forall y :: p.w.start <= y < p.w.end && !InGap(p.gaps, y) ==> Splits(stops, p.gaps, loss, planned, y)
  {
    SetsInWindow(p, fs);
    forall y | p.w.start <= y < p.w.end && !InGap(p.gaps, y) ensures Splits(stops, p.gaps, loss, planned, y) {
      FactSplits(p, fs, stops, loss, planned, y);
    }
  }

  lemma FactSplits(p: Period, fs: seq<Fact>, stops: seq<ClassifiedStop>, loss: set<int>, planned: set<int>, y: int)
    requires StoredStates(fs) && stops == Classified(Records(fs), p.bound, p.micro)
    requires loss == LossSet(p, fs) && planned == PlannedSet(p, fs)
    requires p.w.start <= y < p.w.end && !InGap(p.gaps, y)
    ensures Splits(stops, p.gaps, loss, planned, y)
  {
    CoveredByFacts(p, fs, y);
  }

  /** The OEE's loss time is the measure of the loss stops outside planned stops. */
  lemma LossTimeIsUnion(p: Period, fs: seq<Fact>, deltas: seq<CounterDelta>)
    requires StoredStates(fs)
    ensures var stops := Classified(Records(fs), p.bound, p.micro);
            AccountOf(p.w, stops, deltas, p.gaps).LossTime() == |LossSet(p, fs) - PlannedSet(p, fs)|
  {
    var stops := Classified(Records(fs), p.bound, p.micro);
    LossInstants(p, fs);
    SizeOfSplit(FromRank(p.w.start, p.w.end, stops, p.gaps, 3), LossSet(p, fs) - PlannedSet(p, fs),
                FromRank(p.w.start, p.w.end, stops, p.gaps, 8));
    LossRanks(p.w.start, p.w.end, stops, p.gaps, 3);
  }

  function LossesFrom(lo: int, hi: int, stops: seq<ClassifiedStop>, gaps: seq<Gap>, k: int): int
    decreases MANUAL - k
  {
    if k > MANUAL then 0 else Tally(lo, hi, stops, gaps)(LossIn(k)) + LossesFrom(lo, hi, stops, gaps, k + 1)
  }

  lemma {:induction false} PeelLosses(lo: int, hi: int, stops: seq<ClassifiedStop>, gaps: seq<Gap>, k: int)
    requires FAULT <= k <= MANUAL + 1
    ensures |FromRank(lo, hi, stops, gaps, k)|
            == LossesFrom(lo, hi, stops, gaps, k) + |FromRank(lo, hi, stops, gaps, MANUAL + 1)|
    decreases MANUAL - k
  {
    if k <= MANUAL {
      PeelLosses(lo, hi, stops, gaps, k + 1);
      PeelRank(lo, hi, stops, gaps, LossIn(k));
    }
  }

  lemma LossRanks(lo: int, hi: int, stops: seq<ClassifiedStop>, gaps: seq<Gap>, first: int)
    requires first == FAULT
    ensures |FromRank(lo, hi, stops, gaps, first)| - |FromRank(lo, hi, stops, gaps, MANUAL + 1)|
            == Tally(lo, hi, stops, gaps)(LossIn(FAULT)) + Tally(lo, hi, stops, gaps)(LossIn(SETUP))
               + Tally(lo, hi, stops, gaps)(LossIn(STARVED)) + Tally(lo, hi, stops, gaps)(LossIn(BLOCKED))
               + Tally(lo, hi, stops, gaps)(LossIn(MANUAL))
  {
    PeelLosses(lo, hi, stops, gaps, first);
    var t := Tally(lo, hi, stops, gaps);
    assert LossesFrom(lo, hi, stops, gaps, first + 4) == t(LossIn(first + 4));
    assert LossesFrom(lo, hi, stops, gaps, first + 2)
           == t(LossIn(first + 2)) + t(LossIn(first + 3)) + t(LossIn(first + 4));
  }

  /** Reconciliation, for one `until`, threshold, window and list of gaps: under every grouping the
      buckets add up to at least the OEE's loss time, and to exactly that time if and only if no
      observed instant of the window is inside two loss stops, or inside a loss and a planned stop. */
  lemma ParetoReconciles(p: Period, how: By, m: Metric, fs: seq<Fact>, stops: seq<ClassifiedStop>,
                         deltas: seq<CounterDelta>)
    requires StoredStates(fs) && stops == Classified(Records(fs), p.bound, p.micro)
    ensures var sum, loss := DurationOf(ParetoOf(p, how, m, fs).buckets),
            AccountOf(p.w, stops, deltas, p.gaps).LossTime();
            && sum >= loss
            && (sum == loss <==> LossesDisjoint(p, fs) && LossSet(p, fs) !! PlannedSet(p, fs))
  {
    BucketsAddUp(p, how, m, fs);
    OverlapsExceedUnion(p, fs);
    LossTimeIsUnion(p, fs, deltas);
    var all, planned := LossSet(p, fs), PlannedSet(p, fs);
    SizeOfSplit(all, all - planned, all * planned);
    assert all !! planned <==> |all * planned| == 0;
  }
}
