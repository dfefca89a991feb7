/** What the buckets of the stop Pareto hold, told from the stops: which there are, and every figure in them. */
module Buckets {
  import opened Basics
  import opened Facts
  import opened Oee
  import opened Pareto

  // ------------------------------------------------------------ which stops a bucket is about

  /** A stop belongs to the bucket of its station; of its cause, one without a cause or with an empty one to the
      unqualified bucket; of its fault code, one without a code to that of its state. */
  ghost predicate Belongs(f: Fact, how: By, key: string) {
    match how
    case ByStation => key == f.station
    case ByCause =>
      || (f.cause == Some(key) && key != "")
      || (key == "unqualified" && (f.cause == None || f.cause == Some("")))
    case ByFaultCode => if f.fault == 0 then key == "state_" + Decimal(f.state) else key == Decimal(f.fault)
  }

  /** A stop of some other state than a planned one that shares time with the window. */
  ghost predicate Meets(p: Period, f: Fact) {
    f.state != PLANNED_STOP && f.start < p.w.end && EndOfFact(p, f) > p.w.start
  }

  ghost predicate LongMeets(p: Period, f: Fact) { Meets(p, f) && EndOfFact(p, f) - f.start >= p.micro }

  ghost predicate ShortStarts(p: Period, f: Fact) {
    Meets(p, f) && EndOfFact(p, f) - f.start < p.micro && p.w.start <= f.start < p.w.end
  }

  ghost predicate InBucket(p: Period, how: By, key: string, f: Fact) { LongMeets(p, f) && Belongs(f, how, key) }

  // ------------------------------------------------------------ the figures, stop by stop

  /** The loss stops of one bucket, in order. */
  ghost function StopsIn(p: Period, how: By, key: string, fs: seq<Fact>): seq<Fact> {
    if fs == [] then [] else (if InBucket(p, how, key, fs[0]) then [fs[0]] else []) + StopsIn(p, how, key, fs[1..])
  }

  ghost function ShortStops(p: Period, fs: seq<Fact>): seq<Fact> {
    if fs == [] then [] else (if ShortStarts(p, fs[0]) then [fs[0]] else []) + ShortStops(p, fs[1..])
  }

  ghost function WithoutCause(fs: seq<Fact>): seq<Fact> {
    if fs == [] then [] else (if fs[0].cause.None? then [fs[0]] else []) + WithoutCause(fs[1..])
  }

  /** Observed time of the window, stop by stop. */
  function TimeOf(p: Period, fs: seq<Fact>): int { if fs == [] then 0 else |Overlap(p, fs[0])| + TimeOf(p, fs[1..]) }

  /** How many of the stops start in the window. */
  function Started(p: Period, fs: seq<Fact>): int {
    if fs == [] then 0 else (if p.w.start <= fs[0].start < p.w.end then 1 else 0) + Started(p, fs[1..])
  }

  /** The figures of a row are those of its stops, the unqualified ones those of its stops without a cause. */
  ghost predicate Figures(p: Period, row: Row, fs: seq<Fact>) {
    && row.duration == TimeOf(p, fs) && row.count == Started(p, fs)
    && row.unqualified == TimeOf(p, WithoutCause(fs)) && row.unqualifiedCount == Started(p, WithoutCause(fs))
  }

  // ------------------------------------------------------------ the dictionary

  ghost predicate TotalsTold(p: Period, how: By, t: Totals, fs: seq<Fact>) {
    && (forall k :: k in t.rows <==> StopsIn(p, how, k, fs) != [])
    && (forall k :: k in t.rows ==> Figures(p, t.rows[k], StopsIn(p, how, k, fs)))
    && t.microCount == |ShortStops(p, fs)| && t.microDuration == TimeOf(p, ShortStops(p, fs))
  }

  lemma KeyBelongs(f: Fact, how: By, key: string)
    ensures Belongs(f, how, key) <==> key == KeyOf(f, how)
  {
  }

  lemma {:induction false} StopsSnoc(p: Period, how: By, key: string, fs: seq<Fact>, f: Fact)
    ensures StopsIn(p, how, key, fs + [f])
            == if InBucket(p, how, key, f) then StopsIn(p, how, key, fs) + [f] else StopsIn(p, how, key, fs)
    decreases |fs|
  {
    if fs == [] {
      assert fs + [f] == [f] && [f][1..] == [];
    } else {
      assert (fs + [f])[0] == fs[0] && (fs + [f])[1..] == fs[1..] + [f];
      StopsSnoc(p, how, key, fs[1..], f);
    }
  }

  lemma {:induction false} ShortSnoc(p: Period, fs: seq<Fact>, f: Fact)
    ensures ShortStops(p, fs + [f]) == if ShortStarts(p, f) then ShortStops(p, fs) + [f] else ShortStops(p, fs)
    decreases |fs|
  {
    if fs == [] {
      assert fs + [f] == [f] && [f][1..] == [];
    } else {
      assert (fs + [f])[0] == fs[0] && (fs + [f])[1..] == fs[1..] + [f];
      ShortSnoc(p, fs[1..], f);
    }
  }

  lemma {:induction false} SumsSnoc(p: Period, fs: seq<Fact>, f: Fact)
    ensures TimeOf(p, fs + [f]) == TimeOf(p, fs) + |Overlap(p, f)|
    ensures Started(p, fs + [f]) == Started(p, fs) + if StartsHere(p, f) then 1 else 0
    ensures WithoutCause(fs + [f]) == if f.cause.None? then WithoutCause(fs) + [f] else WithoutCause(fs)
    decreases |fs|
  {
    if fs == [] {
      assert fs + [f] == [f] && [f][1..] == [];
    } else {
      assert (fs + [f])[0] == fs[0] && (fs + [f])[1..] == fs[1..] + [f];
      SumsSnoc(p, fs[1..], f);
    }
  }

  lemma BumpFigures(p: Period, row: Row, fs: seq<Fact>, f: Fact)
    requires Figures(p, row, fs)
    ensures Figures(p, Bump(row, |Overlap(p, f)|, StartsHere(p, f), f.cause.None?), fs + [f])
  {
    SumsSnoc(p, fs, f);
    if f.cause.None? { SumsSnoc(p, WithoutCause(fs), f); }
  }

  lemma LossTold(p: Period, how: By, t: Totals, fs: seq<Fact>, f: Fact, after: Totals)
    requires TotalsTold(p, how, t, fs) && LongMeets(p, f) && after == AddFact(p, how, t, f)
    ensures TotalsTold(p, how, after, fs + [f])
  {
    var key := KeyOf(f, how);
    ShortSnoc(p, fs, f);
    forall k
      ensures k in after.rows <==> StopsIn(p, how, k, fs + [f]) != []
      ensures k in after.rows ==> Figures(p, after.rows[k], StopsIn(p, how, k, fs + [f]))
    {
      KeyBelongs(f, how, k);
      StopsSnoc(p, how, k, fs, f);
      if k == key { BumpFigures(p, RowAt(t, key), StopsIn(p, how, k, fs), f); }
    }
  }

  lemma OtherTold(p: Period, how: By, t: Totals, fs: seq<Fact>, f: Fact, after: Totals)
    requires TotalsTold(p, how, t, fs) && !LongMeets(p, f) && after == AddFact(p, how, t, f)
    ensures TotalsTold(p, how, after, fs + [f])
  {
    ShortSnoc(p, fs, f);
    if ShortStarts(p, f) { SumsSnoc(p, ShortStops(p, fs), f); }
    forall k ensures StopsIn(p, how, k, fs + [f]) == StopsIn(p, how, k, fs) { StopsSnoc(p, how, k, fs, f); }
  }

  lemma {:induction false} AllTold(p: Period, how: By, t: Totals, done: seq<Fact>, fs: seq<Fact>)
    requires TotalsTold(p, how, t, done)
    ensures TotalsTold(p, how, AddAll(p, how, t, fs), done + fs)
    decreases |fs|
  {
    if fs == [] {
      assert done + fs == done;
    } else {
      var f, next := fs[0], AddFact(p, how, t, fs[0]);
      if LongMeets(p, f) { LossTold(p, how, t, done, f, next); } else { OtherTold(p, how, t, done, f, next); }
      assert done + fs == (done + [f]) + fs[1..];
      AllTold(p, how, next, done + [f], fs[1..]);
    }
  }

  // ------------------------------------------------------------ the result

  ghost predicate Distinct(bs: seq<Bucket>) { forall i, j :: 0 <= i < j < |bs| ==> bs[i].key != bs[j].key }

  lemma {:induction false} ListedOnce(rows: map<string, Row>, keys: seq<string>)
    requires (forall k :: k in keys ==> k in rows) && forall i, j :: 0 <= i < j < |keys| ==> keys[i] != keys[j]
    ensures var bs := BucketsOf(rows, keys);
            && |bs| == |keys| && Distinct(bs)
            && forall i :: 0 <= i < |keys| ==> bs[i].key == keys[i]
    ensures forall k :: k in keys ==> Bucket(k, rows[k]) in BucketsOf(rows, keys)
    decreases |keys|
  {
    if keys != [] {
      assert keys[0] in keys;
      ListedOnce(rows, keys[1..]);
      forall k | k in keys ensures Bucket(k, rows[k]) in BucketsOf(rows, keys) {
        assert k == keys[0] || k in keys[1..];
      }
    }
  }

  lemma {:induction false} InsertDistinct(b: Bucket, sorted: seq<Bucket>, m: Metric)
    requires Distinct(sorted) && forall c :: c in sorted ==> c.key != b.key
    ensures Distinct(InsertBucket(b, sorted, m))
    decreases |sorted|
  {
    if sorted != [] && !NotAfter(b, sorted[0], m) {
      var first, rest := sorted[0], sorted[1..];
      InsertDistinct(b, rest, m);
      InsertKeeps(b, rest, m);
      var tail := InsertBucket(b, rest, m);
      forall j | 0 <= j < |tail| ensures first.key != tail[j].key {
        assert tail[j] in multiset(tail);
        assert tail[j] == b || tail[j] in rest;
      }
    }
  }

  lemma SameBuckets(bs: seq<Bucket>, m: Metric, b: Bucket)
    ensures b in SortBuckets(bs, m) <==> b in bs
  {
    BucketsAreRanked(bs, m);
    assert b in SortBuckets(bs, m) <==> b in multiset(SortBuckets(bs, m));
    assert b in bs <==> b in multiset(bs);
  }

  lemma {:induction false} SortDistinct(bs: seq<Bucket>, m: Metric)
    requires Distinct(bs)
    ensures Distinct(SortBuckets(bs, m))
    decreases |bs|
  {
    if bs != [] {
      var rest := bs[1..];
      SortDistinct(rest, m);
      forall c | c in SortBuckets(rest, m) ensures c.key != bs[0].key { SameBuckets(rest, m, c); }
      InsertDistinct(bs[0], SortBuckets(rest, m), m);
    }
  }

  ghost predicate HasBucket(bs: seq<Bucket>, key: string) { exists i :: 0 <= i < |bs| && bs[i].key == key }

  ghost predicate HasStop(p: Period, how: By, key: string, fs: seq<Fact>) {
    exists i :: 0 <= i < |fs| && InBucket(p, how, key, fs[i])
  }

  /** One bucket for each row. */
  ghost predicate OneEach(bs: seq<Bucket>, rows: map<string, Row>) {
    && Distinct(bs)
    && (forall i :: 0 <= i < |bs| ==> bs[i].key in rows && bs[i].row == rows[bs[i].key])
    && (forall key :: key in rows ==> HasBucket(bs, key))
  }

  lemma SortedOneEach(t: Totals, m: Metric)
    requires WellKeyed(t)
    ensures OneEach(SortBuckets(BucketsOf(t.rows, t.keys), m), t.rows)
  {
    var listed := BucketsOf(t.rows, t.keys);
    var bs := SortBuckets(listed, m);
    ListedOnce(t.rows, t.keys);
    SortDistinct(listed, m);
    forall i | 0 <= i < |bs| ensures bs[i].key in t.rows && bs[i].row == t.rows[bs[i].key] {
      SameBuckets(listed, m, bs[i]);
      BucketRows(t.rows, t.keys, bs[i]);
    }
    forall key | key in t.rows ensures HasBucket(bs, key) {
      SameBuckets(listed, m, Bucket(key, t.rows[key]));
      var i :| 0 <= i < |bs| && bs[i] == Bucket(key, t.rows[key]);
    }
  }

  /** Under any grouping, whatever the order: a key has a bucket if and only if a loss stop that shares time with
      the window belongs to it, and then one bucket, with the observed time and the number of starts of exactly
      those stops, and with the share of those that have no cause; the shorter stops that start in the window are
      summed up apart. */
  lemma BucketsAreTold(p: Period, how: By, m: Metric, fs: seq<Fact>, r: ParetoResult)
    requires r == ParetoOf(p, how, m, fs)
    ensures Distinct(r.buckets)
    ensures forall key :: HasBucket(r.buckets, key) <==> HasStop(p, how, key, fs)
    ensures forall i :: 0 <= i < |r.buckets| ==>
                          Figures(p, r.buckets[i].row, StopsIn(p, how, r.buckets[i].key, fs))
    ensures r.microCount == |ShortStops(p, fs)| && r.microDuration == TimeOf(p, ShortStops(p, fs))
  {
    var t := AddAll(p, how, NO_TOTALS, fs);
    WholeIsTold(p, how, fs, t);
    SortedOneEach(t, m);
    ToldInBuckets(p, how, fs, t, r.buckets);
  }

  lemma NothingTold(p: Period, how: By)
    ensures TotalsTold(p, how, NO_TOTALS, []) && WellKeyed(NO_TOTALS)
  {
  }

  lemma WholeIsTold(p: Period, how: By, fs: seq<Fact>, t: Totals)
    requires t == AddAll(p, how, NO_TOTALS, fs)
    ensures TotalsTold(p, how, t, fs) && WellKeyed(t)
  {
    NothingTold(p, how);
    TotalsAddUp(p, how, NO_TOTALS, fs);
    AllTold(p, how, NO_TOTALS, [], fs);
    assert [] + fs == fs;
  }

  /** By duration or by count, descending; the unqualified bucket last. */
  ghost predicate Descending(bs: seq<Bucket>, m: Metric) {
    forall i, j :: 0 <= i < j < |bs| ==>
      && bs[i].key != "unqualified"
      && (bs[j].key == "unqualified"
          || if m.ByDuration? then bs[i].row.duration >= bs[j].row.duration else bs[i].row.count >= bs[j].row.count)
  }

  /** The buckets with this figure, in order: the unqualified one apart. */
  function WithValue(bs: seq<Bucket>, m: Metric, v: int): seq<Bucket> {
    if bs == [] then []
    else
      var b := bs[0];
      (if b.key != "unqualified" && (if m.ByDuration? then b.row.duration else b.row.count) == v then [b] else [])
      + WithValue(bs[1..], m, v)
  }

  lemma WithValueCons(b: Bucket, rest: seq<Bucket>, m: Metric, v: int)
    ensures WithValue([b] + rest, m, v)
            == if b.key != "unqualified" && (if m.ByDuration? then b.row.duration else b.row.count) == v
               then [b] + WithValue(rest, m, v) else WithValue(rest, m, v)
  {
    assert ([b] + rest)[1..] == rest;
  }

  lemma {:induction false} InsertStable(b: Bucket, sorted: seq<Bucket>, m: Metric, v: int)
    ensures WithValue(InsertBucket(b, sorted, m), m, v) == WithValue([b] + sorted, m, v)
    decreases |sorted|
  {
    if sorted != [] && !NotAfter(b, sorted[0], m) {
      var first, rest := sorted[0], sorted[1..];
      InsertStable(b, rest, m, v);
      WithValueCons(first, InsertBucket(b, rest, m), m, v);
      WithValueCons(b, rest, m, v);
      WithValueCons(b, sorted, m, v);
      assert sorted == [first] + rest;
      WithValueCons(first, rest, m, v);
    }
  }

  /** The sort is stable: buckets with the same figure stay in the order in which they first came up. */
  lemma {:induction false} SortIsStable(bs: seq<Bucket>, m: Metric, v: int)
    ensures WithValue(SortBuckets(bs, m), m, v) == WithValue(bs, m, v)
    decreases |bs|
  {
    if bs != [] {
      SortIsStable(bs[1..], m, v);
      InsertStable(bs[0], SortBuckets(bs[1..], m), m, v);
      WithValueCons(bs[0], SortBuckets(bs[1..], m), m, v);
      assert bs == [bs[0]] + bs[1..];
      WithValueCons(bs[0], bs[1..], m, v);
    }
  }

  lemma RankedDescends(bs: seq<Bucket>, m: Metric, i: nat, j: nat)
    requires Distinct(bs) && i < j < |bs| && NotAfter(bs[i], bs[j], m)
    ensures bs[i].key != "unqualified"
    ensures bs[j].key == "unqualified"
            || if m.ByDuration? then bs[i].row.duration >= bs[j].row.duration else bs[i].row.count >= bs[j].row.count
  {
    assert bs[i].key != bs[j].key;
  }

  /** By the metric asked for, descending, with the unqualified bucket last. */
  lemma BucketsDescend(p: Period, how: By, m: Metric, fs: seq<Fact>, r: ParetoResult)
    requires r == ParetoOf(p, how, m, fs)
    ensures Descending(r.buckets, m)
  {
    var t := AddAll(p, how, NO_TOTALS, fs);
    KeysFirstCome(p, how, fs, t);
    SortedOneEach(t, m);
    BucketsAreRanked(BucketsOf(t.rows, t.keys), m);
    AllDescend(r.buckets, m);
  }

  lemma AllDescend(bs: seq<Bucket>, m: Metric)
    requires Distinct(bs) && Ranked(bs, m)
    ensures Descending(bs, m)
  {
    forall i, j | 0 <= i < j < |bs|
      ensures bs[i].key != "unqualified"
      ensures bs[j].key == "unqualified"
              || if m.ByDuration? then bs[i].row.duration >= bs[j].row.duration else bs[i].row.count >= bs[j].row.count
    {
      RankedDescends(bs, m, i, j);
    }
  }

  lemma ToldInBuckets(p: Period, how: By, fs: seq<Fact>, t: Totals, bs: seq<Bucket>)
    requires TotalsTold(p, how, t, fs) && OneEach(bs, t.rows)
    ensures forall key :: HasBucket(bs, key) <==> HasStop(p, how, key, fs)
    ensures forall i :: 0 <= i < |bs| ==> Figures(p, bs[i].row, StopsIn(p, how, bs[i].key, fs))
  {
    forall key ensures HasBucket(bs, key) <==> HasStop(p, how, key, fs) {
      SomeStopIn(p, how, key, fs);
      assert key in t.rows <==> StopsIn(p, how, key, fs) != [];
    }
  }

  lemma {:induction false} SomeStopIn(p: Period, how: By, key: string, fs: seq<Fact>)
    ensures StopsIn(p, how, key, fs) != [] <==> HasStop(p, how, key, fs)
    decreases |fs|
  {
    if fs != [] {
      var rest := fs[1..];
      SomeStopIn(p, how, key, rest);
      if i :| 0 <= i < |rest| && InBucket(p, how, key, rest[i]) { assert fs[i + 1] == rest[i]; }
      if i :| 0 <= i < |fs| && InBucket(p, how, key, fs[i]) {
        if i > 0 { assert rest[i - 1] == fs[i]; }
      }
    }
  }

  // ------------------------------------------------------------ which bucket came up first

  /** Where the first stop of a bucket is, or the end. */
  ghost function FirstStop(p: Period, how: By, key: string, fs: seq<Fact>): nat {
    if fs == [] then 0
    else if InBucket(p, how, key, fs[0]) then 0
    else 1 + FirstStop(p, how, key, fs[1..])
  }

  lemma {:induction false} FirstSnoc(p: Period, how: By, key: string, fs: seq<Fact>, f: Fact)
    ensures FirstStop(p, how, key, fs) <= |fs|
    ensures FirstStop(p, how, key, fs) < |fs| <==> StopsIn(p, how, key, fs) != []
    ensures FirstStop(p, how, key, fs + [f])
            == if FirstStop(p, how, key, fs) < |fs| || InBucket(p, how, key, f) then FirstStop(p, how, key, fs)
               else |fs| + 1
    decreases |fs|
  {
    if fs == [] {
      assert fs + [f] == [f] && [f][1..] == [];
    } else {
      assert (fs + [f])[0] == fs[0] && (fs + [f])[1..] == fs[1..] + [f];
      FirstSnoc(p, how, key, fs[1..], f);
    }
  }

  ghost predicate FirstCome(p: Period, how: By, keys: seq<string>, fs: seq<Fact>) {
    && (forall i :: 0 <= i < |keys| ==> FirstStop(p, how, keys[i], fs) < |fs|)
    && (forall i, j :: 0 <= i < j < |keys| ==> FirstStop(p, how, keys[i], fs) < FirstStop(p, how, keys[j], fs))
  }

  lemma OneFactMore(p: Period, how: By, t: Totals, fs: seq<Fact>, f: Fact, after: Totals)
    requires TotalsTold(p, how, t, fs) && WellKeyed(t) && FirstCome(p, how, t.keys, fs)
    requires after == AddFact(p, how, t, f)
    ensures FirstCome(p, how, after.keys, fs + [f])
  {
    var key := KeyOf(f, how);
    forall i | 0 <= i < |t.keys|
      ensures FirstStop(p, how, t.keys[i], fs + [f]) == FirstStop(p, how, t.keys[i], fs)
    {
      FirstSnoc(p, how, t.keys[i], fs, f);
    }
    if after.keys != t.keys {
      NewKeyIsLast(p, how, t, fs, f, key);
    }
  }

  lemma NewKeyIsLast(p: Period, how: By, t: Totals, fs: seq<Fact>, f: Fact, key: string)
    requires TotalsTold(p, how, t, fs) && key == KeyOf(f, how) && key !in t.rows && LongMeets(p, f)
    ensures FirstStop(p, how, key, fs + [f]) == |fs|
  {
    KeyBelongs(f, how, key);
    FirstSnoc(p, how, key, fs, f);
  }

  /** What one fact more keeps of the dictionary. */
  lemma FactKeeps(p: Period, how: By, t: Totals, done: seq<Fact>, f: Fact, next: Totals)
    requires TotalsTold(p, how, t, done) && WellKeyed(t) && FirstCome(p, how, t.keys, done)
    requires next == AddFact(p, how, t, f)
    ensures TotalsTold(p, how, next, done + [f]) && WellKeyed(next) && FirstCome(p, how, next.keys, done + [f])
  {
    if LongMeets(p, f) { LossTold(p, how, t, done, f, next); } else { OtherTold(p, how, t, done, f, next); }
    OneFactMore(p, how, t, done, f, next);
    StaysKeyed(p, how, t, f, next);
  }

  lemma {:induction false} AllFirstCome(p: Period, how: By, t: Totals, done: seq<Fact>, fs: seq<Fact>)
    requires TotalsTold(p, how, t, done) && WellKeyed(t) && FirstCome(p, how, t.keys, done)
    ensures FirstCome(p, how, AddAll(p, how, t, fs).keys, done + fs)
    decreases |fs|
  {
    if fs == [] {
      assert done + fs == done;
    } else {
      var next := AddFact(p, how, t, fs[0]);
      FactKeeps(p, how, t, done, fs[0], next);
      assert done + fs == (done + [fs[0]]) + fs[1..];
      AllFirstCome(p, how, next, done + [fs[0]], fs[1..]);
    }
  }

  lemma StaysKeyed(p: Period, how: By, t: Totals, f: Fact, after: Totals)
    requires WellKeyed(t) && after == AddFact(p, how, t, f)
    ensures WellKeyed(after)
  {
    var key := KeyOf(f, how);
    if key !in t.rows { assert key !in t.keys; }
  }

  lemma KeysFirstCome(p: Period, how: By, fs: seq<Fact>, t: Totals)
    requires t == AddAll(p, how, NO_TOTALS, fs)
    ensures WellKeyed(t) && FirstCome(p, how, t.keys, fs)
  {
    NothingTold(p, how);
    WholeIsTold(p, how, fs, t);
    AllFirstCome(p, how, NO_TOTALS, [], fs);
    assert [] + fs == fs;
  }

  ghost predicate Rising(p: Period, how: By, fs: seq<Fact>, bs: seq<Bucket>) {
    forall i, j :: 0 <= i < j < |bs| ==> FirstStop(p, how, bs[i].key, fs) < FirstStop(p, how, bs[j].key, fs)
  }

  lemma {:induction false} PickedFrom(bs: seq<Bucket>, m: Metric, v: int, b: Bucket)
    requires b in WithValue(bs, m, v)
    ensures b in bs
    decreases |bs|
  {
    assert bs == [bs[0]] + bs[1..];
    WithValueCons(bs[0], bs[1..], m, v);
    if b != bs[0] { PickedFrom(bs[1..], m, v, b); }
  }

  lemma RisingCons(p: Period, how: By, fs: seq<Fact>, b: Bucket, rest: seq<Bucket>)
    requires Rising(p, how, fs, rest)
    requires forall c :: c in rest ==> FirstStop(p, how, b.key, fs) < FirstStop(p, how, c.key, fs)
    ensures Rising(p, how, fs, [b] + rest)
  {
  }

  lemma FirstIsBefore(p: Period, how: By, fs: seq<Fact>, bs: seq<Bucket>, c: Bucket)
    requires bs != [] && Rising(p, how, fs, bs) && c in bs[1..]
    ensures FirstStop(p, how, bs[0].key, fs) < FirstStop(p, how, c.key, fs)
  {
    var j :| 0 <= j < |bs[1..]| && bs[1..][j] == c;
    assert bs[j + 1] == c;
  }

  lemma {:induction false} PickedRises(p: Period, how: By, fs: seq<Fact>, bs: seq<Bucket>, m: Metric, v: int)
    requires Rising(p, how, fs, bs)
    ensures Rising(p, how, fs, WithValue(bs, m, v))
    decreases |bs|
  {
    if bs != [] {
      var b, rest := bs[0], bs[1..];
      assert bs == [b] + rest;
      PickedRises(p, how, fs, rest, m, v);
      WithValueCons(b, rest, m, v);
      forall c | c in WithValue(rest, m, v) ensures FirstStop(p, how, b.key, fs) < FirstStop(p, how, c.key, fs) {
        PickedFrom(rest, m, v, c);
        FirstIsBefore(p, how, fs, bs, c);
      }
      RisingCons(p, how, fs, b, WithValue(rest, m, v));
    }
  }

  /** Buckets with the same figure come in the order of their first stops. */
  lemma TiesFirstCome(p: Period, how: By, m: Metric, fs: seq<Fact>, v: int)
    ensures Rising(p, how, fs, WithValue(ParetoOf(p, how, m, fs).buckets, m, v))
  {
    var t := AddAll(p, how, NO_TOTALS, fs);
    var listed := BucketsOf(t.rows, t.keys);
    KeysFirstCome(p, how, fs, t);
    ListedOnce(t.rows, t.keys);
    SortIsStable(listed, m, v);
    PickedRises(p, how, fs, listed, m, v);
  }

  // ------------------------------------------------------------ fault codes as text

  function DigitOf(c: char): int { if '0' <= c <= '9' then c as int - '0' as int else 0 }

  function NumberOf(s: string): int {
    if s == "" then 0
    else if s[0] == '-' then -Natural(s[1..])
    else Natural(s)
  }

  function Natural(s: string): int {
    if s == "" then 0 else 10 * Natural(s[..|s| - 1]) + DigitOf(s[|s| - 1])
  }

  lemma {:induction false} DigitsRead(n: nat)
    ensures Natural(Digits(n)) == n && Digits(n) != "" && Digits(n)[0] != '-'
    decreases n
  {
    var last := "0123456789"[n % 10];
    assert DigitOf(last) == n % 10;
    if n >= 10 {
      DigitsRead(n / 10);
      assert (Digits(n / 10) + [last])[..|Digits(n / 10)|] == Digits(n / 10);
    } else {
      assert [last][..0] == "";
    }
  }

  lemma SignedReads(digits: string)
    requires digits != "" && digits[0] != '-'
    ensures NumberOf(digits) == Natural(digits) && NumberOf("-" + digits) == -Natural(digits)
  {
    assert ("-" + digits)[1..] == digits;
  }

  lemma DecimalIs(n: int, size: nat, digits: string)
    requires size == (if n < 0 then -n else n) && digits == Digits(size)
    ensures Decimal(n) == if n < 0 then "-" + digits else digits
  {
  }

  /** The text of a code reads back as the code, so different codes have different buckets. */
  lemma CodesRead(n: int)
    ensures NumberOf(Decimal(n)) == n
  {
    var size := if n < 0 then -n else n;
    var digits := Digits(size);
    DigitsRead(size);
    SignedReads(digits);
    DecimalIs(n, size, digits);
  }
}
