/** backend/app/oee/intervals.py: lists of half-open intervals, read as sets of instants. */
module Intervals {
  import opened Basics

  datatype Interval = Interval(lo: int, hi: int)

  predicate Within(x: int, lo: int, hi: int) { lo <= x < hi }

  function Range(lo: int, hi: int): set<int> { set x | lo <= x < hi && Within(x, lo, hi) }

  /** The instants covered by a list. */
  function Points(ivs: seq<Interval>): set<int> {
    if ivs == [] then {} else Range(ivs[0].lo, ivs[0].hi) + Points(ivs[1..])
  }

  /** Sorted, non-empty and strictly separated. */
  ghost predicate Merged(ivs: seq<Interval>) {
    && (forall i :: 0 <= i < |ivs| ==> ivs[i].lo < ivs[i].hi)
    && (forall i, j :: 0 <= i < j < |ivs| ==> ivs[i].hi < ivs[j].lo)
  }

  function Total(ivs: seq<Interval>): int {
    if ivs == [] then 0 else (ivs[0].hi - ivs[0].lo) + Total(ivs[1..])
  }

  // ------------------------------------------------------------ points of lists

  lemma {:induction false} PointsAppend(a: seq<Interval>, b: seq<Interval>)
    ensures Points(a + b) == Points(a) + Points(b)
  {
    if a == [] {
      assert a + b == b;
    } else {
      assert (a + b)[0] == a[0] && (a + b)[1..] == a[1..] + b;
      PointsAppend(a[1..], b);
    }
  }

  lemma PointsOne(iv: Interval)
    ensures Points([iv]) == Range(iv.lo, iv.hi)
  {
    assert Points([iv][1..]) == {};
  }

  lemma PointsSnoc(a: seq<Interval>, iv: Interval)
    ensures Points(a + [iv]) == Points(a) + Range(iv.lo, iv.hi)
  {
    PointsAppend(a, [iv]);
    PointsOne(iv);
  }

  lemma PointsTake(a: seq<Interval>, i: nat)
    requires i < |a|
    ensures Points(a[..i + 1]) == Points(a[..i]) + Range(a[i].lo, a[i].hi)
  {
    assert a[..i + 1] == a[..i] + [a[i]];
    PointsSnoc(a[..i], a[i]);
  }

  lemma {:induction false} InPoints(ivs: seq<Interval>, x: int)
    ensures x in Points(ivs) <==> exists i :: 0 <= i < |ivs| && ivs[i].lo <= x < ivs[i].hi
  {
    if ivs != [] {
      InPoints(ivs[1..], x);
      if exists i :: 0 <= i < |ivs[1..]| && ivs[1..][i].lo <= x < ivs[1..][i].hi {
        var i :| 0 <= i < |ivs[1..]| && ivs[1..][i].lo <= x < ivs[1..][i].hi;
        assert ivs[i + 1].lo <= x < ivs[i + 1].hi;
      }
      if i :| 0 <= i < |ivs| && ivs[i].lo <= x < ivs[i].hi {
        if i > 0 { assert ivs[1..][i - 1].lo <= x < ivs[1..][i - 1].hi; }
      }
    }
  }

  lemma {:induction false} RangeSize(lo: int, hi: int)
    requires lo <= hi
    ensures |Range(lo, hi)| == hi - lo
    decreases hi - lo
  {
    if lo == hi {
      assert Range(lo, hi) == {};
    } else {
      RangeSize(lo, hi - 1);
      assert Range(lo, hi) == Range(lo, hi - 1) + {hi - 1};
    }
  }

  lemma SizeOfDisjoint(a: set<int>, b: set<int>)
    requires a !! b
    ensures |a + b| == |a| + |b|
  {
  }

  /** The total of a merged list is the measure of the instants it covers. */
  lemma {:induction false} TotalIsMeasure(ivs: seq<Interval>)
    requires Merged(ivs)
    ensures Total(ivs) == |Points(ivs)|
  {
    if ivs != [] {
      var rest := ivs[1..];
      assert Merged(rest);
      TotalIsMeasure(rest);
      RangeSize(ivs[0].lo, ivs[0].hi);
      forall x | x in Points(rest) ensures x !in Range(ivs[0].lo, ivs[0].hi) {
        InPoints(rest, x);
        var i :| 0 <= i < |rest| && rest[i].lo <= x < rest[i].hi;
        assert rest[i] == ivs[i + 1];
      }
      SizeOfDisjoint(Range(ivs[0].lo, ivs[0].hi), Points(rest));
    }
  }

  /** Merged lists are canonical: two that cover the same instants are the same list. */
  lemma {:induction false} MergedIsCanonical(a: seq<Interval>, b: seq<Interval>)
    requires Merged(a) && Merged(b) && Points(a) == Points(b)
    ensures a == b
    decreases |a|
  {
    EmptyPoints(a);
    EmptyPoints(b);
    if a != [] {
      FirstsAgree(a, b);
      RestPoints(a);
      RestPoints(b);
      MergedIsCanonical(a[1..], b[1..]);
      assert a == [a[0]] + a[1..] && b == [b[0]] + b[1..];
    }
  }

  lemma EmptyPoints(a: seq<Interval>)
    requires Merged(a)
    ensures Points(a) == {} <==> a == []
  {
    if a != [] { assert a[0].lo in Range(a[0].lo, a[0].hi); }
  }

  lemma FirstsAgree(a: seq<Interval>, b: seq<Interval>)
    requires Merged(a) && Merged(b) && Points(a) == Points(b) && a != [] && b != []
    ensures a[0] == b[0]
  {
    FirstPoint(a, b);
    FirstPoint(b, a);
    FirstEnd(a, b);
    FirstEnd(b, a);
  }

  lemma FirstPoint(a: seq<Interval>, b: seq<Interval>)
    requires Merged(a) && Merged(b) && Points(a) == Points(b) && a != [] && b != []
    ensures a[0].lo <= b[0].lo
  {
    assert b[0].lo in Points(b);
    InPoints(a, b[0].lo);
    var i :| 0 <= i < |a| && a[i].lo <= b[0].lo < a[i].hi;
    if i > 0 { assert a[0].hi < a[i].lo; }
  }

  lemma FirstEnd(a: seq<Interval>, b: seq<Interval>)
    requires Merged(a) && Merged(b) && Points(a) == Points(b) && a != [] && b != [] && a[0].lo == b[0].lo
    ensures a[0].hi <= b[0].hi
  {
    assert b[0].hi !in Points(b) by {
      InPoints(b, b[0].hi);
      forall i | 0 <= i < |b| ensures !(b[i].lo <= b[0].hi < b[i].hi) {
        assert i > 0 ==> b[0].hi < b[i].lo;
      }
    }
    InsideIsCovered(a, 0);
  }

  lemma RestPoints(a: seq<Interval>)
    requires Merged(a) && a != []
    ensures Merged(a[1..]) && Points(a[1..]) == Points(a) - Range(a[0].lo, a[0].hi)
  {
    forall x | x in Points(a[1..]) ensures x !in Range(a[0].lo, a[0].hi) {
      InPoints(a[1..], x);
      var i :| 0 <= i < |a[1..]| && a[1..][i].lo <= x < a[1..][i].hi;
      assert a[1..][i] == a[i + 1];
    }
  }

  // ------------------------------------------------------------ sorting

  ghost predicate SortedByLo(ivs: seq<Interval>) {
    forall i, j :: 0 <= i < j < |ivs| ==> ivs[i].lo <= ivs[j].lo
  }

  predicate Before(a: Interval, b: Interval) { a.lo < b.lo || (a.lo == b.lo && a.hi <= b.hi) }

  function Insert(iv: Interval, sorted: seq<Interval>): seq<Interval> {
    if sorted == [] || Before(iv, sorted[0]) then [iv] + sorted else [sorted[0]] + Insert(iv, sorted[1..])
  }

  /** `sorted(iv for iv in intervals if iv[1] > iv[0])`. */
  function SortNonEmpty(ivs: seq<Interval>): seq<Interval> {
    if ivs == [] then []
    else
      var rest := SortNonEmpty(ivs[1..]);
      if ivs[0].hi > ivs[0].lo then Insert(ivs[0], rest) else rest
  }

  ghost predicate Ready(ivs: seq<Interval>) { SortedByLo(ivs) && forall i :: 0 <= i < |ivs| ==> ivs[i].lo < ivs[i].hi }

  lemma {:induction false} InsertReady(iv: Interval, sorted: seq<Interval>)
    requires Ready(sorted) && iv.lo < iv.hi
    ensures Ready(Insert(iv, sorted))
    ensures Points(Insert(iv, sorted)) == Range(iv.lo, iv.hi) + Points(sorted)
    ensures Insert(iv, sorted)[0].lo == iv.lo || (sorted != [] && Insert(iv, sorted)[0].lo == sorted[0].lo)
  {
    if sorted == [] || Before(iv, sorted[0]) {
      assert ([iv] + sorted)[1..] == sorted;
    } else {
      InsertReady(iv, sorted[1..]);
      var rest := Insert(iv, sorted[1..]);
      assert sorted[0].lo <= rest[0].lo;
      assert ([sorted[0]] + rest)[1..] == rest;
    }
  }

  lemma {:induction false} SortReady(ivs: seq<Interval>)
    ensures Ready(SortNonEmpty(ivs))
    ensures Points(SortNonEmpty(ivs)) == Points(ivs)
  {
    if ivs != [] {
      SortReady(ivs[1..]);
      if ivs[0].hi > ivs[0].lo {
        InsertReady(ivs[0], SortNonEmpty(ivs[1..]));
      } else {
        assert Range(ivs[0].lo, ivs[0].hi) == {};
      }
    }
  }

  // ------------------------------------------------------------ the operations

  /** An interval that touches the last one extends it or is inside it. */
  lemma Extended(out: seq<Interval>, iv: Interval)
    requires out != [] && out[|out| - 1].lo <= iv.lo <= out[|out| - 1].hi
    ensures var last := out[|out| - 1];
            Points(out) + Range(iv.lo, iv.hi)
            == if iv.hi > last.hi then Points(out[..|out| - 1] + [Interval(last.lo, iv.hi)]) else Points(out)
  {
    var front, last := out[..|out| - 1], out[|out| - 1];
    assert out == front + [last];
    PointsSnoc(front, last);
    PointsSnoc(front, Interval(last.lo, iv.hi));
    RangesJoin(Points(front), last.lo, last.hi, iv.lo, iv.hi);
  }

  lemma RangesJoin(rest: set<int>, lo: int, mid: int, from: int, hi: int)
    requires lo <= from <= mid
    ensures (rest + Range(lo, mid)) + Range(from, hi) == rest + Range(lo, Max(mid, hi))
  {
  }

  /** Appending past the last interval keeps the list merged. */
  lemma Appended(out: seq<Interval>, iv: Interval)
    requires Merged(out) && iv.lo < iv.hi && (out != [] ==> out[|out| - 1].hi < iv.lo)
    ensures Merged(out + [iv]) && Points(out + [iv]) == Points(out) + Range(iv.lo, iv.hi)
  {
    PointsSnoc(out, iv);
    var all := out + [iv];
    forall i, j | 0 <= i < j < |all| ensures all[i].hi < all[j].lo {
      if j == |out| && i < |out| - 1 { assert out[i].hi < out[|out| - 1].lo; }
    }
  }

  /** What one interval makes of the list merged so far. */
  function Absorbed(out: seq<Interval>, iv: Interval): seq<Interval> {
    if out != [] && iv.lo <= out[|out| - 1].hi then
      if iv.hi > out[|out| - 1].hi then out[..|out| - 1] + [Interval(out[|out| - 1].lo, iv.hi)] else out
    else out + [iv]
  }

  ghost predicate MergedUpTo(sorted: seq<Interval>, k: nat, out: seq<Interval>) {
    && k <= |sorted| && Merged(out) && Points(out) == Points(sorted[..k])
    && (out != [] && k < |sorted| ==> out[|out| - 1].lo <= sorted[k].lo)
  }

  lemma AbsorbedIsMerged(out: seq<Interval>, iv: Interval)
    requires Merged(out) && iv.lo < iv.hi && (out != [] ==> out[|out| - 1].lo <= iv.lo)
    ensures var more := Absorbed(out, iv);
            Merged(more) && more[|more| - 1].lo <= iv.lo && Points(more) == Points(out) + Range(iv.lo, iv.hi)
  {
    if out != [] && iv.lo <= out[|out| - 1].hi {
      Extended(out, iv);
    } else {
      Appended(out, iv);
    }
  }

  lemma MergeStep(sorted: seq<Interval>, k: nat, out: seq<Interval>)
    requires Ready(sorted) && k < |sorted| && MergedUpTo(sorted, k, out)
    ensures MergedUpTo(sorted, k + 1, Absorbed(out, sorted[k]))
  {
    AbsorbedIsMerged(out, sorted[k]);
    PointsTake(sorted, k);
  }

  /** Sorted, strictly separated, non-empty union. */
  method Merge(intervals: seq<Interval>) returns (out: seq<Interval>)
    ensures Merged(out) && Points(out) == Points(intervals)
  {
    var sorted := SortNonEmpty(intervals);
    SortReady(intervals);
    out := [];
    for k := 0 to |sorted|
      invariant MergedUpTo(sorted, k, out)
    {
      var iv := sorted[k];
      MergeStep(sorted, k, out);
      if out != [] && iv.lo <= out[|out| - 1].hi {
        var last := out[|out| - 1];
        if iv.hi > last.hi {
          out := out[..|out| - 1] + [Interval(last.lo, iv.hi)];
        }
      } else {
        out := out + [iv];
      }
    }
    assert sorted[..|sorted|] == sorted;
  }

  function Clamped(ivs: seq<Interval>, lo: int, hi: int): seq<Interval> {
    if ivs == [] then []
    else [Interval(Max(ivs[0].lo, lo), Min(ivs[0].hi, hi))] + Clamped(ivs[1..], lo, hi)
  }

  lemma {:induction false} ClampedPoints(ivs: seq<Interval>, lo: int, hi: int)
    ensures Points(Clamped(ivs, lo, hi)) == Points(ivs) * Range(lo, hi)
  {
    if ivs != [] {
      ClampedPoints(ivs[1..], lo, hi);
      var first := Interval(Max(ivs[0].lo, lo), Min(ivs[0].hi, hi));
      assert Range(first.lo, first.hi) == Range(ivs[0].lo, ivs[0].hi) * Range(lo, hi);
      assert Clamped(ivs, lo, hi)[1..] == Clamped(ivs[1..], lo, hi);
    }
  }

  method Clip(intervals: seq<Interval>, lo: int, hi: int) returns (out: seq<Interval>)
    ensures Merged(out) && Points(out) == Points(intervals) * Range(lo, hi)
  {
    ClampedPoints(intervals, lo, hi);
    out := Merge(Clamped(intervals, lo, hi));
  }

  /** The complement after `k` intervals: everything uncovered up to the cursor. */
  ghost predicate Swept(ivs: seq<Interval>, k: nat, lo: int, cursor: int, out: seq<Interval>) {
    && k <= |ivs| && Merged(out) && lo <= cursor
    && (out != [] ==> out[|out| - 1].hi < cursor)
    && (forall x :: x in Points(out) <==> lo <= x < cursor && x !in Points(ivs))
    && (k > 0 ==> ivs[k - 1].hi <= cursor)
    && (cursor > lo ==> k > 0 && cursor == ivs[k - 1].hi)
  }

  lemma SweepStep(ivs: seq<Interval>, k: nat, lo: int, cursor: int, out: seq<Interval>)
    requires Merged(ivs) && k < |ivs| && Swept(ivs, k, lo, cursor, out)
    ensures var more := if ivs[k].lo > cursor then out + [Interval(cursor, ivs[k].lo)] else out;
            Swept(ivs, k + 1, lo, Max(cursor, ivs[k].hi), more)
  {
    InsideIsCovered(ivs, k);
    BetweenIsFree(ivs, k);
    if ivs[k].lo > cursor {
      Appended(out, Interval(cursor, ivs[k].lo));
      assert k > 0 ==> ivs[k - 1].hi <= cursor;
    } else {
      assert k > 0 ==> ivs[k - 1].hi < ivs[k].lo;
      assert cursor <= lo;
    }
  }

  /** Once every interval is swept: what is free up to the cursor, and all that follows it. */
  lemma SweepAll(ivs: seq<Interval>, lo: int, hi: int, cursor: int, out: seq<Interval>, all: seq<Interval>)
    requires Merged(ivs) && Swept(ivs, |ivs|, lo, cursor, out)
    requires all == if cursor < hi then out + [Interval(cursor, hi)] else out
    ensures Merged(all)
    ensures forall x :: x in Points(all) <==> (lo <= x < cursor && x !in Points(ivs)) || cursor <= x < hi
  {
    if cursor < hi { Appended(out, Interval(cursor, hi)); }
  }

  lemma SweepMissesNothing(ivs: seq<Interval>, lo: int, hi: int, cursor: int, all: set<int>)
    requires Merged(ivs) && lo <= hi && (ivs != [] ==> ivs[|ivs| - 1].hi <= cursor && ivs[|ivs| - 1].lo <= hi)
    requires lo <= cursor && (cursor > lo ==> ivs != [] && cursor == ivs[|ivs| - 1].hi)
    requires forall x :: x in all <==> (lo <= x < cursor && x !in Points(ivs)) || cursor <= x < hi
    ensures all == Range(lo, hi) - Points(ivs)
  {
    AfterIsFree(ivs);
    if ivs != [] { InsideIsCovered(ivs, |ivs| - 1); }
  }

  lemma SweepOverruns(ivs: seq<Interval>, lo: int, hi: int, cursor: int, all: set<int>)
    requires Merged(ivs) && lo <= hi && ivs != [] && ivs[|ivs| - 1].hi <= cursor && ivs[|ivs| - 1].lo > hi
    requires forall x :: x in all <==> (lo <= x < cursor && x !in Points(ivs)) || cursor <= x < hi
    ensures all != Range(lo, hi) - Points(ivs)
  {
    var last := |ivs| - 1;
    InsideIsCovered(ivs, last);
    BetweenIsFree(ivs, last);
    assert ivs[last].lo - 1 in all && ivs[last].lo - 1 !in Range(lo, hi);
  }

  lemma SweepEnd(ivs: seq<Interval>, lo: int, hi: int, cursor: int, out: seq<Interval>)
    requires Merged(ivs) && lo <= hi && Swept(ivs, |ivs|, lo, cursor, out)
    ensures var all := if cursor < hi then out + [Interval(cursor, hi)] else out;
            && Merged(all)
            && ((forall i :: 0 <= i < |ivs| ==> ivs[i].lo <= hi) <==> Points(all) == Range(lo, hi) - Points(ivs))
  {
    var all := if cursor < hi then out + [Interval(cursor, hi)] else out;
    SweepAll(ivs, lo, hi, cursor, out, all);
    PastEnd(ivs, hi);
    if ivs != [] && ivs[|ivs| - 1].lo > hi {
      SweepOverruns(ivs, lo, hi, cursor, Points(all));
    } else {
      SweepMissesNothing(ivs, lo, hi, cursor, Points(all));
    }
  }

  /** What is left of [lo, hi) once the merged intervals are removed. The loop relies on its callers
      having clipped the intervals: it is exact if and only if none of them starts past `hi`. */
  method Complement(intervals: seq<Interval>, lo: int, hi: int) returns (out: seq<Interval>)
    requires Merged(intervals) && lo <= hi
    ensures (forall i :: 0 <= i < |intervals| ==> intervals[i].lo <= hi)
            <==> Points(out) == Range(lo, hi) - Points(intervals)
    ensures Merged(out)
  {
    out := [];
    var cursor := lo;
    for k := 0 to |intervals|
      invariant Swept(intervals, k, lo, cursor, out)
    {
      SweepStep(intervals, k, lo, cursor, out);
      if intervals[k].lo > cursor {
        out := out + [Interval(cursor, intervals[k].lo)];
      }
      cursor := Max(cursor, intervals[k].hi);
    }
    SweepEnd(intervals, lo, hi, cursor, out);
    if cursor < hi {
      out := out + [Interval(cursor, hi)];
    }
  }

  lemma InsideIsCovered(ivs: seq<Interval>, k: nat)
    requires Merged(ivs) && k < |ivs|
    ensures forall x :: ivs[k].lo <= x < ivs[k].hi ==> x in Points(ivs)
  {
    forall x | ivs[k].lo <= x < ivs[k].hi ensures x in Points(ivs) { InPoints(ivs, x); }
  }

  lemma BetweenIsFree(ivs: seq<Interval>, k: nat)
    requires Merged(ivs) && k < |ivs|
    ensures forall x :: (k > 0 ==> ivs[k - 1].hi <= x) && x < ivs[k].lo ==> x !in Points(ivs)
  {
    forall x | (k > 0 ==> ivs[k - 1].hi <= x) && x < ivs[k].lo ensures x !in Points(ivs) {
      InPoints(ivs, x);
      forall i | 0 <= i < |ivs| ensures !(ivs[i].lo <= x < ivs[i].hi) {
        if i < k - 1 { assert ivs[i].hi < ivs[k - 1].lo; }
        if i > k { assert ivs[k].hi < ivs[i].lo; }
      }
    }
  }

  lemma AfterIsFree(ivs: seq<Interval>)
    requires Merged(ivs)
    ensures forall x :: (ivs != [] ==> ivs[|ivs| - 1].hi <= x) ==> x !in Points(ivs)
  {
    forall x | ivs != [] ==> ivs[|ivs| - 1].hi <= x ensures x !in Points(ivs) {
      InPoints(ivs, x);
      forall i | 0 <= i < |ivs| ensures !(ivs[i].lo <= x < ivs[i].hi) {
        if i < |ivs| - 1 { assert ivs[i].hi < ivs[|ivs| - 1].lo; }
      }
    }
  }

  lemma PastEnd(ivs: seq<Interval>, hi: int)
    requires Merged(ivs)
    ensures (exists i :: 0 <= i < |ivs| && ivs[i].lo > hi) ==> ivs != [] && ivs[|ivs| - 1].lo > hi
  {
    if exists i :: 0 <= i < |ivs| && ivs[i].lo > hi {
      var i :| 0 <= i < |ivs| && ivs[i].lo > hi;
      if i < |ivs| - 1 { assert ivs[i].hi < ivs[|ivs| - 1].lo; }
    }
  }

  /** The intersection after i and j intervals: the part inside those, ending before what is next. */
  ghost predicate Zipped(a: seq<Interval>, b: seq<Interval>, i: nat, j: nat, out: seq<Interval>) {
    && i <= |a| && j <= |b| && Merged(out)
    && Points(out) == Points(a[..i]) * Points(b) + Points(a) * Points(b[..j])
    && EndsBefore(out, a, b, i, j)
  }

  function WithPiece(out: seq<Interval>, p: Interval, q: Interval): seq<Interval> {
    var piece := Interval(Max(p.lo, q.lo), Min(p.hi, q.hi));
    if piece.hi > piece.lo then out + [piece] else out
  }

  lemma PieceJoins(out: seq<Interval>, piece: Interval, more: seq<Interval>)
    requires Merged(out) && (out != [] && piece.hi > piece.lo ==> out[|out| - 1].hi < piece.lo)
    requires more == if piece.hi > piece.lo then out + [piece] else out
    ensures Merged(more) && Points(more) == Points(out) + Range(piece.lo, piece.hi)
    ensures more != [] ==> more[|more| - 1].hi <= piece.hi || more == out
  {
    if piece.hi > piece.lo { Appended(out, piece); } else { assert Range(piece.lo, piece.hi) == {}; }
  }

  lemma ZipStep(a: seq<Interval>, b: seq<Interval>, i: nat, j: nat, out: seq<Interval>)
    requires Merged(a) && Merged(b) && i < |a| && j < |b| && Zipped(a, b, i, j, out)
    ensures if a[i].hi < b[j].hi then Zipped(a, b, i + 1, j, WithPiece(out, a[i], b[j]))
            else Zipped(a, b, i, j + 1, WithPiece(out, a[i], b[j]))
  {
    var piece := Interval(Max(a[i].lo, b[j].lo), Min(a[i].hi, b[j].hi));
    var more := WithPiece(out, a[i], b[j]);
    PieceJoins(out, piece, more);
    if a[i].hi < b[j].hi {
      ZipPoints(a, b, i, j, Points(out), piece);
      ZipOrder(a, b, i, j, out, more);
    } else {
      ZipPoints(b, a, j, i, Points(out), piece);
      ZipOrder(b, a, j, i, out, more);
    }
  }

  /** What is out ends before what is next, in one list or the other. */
  ghost predicate EndsBefore(out: seq<Interval>, a: seq<Interval>, b: seq<Interval>, i: nat, j: nat) {
    out != [] && i < |a| && j < |b| ==> out[|out| - 1].hi < a[i].lo || out[|out| - 1].hi < b[j].lo
  }

  lemma ZipOrder(a: seq<Interval>, b: seq<Interval>, i: nat, j: nat, out: seq<Interval>, more: seq<Interval>)
    requires Merged(a) && i < |a| && j < |b| && EndsBefore(out, a, b, i, j)
    requires more == out || (more != [] && more[|more| - 1].hi <= a[i].hi)
    ensures EndsBefore(more, a, b, i + 1, j)
  {
    if i + 1 < |a| { assert a[i].hi < a[i + 1].lo; }
  }

  /** The list whose interval ends first moves on. */
  lemma ZipPoints(a: seq<Interval>, b: seq<Interval>, i: nat, j: nat, out: set<int>, piece: Interval)
    requires Merged(a) && Merged(b) && i < |a| && j < |b| && a[i].hi <= b[j].hi
    requires out == Points(a[..i]) * Points(b) + Points(a) * Points(b[..j])
    requires piece == Interval(Max(a[i].lo, b[j].lo), Min(a[i].hi, b[j].hi))
    ensures out + Range(piece.lo, piece.hi) == Points(a[..i + 1]) * Points(b) + Points(a) * Points(b[..j])
  {
    Meets(a, b, i, j);
    PointsTake(a, i);
    Advance(out, Points(a), Points(a[..i]), Points(b), Points(b[..j]), Range(a[i].lo, a[i].hi),
            Range(piece.lo, piece.hi));
  }

  lemma ZipEnd(a: seq<Interval>, b: seq<Interval>, i: nat, j: nat, out: seq<Interval>)
    requires Zipped(a, b, i, j, out) && (i == |a| || j == |b|)
    ensures Points(out) == Points(a) * Points(b)
  {
    assert a[..|a|] == a && b[..|b|] == b;
    PrefixPoints(a, i);
    PrefixPoints(b, j);
  }

  /** Intersection of two merged lists, advancing the one that ends first. */
  method Intersect(a: seq<Interval>, b: seq<Interval>) returns (out: seq<Interval>)
    requires Merged(a) && Merged(b)
    ensures Merged(out) && Points(out) == Points(a) * Points(b)
  {
    out := [];
    var i, j := 0, 0;
    while i < |a| && j < |b|
      invariant 0 <= i <= |a| && 0 <= j <= |b|
      invariant Zipped(a, b, i, j, out)
      decreases |a| + |b| - i - j
    {
      ghost var more := WithPiece(out, a[i], b[j]);
      ZipStep(a, b, i, j, out);
      var lo, hi := Max(a[i].lo, b[j].lo), Min(a[i].hi, b[j].hi);
      if hi > lo {
        out := out + [Interval(lo, hi)];
      }
      assert out == more;
      if a[i].hi < b[j].hi {
        i := i + 1;
      } else {
        j := j + 1;
      }
    }
    ZipEnd(a, b, i, j, out);
  }

  lemma Advance(out: set<int>, all: set<int>, done: set<int>, others: set<int>, past: set<int>, next: set<int>,
                piece: set<int>)
    requires out == done * others + all * past
    requires next <= all && next * others == next * past + piece
    ensures out + piece == (done + next) * others + all * past
  {
    forall x ensures x in out + piece <==> x in (done + next) * others + all * past {
      assert x in next * others <==> x in next * past + piece;
    }
  }

  lemma PrefixPoints(a: seq<Interval>, i: nat)
    requires i <= |a|
    ensures Points(a[..i]) <= Points(a)
  {
    assert a == a[..i] + a[i..];
    PointsAppend(a[..i], a[i..]);
  }

  /** An interval that does not outlast b[j] meets b only before or inside b[j]. */
  lemma Meets(a: seq<Interval>, b: seq<Interval>, i: nat, j: nat)
    requires Merged(a) && Merged(b) && i < |a| && j < |b|
    ensures a[i].hi <= b[j].hi ==>
              Range(a[i].lo, a[i].hi) * Points(b)
              == Range(a[i].lo, a[i].hi) * Points(b[..j]) + Range(Max(a[i].lo, b[j].lo), Min(a[i].hi, b[j].hi))
    ensures Range(Max(a[i].lo, b[j].lo), Min(a[i].hi, b[j].hi)) <= Points(a) * Points(b)
    ensures Range(a[i].lo, a[i].hi) <= Points(a)
  {
    InsideIsCovered(a, i);
    InsideIsCovered(b, j);
    if a[i].hi <= b[j].hi {
      PrefixPoints(b, j);
      assert forall m :: j < m < |b| ==> b[j].hi < b[m].lo;
      forall x | x in Range(a[i].lo, a[i].hi) && x in Points(b)
        ensures x in Points(b[..j]) || b[j].lo <= x
      {
        InPoints(b, x);
        var k :| 0 <= k < |b| && b[k].lo <= x < b[k].hi;
        if k < j {
          assert b[..j][k] == b[k];
          InPoints(b[..j], x);
        }
      }
    }
  }

  lemma Joined(a: seq<Interval>, b: seq<Interval>)
    requires Merged(a) && Merged(b)
    requires forall i, j :: 0 <= i < |a| && 0 <= j < |b| ==> a[i].hi < b[j].lo
    ensures Merged(a + b) && Points(a + b) == Points(a) + Points(b)
  {
    PointsAppend(a, b);
  }

  /** `a` minus `holes`, both merged. */
  method Subtract(a: seq<Interval>, holes: seq<Interval>) returns (out: seq<Interval>)
    requires Merged(a) && Merged(holes)
    ensures Merged(out) && Points(out) == Points(a) - Points(holes)
  {
    out := [];
    for i := 0 to |a|
      invariant Merged(out) && Points(out) == Points(a[..i]) - Points(holes)
      invariant forall k :: 0 <= k < |out| && i < |a| ==> out[k].hi < a[i].lo
    {
      PointsTake(a, i);
      var pieces := Cut(a[i], holes);
      Joined(out, pieces);
      out := out + pieces;
      if i + 1 < |a| { assert a[i].hi < a[i + 1].lo; }
    }
    assert a[..|a|] == a;
  }

  /** One interval after `k` holes: everything of it up to the cursor that no hole covers. */
  ghost predicate CutUpTo(iv: Interval, holes: seq<Interval>, k: nat, cursor: int, out: seq<Interval>) {
    && k <= |holes| && iv.lo <= cursor && Merged(out)
    && (forall m :: 0 <= m < |out| ==> iv.lo <= out[m].lo && out[m].hi <= iv.hi && out[m].hi < cursor)
    && (forall x :: x in Points(out) <==> iv.lo <= x < cursor && x < iv.hi && x !in Points(holes))
    && (forall m :: 0 <= m < k ==> holes[m].hi <= cursor || holes[m].lo >= iv.hi)
  }

  lemma CutStep(iv: Interval, holes: seq<Interval>, k: nat, cursor: int, out: seq<Interval>)
    requires Merged(holes) && k < |holes| && CutUpTo(iv, holes, k, cursor, out)
    ensures var hole := holes[k];
            if hole.hi <= cursor || hole.lo >= iv.hi then CutUpTo(iv, holes, k + 1, cursor, out)
            else CutUpTo(iv, holes, k + 1, Max(cursor, hole.hi),
                         if hole.lo > cursor then out + [Interval(cursor, hole.lo)] else out)
  {
    var hole := holes[k];
    if !(hole.hi <= cursor || hole.lo >= iv.hi) {
      InsideIsCovered(holes, k);
      if hole.lo > cursor { CutBefore(iv, holes, k, cursor, out); }
    }
  }

  lemma CutBefore(iv: Interval, holes: seq<Interval>, k: nat, cursor: int, out: seq<Interval>)
    requires Merged(holes) && k < |holes| && CutUpTo(iv, holes, k, cursor, out) && cursor < holes[k].lo < iv.hi
    ensures CutUpTo(iv, holes, k + 1, Max(cursor, holes[k].hi), out + [Interval(cursor, holes[k].lo)])
  {
    InsideIsCovered(holes, k);
    FreeBefore(holes, k, cursor, iv.hi);
    Appended(out, Interval(cursor, holes[k].lo));
  }

  /** The inner loop of `subtract`: one interval minus the holes. */
  method Cut(iv: Interval, holes: seq<Interval>) returns (out: seq<Interval>)
    requires Merged(holes) && iv.lo < iv.hi
    ensures Merged(out) && Points(out) == Range(iv.lo, iv.hi) - Points(holes)
    ensures forall k :: 0 <= k < |out| ==> iv.lo <= out[k].lo && out[k].hi <= iv.hi
  {
    out := [];
    var cursor := iv.lo;
    for k := 0 to |holes|
      invariant CutUpTo(iv, holes, k, cursor, out)
    {
      CutStep(iv, holes, k, cursor, out);
      var hole := holes[k];
      if hole.hi <= cursor || hole.lo >= iv.hi { continue; }
      if hole.lo > cursor {
        out := out + [Interval(cursor, hole.lo)];
      }
      cursor := Max(cursor, hole.hi);
    }
    var all := if cursor < iv.hi then out + [Interval(cursor, iv.hi)] else out;
    CutEnd(iv, holes, cursor, out, all);
    out := all;
  }

  /** After the last hole, what the cursor has not reached is kept whole. */
  lemma CutEnd(iv: Interval, holes: seq<Interval>, cursor: int, out: seq<Interval>, all: seq<Interval>)
    requires Merged(holes) && CutUpTo(iv, holes, |holes|, cursor, out)
    requires all == if cursor < iv.hi then out + [Interval(cursor, iv.hi)] else out
    ensures Merged(all) && Points(all) == Range(iv.lo, iv.hi) - Points(holes)
    ensures forall k :: 0 <= k < |all| ==> iv.lo <= all[k].lo && all[k].hi <= iv.hi
  {
    if cursor < iv.hi {
      Appended(out, Interval(cursor, iv.hi));
      RestIsFree(iv, holes, cursor, out);
    } else {
      NoneIsLeft(iv, holes, cursor, out);
    }
  }

  lemma NoneIsLeft(iv: Interval, holes: seq<Interval>, cursor: int, out: seq<Interval>)
    requires CutUpTo(iv, holes, |holes|, cursor, out) && iv.hi <= cursor
    ensures Points(out) == Range(iv.lo, iv.hi) - Points(holes)
  {
    forall x ensures x in Points(out) <==> x in Range(iv.lo, iv.hi) - Points(holes) {}
  }

  lemma RestIsFree(iv: Interval, holes: seq<Interval>, cursor: int, out: seq<Interval>)
    requires Merged(holes) && CutUpTo(iv, holes, |holes|, cursor, out) && cursor < iv.hi
    ensures Points(out) + Range(cursor, iv.hi) == Range(iv.lo, iv.hi) - Points(holes)
  {
    FreeAfter(holes, cursor, iv.hi);
    forall x ensures x in Points(out) + Range(cursor, iv.hi) <==> x in Range(iv.lo, iv.hi) - Points(holes) {}
  }

  lemma FreeBefore(holes: seq<Interval>, k: nat, cursor: int, hi: int)
    requires Merged(holes) && k < |holes| && cursor < holes[k].lo < hi
    requires forall m :: 0 <= m < k ==> holes[m].hi <= cursor || holes[m].lo >= hi
    ensures forall x :: cursor <= x < holes[k].lo ==> x !in Points(holes)
  {
    forall x | cursor <= x < holes[k].lo ensures x !in Points(holes) {
      InPoints(holes, x);
      forall i | 0 <= i < |holes| ensures !(holes[i].lo <= x < holes[i].hi) {
        if i > k { assert holes[k].hi < holes[i].lo; }
      }
    }
  }

  lemma FreeAfter(holes: seq<Interval>, cursor: int, hi: int)
    requires forall m :: 0 <= m < |holes| ==> holes[m].hi <= cursor || holes[m].lo >= hi
    ensures forall x :: cursor <= x < hi ==> x !in Points(holes)
  {
    forall x | cursor <= x < hi ensures x !in Points(holes) { InPoints(holes, x); }
  }
}
