/** Shared vocabulary: options, and finite sets of timestamps in order. */
module Basics {

  datatype Option<+T> = None | Some(value: T)

  datatype Result<+T> = Success(value: T) | Failure(error: string)

  function Max(a: int, b: int): int { if a < b then b else a }

  function Min(a: int, b: int): int { if a < b then a else b }

  function Digits(n: nat): string {
    if n < 10 then ["0123456789"[n]] else Digits(n / 10) + ["0123456789"[n % 10]]
  }

  function Decimal(n: int): string { if n < 0 then "-" + Digits(-n) else Digits(n) }

  // ------------------------------------------------------------ extrema of finite sets

  lemma Inhabited(s: set<int>)
    ensures s == {} || exists x :: x in s
  {
    if forall x :: x !in s { assert s == {}; }
  }

  lemma {:induction false} HasMax(s: set<int>)
    requires s != {}
    ensures exists m :: m in s && forall x :: x in s ==> x <= m
  {
    Inhabited(s); var a :| a in s;
    var rest := s - {a};
    if rest == {} {
      assert s == {a};
    } else {
      HasMax(rest);
      var m :| m in rest && forall x :: x in rest ==> x <= m;
      assert forall x :: x in s ==> x == a || x in rest;
      var n := Max(a, m);
      assert n in s && forall x :: x in s ==> x <= n;
    }
  }

  lemma {:induction false} HasMin(s: set<int>)
    requires s != {}
    ensures exists m :: m in s && forall x :: x in s ==> m <= x
  {
    Inhabited(s); var a :| a in s;
    var rest := s - {a};
    if rest == {} {
      assert s == {a};
    } else {
      HasMin(rest);
      var m :| m in rest && forall x :: x in rest ==> m <= x;
      assert forall x :: x in s ==> x == a || x in rest;
      var n := Min(a, m);
      assert n in s && forall x :: x in s ==> n <= x;
    }
  }

  /** `SELECT max(..)`: None on an empty table. */
  function MaxOf(s: set<int>): (m: Option<int>)
    ensures m.None? <==> s == {}
    ensures m.Some? ==> m.value in s && forall x :: x in s ==> x <= m.value
  {
    if s == {} then None
    else
      HasMax(s);
      var m :| m in s && forall x :: x in s ==> x <= m;
      Some(m)
  }

  function MinOf(s: set<int>): (m: Option<int>)
    ensures m.None? <==> s == {}
    ensures m.Some? ==> m.value in s && forall x :: x in s ==> m.value <= x
  {
    if s == {} then None
    else
      HasMin(s);
      var m :| m in s && forall x :: x in s ==> m <= x;
      Some(m)
  }

  // ------------------------------------------------------------ sorted enumeration

  ghost predicate Increasing(ts: seq<int>) {
    forall i, j :: 0 <= i < j < |ts| ==> ts[i] < ts[j]
  }

  lemma SortedCons(s: set<int>, m: int, rest: seq<int>)
    requires m in s && (forall x :: x in s ==> m <= x) && Increasing(rest) && |rest| == |s - {m}|
    requires forall x :: x in rest <==> x in s - {m}
    ensures Increasing([m] + rest) && |[m] + rest| == |s|
    ensures forall x :: x in [m] + rest <==> x in s
  {
    forall i | 0 <= i < |rest| ensures m < rest[i] { assert rest[i] in rest; }
    assert s == (s - {m}) + {m};
  }

  /** `sorted(..)` of a set of distinct timestamps. */
  function Sorted(s: set<int>): (r: seq<int>)
    ensures forall x :: x in r <==> x in s
    ensures Increasing(r)
    ensures |r| == |s|
    decreases |s|
  {
    if s == {} then []
    else
      var m := MinOf(s).value;
      var rest := Sorted(s - {m});
      SortedCons(s, m, rest);
      [m] + rest
  }

  lemma {:induction false} SortedIsUnique(r: seq<int>, q: seq<int>)
    requires Increasing(r) && Increasing(q)
    requires forall x :: x in r <==> x in q
    ensures r == q
    decreases |r|
  {
    assert q != [] ==> q[0] in q && q[0] in r;
    if r != [] {
      assert r[0] in r && r[0] in q;
      assert q != [] && q[0] in q && q[0] in r;
      assert r[0] == q[0];
      assert r == [r[0]] + r[1..] && q == [q[0]] + q[1..];
      forall x ensures x in r[1..] <==> x in q[1..] {
        assert x in r[1..] ==> x in r && x != r[0];
        assert x in q[1..] ==> x in q && x != q[0];
      }
      SortedIsUnique(r[1..], q[1..]);
    }
  }

  /** Sorting a union of a low and a high set concatenates the two sorted halves. */
  lemma SortedSplits(low: set<int>, high: set<int>)
    requires forall x, y :: x in low && y in high ==> x < y
    ensures Sorted(low + high) == Sorted(low) + Sorted(high)
  {
    var r := Sorted(low) + Sorted(high);
    forall x ensures x in r <==> x in low + high {
      assert x in r <==> x in Sorted(low) || x in Sorted(high);
    }
    forall i, j | 0 <= i < j < |r| ensures r[i] < r[j] {
      if i < |Sorted(low)| <= j {
        assert r[i] == Sorted(low)[i] && r[j] == Sorted(high)[j - |Sorted(low)|];
        assert Sorted(low)[i] in low && Sorted(high)[j - |Sorted(low)|] in high;
      }
    }
    SortedIsUnique(Sorted(low + high), r);
  }

  lemma SortedSingle(x: int)
    ensures Sorted({x}) == [x]
  {
    SortedIsUnique(Sorted({x}), [x]);
  }

  /** Two finite sets that are translates of each other have the same size. */
  lemma {:induction false} TranslateKeepsSize(a: set<int>, b: set<int>, d: int)
    requires forall y :: y in b <==> y - d in a
    ensures |a| == |b|
    decreases a
  {
    if a == {} {
      assert b == {} by {
        assert forall y :: y in b ==> y - d in a;
      }
    } else {
      Inhabited(a); var x :| x in a;
      assert (x + d) - d in a;
      assert x + d in b;
      TranslateKeepsSize(a - {x}, b - {x + d}, d);
    }
  }
}
