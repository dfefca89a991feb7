/** simulator/cell_sim/shifts.py: the calendar of planned breaks, in seconds of plant time. */
module Shifts {
  import opened Basics

  /** One break per shift start, every day; the constructor sorts the starts (`starts`, in seconds
      since midnight). */
  datatype Calendar = Calendar(starts: seq<real>, offset: real, duration: real)

  /** The window of the i-th start of a day. */
  datatype Slot = Slot(day: int, i: nat)

  /** What configuration validation guarantees for distinct shift starts. */
  ghost predicate ValidCalendar(c: Calendar) {
    && c.starts != [] && c.offset > 0.0 && c.duration > 0.0
    && (forall i :: 0 <= i < |c.starts| ==> 0.0 <= c.starts[i] < 86_400.0)
    && (forall i, j :: 0 <= i < j < |c.starts| ==> c.starts[i] < c.starts[j])
  }

  ghost predicate ValidSlot(c: Calendar, w: Slot) { w.i < |c.starts| }

  function StartOf(c: Calendar, w: Slot): real
    requires w.i < |c.starts|
  {
    w.day as real * 86_400.0 + c.starts[w.i] + c.offset
  }

  function EndOf(c: Calendar, w: Slot): real
    requires w.i < |c.starts|
  {
    StartOf(c, w) + c.duration
  }

  /** The order in which `_windows` yields them. */
  function Succ(c: Calendar, w: Slot): Slot {
    if w.i + 1 < |c.starts| then Slot(w.day, w.i + 1) else Slot(w.day + 1, 0)
  }

  predicate Earlier(v: Slot, w: Slot) { v.day < w.day || (v.day == w.day && v.i < w.i) }

  function DayAt(ts: real): (d: int)
    ensures d as real * 86_400.0 <= ts < (d + 1) as real * 86_400.0
  {
    (ts / 86_400.0).Floor
  }

  /** The first window, from w on, that has not ended. */
  function Search(c: Calendar, w: Slot, after: real): (r: Slot)
    requires ValidCalendar(c) && ValidSlot(c, w) && w.day <= DayAt(after) + 1
    ensures ValidSlot(c, r) && EndOf(c, r) > after
    ensures !Earlier(r, w)
    ensures forall v :: ValidSlot(c, v) && !Earlier(v, w) && Earlier(v, r) ==> EndOf(c, v) <= after
    decreases DayAt(after) + 2 - w.day, |c.starts| - w.i
  {
    if EndOf(c, w) > after then w else Search(c, Succ(c, w), after)
  }

  function NextWindow(c: Calendar, after: real): (r: Slot)
    requires ValidCalendar(c)
    ensures ValidSlot(c, r) && EndOf(c, r) > after
  {
    Search(c, Slot(DayAt(after) - 2, 0), after)
  }

  /** `next_window` over the generator `_windows`: one loop over the days, one over the starts. */
  method FindNextWindow(c: Calendar, after: real) returns (r: Slot)
    requires ValidCalendar(c)
    ensures r == NextWindow(c, after)
  {
    var today := DayAt(after);
    var day := today - 2;
    while true
      invariant day <= today + 1 && Search(c, Slot(day, 0), after) == NextWindow(c, after)
      decreases today + 2 - day
    {
      var found := FindOnDay(c, day, after);
      if found.Some? { return found.value; }
      day := day + 1;
    }
  }

  method FindOnDay(c: Calendar, day: int, after: real) returns (found: Option<Slot>)
    requires ValidCalendar(c) && day <= DayAt(after) + 1
    ensures match found
            case Some(w) => Search(c, Slot(day, 0), after) == w
            case None => day <= DayAt(after) && Search(c, Slot(day, 0), after) == Search(c, Slot(day + 1, 0), after)
  {
    ghost var today, first := DayAt(after), Slot(day, 0);
    for i := 0 to |c.starts|
      invariant var w := if i < |c.starts| then Slot(day, i) else Slot(day + 1, 0);
                w.day <= today + 1 && Search(c, w, after) == Search(c, first, after)
    {
      var w := Slot(day, i);
      SearchStep(c, w, after, today, Succ(c, w));
      if EndOf(c, w) > after { return Some(w); }
    }
    found := None;
  }

  lemma SearchStep(c: Calendar, w: Slot, after: real, today: int, next: Slot)
    requires ValidCalendar(c) && ValidSlot(c, w) && today == DayAt(after) && w.day <= today + 1 && next == Succ(c, w)
    ensures if EndOf(c, w) > after then Search(c, w, after) == w
            else next.day <= today + 1 && Search(c, w, after) == Search(c, next, after)
  {
  }

  // ------------------------------------------------------------ windows in order

  lemma LaterStartsLater(c: Calendar, v: Slot, w: Slot)
    requires ValidCalendar(c) && ValidSlot(c, v) && ValidSlot(c, w) && Earlier(v, w)
    ensures StartOf(c, v) < StartOf(c, w)
  {
    if v.day < w.day {
      assert w.day as real >= v.day as real + 1.0;
    }
  }

  /** The earliest of all windows, past and future, that have not ended. */
  ghost predicate EarliestOpen(c: Calendar, w: Slot, after: real) {
    && ValidSlot(c, w) && EndOf(c, w) > after
    && forall v :: ValidSlot(c, v) && EndOf(c, v) > after ==> StartOf(c, w) <= StartOf(c, v)
  }

  ghost predicate AlwaysEarliest(c: Calendar)
    requires ValidCalendar(c)
  {
    forall after: real :: EarliestOpen(c, NextWindow(c, after), after)
  }

  /** The last break of a day is over by the end of the second day after it. */
  predicate EndsInTime(c: Calendar)
    requires c.starts != []
  {
    c.starts[|c.starts| - 1] + c.offset + c.duration <= 259_200.0
  }

  lemma OldWindowsEnded(c: Calendar, v: Slot, after: real)
    requires ValidCalendar(c) && EndsInTime(c) && ValidSlot(c, v)
    ensures v.day <= DayAt(after) - 3 ==> EndOf(c, v) <= after
  {
    assert v.day <= DayAt(after) - 3 ==> v.day as real <= DayAt(after) as real - 3.0;
    assert c.starts[v.i] <= c.starts[|c.starts| - 1];
  }

  lemma NextIsEarliest(c: Calendar, after: real)
    requires ValidCalendar(c) && EndsInTime(c)
    ensures EarliestOpen(c, NextWindow(c, after), after)
  {
    var w := NextWindow(c, after);
    forall v | ValidSlot(c, v) && EndOf(c, v) > after ensures StartOf(c, w) <= StartOf(c, v) {
      OldWindowsEnded(c, v, after);
      if Earlier(w, v) { LaterStartsLater(c, w, v); }
    }
  }

  /** Starting the search two days back finds the earliest open window at every instant exactly when
      the last break of a day ends within 72 hours of that day's start. */
  lemma NextIsEarliestIff(c: Calendar)
    requires ValidCalendar(c)
    ensures AlwaysEarliest(c) <==> EndsInTime(c)
  {
    if EndsInTime(c) {
      forall after: real ensures EarliestOpen(c, NextWindow(c, after), after) {
        NextIsEarliest(c, after);
      }
    } else {
      var missed, w := Slot(-3, |c.starts| - 1), NextWindow(c, 0.0);
      assert DayAt(0.0) == 0;
      assert EndOf(c, missed) > 0.0;
      LaterStartsLater(c, missed, w);
      assert !EarliestOpen(c, w, 0.0);
    }
  }

  /** A break 300 000 seconds after midnight: at time 0 the break of three days ago is still to come, and
      the search passes it over. */
  lemma LateOffsetIsMissed(c: Calendar)
    requires c == Calendar([0.0], 300_000.0, 600.0)
    ensures ValidCalendar(c) && !AlwaysEarliest(c)
    ensures var missed, w := Slot(-3, 0), NextWindow(c, 0.0);
            ValidSlot(c, missed) && ValidSlot(c, w) && 0.0 < StartOf(c, missed) < StartOf(c, w)
  {
    var missed, w := Slot(-3, 0), NextWindow(c, 0.0);
    NextIsEarliestIff(c);
    assert DayAt(0.0) == 0;
    LaterStartsLater(c, missed, w);
  }

  // ------------------------------------------------------------ successive armings

  lemma NothingBetween(c: Calendar, v: Slot, w: Slot)
    requires ValidSlot(c, v) && ValidSlot(c, w) && Earlier(v, w)
    ensures w == Succ(c, v) || Earlier(Succ(c, v), w)
  {
  }

  /** The next window ends more than a second later, and on a day the search looks at. */
  predicate Followed(c: Calendar, w: Slot)
    requires ValidCalendar(c) && ValidSlot(c, w)
  {
    EndOf(c, Succ(c, w)) > EndOf(c, w) + 1.0 && Succ(c, w).day >= DayAt(EndOf(c, w) + 1.0) - 2
  }

  /** Arming one second past a window's end never repeats a window, and skips none exactly when the next
      one ends more than one second later and is not too old to be looked at. */
  lemma ArmingIsNext(c: Calendar, w: Slot)
    requires ValidCalendar(c) && ValidSlot(c, w)
    ensures NextWindow(c, EndOf(c, w) + 1.0) == Succ(c, w) <==> Followed(c, w)
    ensures Earlier(w, NextWindow(c, EndOf(c, w) + 1.0))
  {
    var after, next := EndOf(c, w) + 1.0, Succ(c, w);
    var r, first := NextWindow(c, after), Slot(DayAt(after) - 2, 0);
    if Earlier(r, w) { LaterStartsLater(c, r, w); }
    assert Earlier(w, r);
    NothingBetween(c, w, r);
    assert !Earlier(r, first);
    assert Followed(c, w) ==> ValidSlot(c, next) && !Earlier(next, first);
  }

  /** A whole calendar is followed through where breaks start at whole minutes and end in time. */
  lemma WholeMinutesFollow(c: Calendar, minutes: seq<int>, w: Slot)
    requires ValidCalendar(c) && EndsInTime(c) && ValidSlot(c, w)
    requires |minutes| == |c.starts| && forall i :: 0 <= i < |minutes| ==> c.starts[i] == minutes[i] as real * 60.0
    ensures Followed(c, w)
  {
    WholeMinutesAreApart(c, minutes, w);
    var after, last := EndOf(c, w) + 1.0, |c.starts| - 1;
    var day := DayAt(after);
    if w.i < last {
      assert c.starts[w.i + 1] <= c.starts[last];
      assert after < (w.day + 3) as real * 86_400.0;
      assert day < w.day + 3;
    } else {
      assert after < (w.day + 4) as real * 86_400.0;
      assert day < w.day + 4;
    }
  }

  /** Starts at whole minutes, as the configuration writes them, always leave that second. */
  lemma WholeMinutesAreApart(c: Calendar, minutes: seq<int>, w: Slot)
    requires ValidCalendar(c) && ValidSlot(c, w)
    requires |minutes| == |c.starts| && forall i :: 0 <= i < |minutes| ==> c.starts[i] == minutes[i] as real * 60.0
    ensures EndOf(c, Succ(c, w)) >= EndOf(c, w) + 60.0
  {
    var next := Succ(c, w);
    if next.day == w.day {
      assert c.starts[w.i] < c.starts[next.i];
      assert minutes[w.i] + 1 <= minutes[next.i];
      assert minutes[next.i] as real >= minutes[w.i] as real + 1.0;
    } else {
      assert minutes[w.i] < 1440;
      assert minutes[w.i] <= 1439;
      assert minutes[w.i] as real <= 1439.0;
      assert (w.day + 1) as real == w.day as real + 1.0;
    }
  }
}
