/** backend/app/oee/windows.py: shifts and production days, clipped to the requested range. */
module Windows {
  import opened Basics
  import opened Counters
  import opened Oee
  import opened OeeLaws

  const DAY_S := 86_400
  const DAY := 86_400_000_000

  /** Start and end in seconds since midnight; the end may be at or before the start. */
  datatype Shift = Shift(name: string, start: int, end: int)

  datatype Plan = Plan(shifts: seq<Shift>, dayStart: int)

  /** A number of seconds, in microseconds. */
  function Seconds(n: int): int { n * 1_000_000 }

  function Midnight(ts: int): int { ts / 86_400_000_000 * 86_400_000_000 }

  function ShiftLength(s: Shift): int {
    var m := (s.end - s.start) % DAY_S;
    if m == 0 then DAY_S else m
  }

  /** `_clip`: the part inside [lo, hi), if any. */
  function Clipped(name: string, start: int, end: int, lo: int, hi: int): seq<Window> {
    var s, e := Max(start, lo), Min(end, hi);
    if e > s then [Window(name, s, e)] else []
  }

  function StartOn(day: int, s: Shift): int { day + Seconds(s.start) }

  function EndOn(day: int, s: Shift): int { StartOn(day, s) + Seconds(ShiftLength(s)) }

  /** The date a window starts on, as a day number. */
  function DayLabel(start: int): string { Decimal(start / 86_400_000_000) }

  function Label(start: int, name: string): string { DayLabel(start) + " " + name }

  function ShiftsOn(day: int, shifts: seq<Shift>, frm: int, to: int): seq<Window> {
    if shifts == [] then []
    else
      var s := shifts[0];
      Clipped(Label(StartOn(day, s), s.name), StartOn(day, s), EndOn(day, s), frm, to)
          + ShiftsOn(day, shifts[1..], frm, to)
  }

  function ShiftsFrom(day: int, shifts: seq<Shift>, frm: int, to: int): seq<Window>
    decreases (to - day)
  {
    if day >= to then [] else ShiftsOn(day, shifts, frm, to) + ShiftsFrom(day + DAY, shifts, frm, to)
  }

  function InsertWindow(w: Window, sorted: seq<Window>): seq<Window> {
    if sorted == [] || w.start <= sorted[0].start then [w] + sorted else [sorted[0]] + InsertWindow(w, sorted[1..])
  }

  function ByStart(ws: seq<Window>): seq<Window> {
    if ws == [] then [] else InsertWindow(ws[0], ByStart(ws[1..]))
  }

  function ShiftWindowsOf(frm: int, to: int, plan: Plan): seq<Window> {
    ByStart(ShiftsFrom(Midnight(frm) - DAY, plan.shifts, frm, to))
  }

  function DaysFrom(day: int, dayStart: int, frm: int, to: int): seq<Window>
    decreases (to - day)
  {
    if day >= to then []
    else
      var start := day + Seconds(dayStart);
      Clipped(DayLabel(start), start, start + DAY, frm, to) + DaysFrom(day + DAY, dayStart, frm, to)
  }

  function DayWindowsOf(frm: int, to: int, plan: Plan): seq<Window> {
    DaysFrom(Midnight(frm) - DAY, plan.dayStart, frm, to)
  }

  // ------------------------------------------------------------ the methods

  /** The inner loop: the shifts of one day. */
  method ShiftsOfDay(day: int, shifts: seq<Shift>, frm: int, to: int) returns (out: seq<Window>)
    ensures out == ShiftsOn(day, shifts, frm, to)
  {
    out := [];
    assert shifts[0..] == shifts;
    for i := 0 to |shifts|
      invariant out + ShiftsOn(day, shifts[i..], frm, to) == ShiftsOn(day, shifts, frm, to)
    {
      var s := shifts[i];
      var start := StartOn(day, s);
      var window := Clipped(Label(start, s.name), start, EndOn(day, s), frm, to);
      OneShift(day, shifts, i, frm, to, out, window);
      out := out + window;
    }
  }

  lemma OneShift(day: int, shifts: seq<Shift>, i: nat, frm: int, to: int, out: seq<Window>, window: seq<Window>)
    requires i < |shifts|
    requires var s := shifts[i];
             window == Clipped(Label(StartOn(day, s), s.name), StartOn(day, s), EndOn(day, s), frm, to)
    ensures (out + window) + ShiftsOn(day, shifts[i + 1..], frm, to) == out + ShiftsOn(day, shifts[i..], frm, to)
  {
    var tail, others := shifts[i..], ShiftsOn(day, shifts[i + 1..], frm, to);
    assert tail[0] == shifts[i] && tail[1..] == shifts[i + 1..];
    assert ShiftsOn(day, tail, frm, to) == window + others;
    assert (out + window) + others == out + (window + others);
  }

  method ShiftWindows(frm: int, to: int, plan: Plan) returns (out: seq<Window>)
    ensures out == ShiftWindowsOf(frm, to, plan)
  {
    out := [];
    var day := Midnight(frm) - DAY;
    ghost var all := ShiftsFrom(day, plan.shifts, frm, to);
    assert out + all == all;
    while day < to
      invariant out + ShiftsFrom(day, plan.shifts, frm, to) == all
      decreases (to - day)
    {
      var today := ShiftsOfDay(day, plan.shifts, frm, to);
      OneDayOfShifts(day, plan.shifts, frm, to, out, today, all);
      out := out + today;
      day := day + DAY;
    }
    assert out == all;
    out := ByStart(out);
  }

  lemma OneDayOfShifts(day: int, shifts: seq<Shift>, frm: int, to: int, out: seq<Window>, today: seq<Window>,
                       all: seq<Window>)
    requires day < to && today == ShiftsOn(day, shifts, frm, to) && out + ShiftsFrom(day, shifts, frm, to) == all
    ensures (out + today) + ShiftsFrom(day + DAY, shifts, frm, to) == all
  {
    ShiftsUnroll(day, shifts, frm, to, day + DAY);
    var later := ShiftsFrom(day + DAY, shifts, frm, to);
    assert (out + today) + later == out + (today + later);
  }

  lemma ShiftsUnroll(day: int, shifts: seq<Shift>, frm: int, to: int, next: int)
    requires day < to && next == day + DAY
    ensures ShiftsFrom(day, shifts, frm, to) == ShiftsOn(day, shifts, frm, to) + ShiftsFrom(next, shifts, frm, to)
  {
  }

  lemma DaysUnroll(day: int, dayStart: int, frm: int, to: int, start: int)
    requires day < to && start == day + Seconds(dayStart)
    ensures DaysFrom(day, dayStart, frm, to)
            == Clipped(DayLabel(start), start, start + DAY, frm, to) + DaysFrom(day + DAY, dayStart, frm, to)
  {
  }

  lemma DaysStep(day: int, dayStart: int, frm: int, to: int, start: int, out: seq<Window>, window: seq<Window>,
                 all: seq<Window>)
    requires day < to && start == day + Seconds(dayStart)
             && window == Clipped(DayLabel(start), start, start + DAY, frm, to)
    requires out + DaysFrom(day, dayStart, frm, to) == all
    ensures (out + window) + DaysFrom(day + DAY, dayStart, frm, to) == all
  {
    var later := DaysFrom(day + DAY, dayStart, frm, to);
    DaysUnroll(day, dayStart, frm, to, start);
    assert (out + window) + later == out + (window + later);
  }

  method DayWindows(frm: int, to: int, plan: Plan) returns (out: seq<Window>)
    ensures out == DayWindowsOf(frm, to, plan)
  {
    out := [];
    var day := Midnight(frm) - DAY;
    ghost var all := DaysFrom(day, plan.dayStart, frm, to);
    assert out + all == all;
    while day < to
      invariant out + DaysFrom(day, plan.dayStart, frm, to) == all
      decreases (to - day)
    {
      var start := day + Seconds(plan.dayStart);
      var window := Clipped(DayLabel(start), start, start + DAY, frm, to);
      DaysStep(day, plan.dayStart, frm, to, start, out, window, all);
      out := out + window;
      day := day + DAY;
    }
    assert out == all;
  }

  // ------------------------------------------------------------ what each window is

  /** From its start to its end, past midnight if need be; a whole day where they are the same. */
  function LengthInSeconds(s: Shift): int {
    if (s.end - s.start) % 86_400 == 0 then 86_400 else (s.end - s.start) % 86_400
  }

  /** The day an instant is on, as a window's name shows it. */
  function DayName(start: int): string { Decimal(start / 86_400_000_000) }

  /** This shift of this day, named for the day it starts on, cut to the range. */
  predicate IsShift(w: Window, s: Shift, day: int, frm: int, to: int) {
    var start := day + 1_000_000 * s.start;
    var end := start + 1_000_000 * LengthInSeconds(s);
    w == Window(DayName(start) + " " + s.name, Max(start, frm), Min(end, to))
  }

  predicate AtMidnight(day: int) { day % 86_400_000_000 == 0 }

  ghost predicate SomeShift(w: Window, shifts: seq<Shift>, frm: int, to: int) {
    exists i, day :: 0 <= i < |shifts| && AtMidnight(day) && IsShift(w, shifts[i], day, frm, to)
  }

  lemma OnlyClipped(name: string, start: int, end: int, lo: int, hi: int, w: Window)
    requires w in Clipped(name, start, end, lo, hi)
    ensures w == Window(name, Max(start, lo), Min(end, hi))
  {
  }

  lemma ShiftPieces(day: int, s: Shift)
    ensures StartOn(day, s) == day + 1_000_000 * s.start
    ensures EndOn(day, s) == StartOn(day, s) + 1_000_000 * LengthInSeconds(s)
  {
  }

  lemma NamedFor(start: int, name: string)
    ensures Label(start, name) == DayName(start) + " " + name && DayLabel(start) == DayName(start)
  {
  }

  lemma OneShiftIs(day: int, s: Shift, frm: int, to: int, start: int, end: int, name: string, w: Window)
    requires start == day + 1_000_000 * s.start && end == start + 1_000_000 * LengthInSeconds(s)
    requires name == DayName(start) + " " + s.name && w == Window(name, Max(start, frm), Min(end, to))
    ensures IsShift(w, s, day, frm, to)
  {
  }

  lemma {:induction false} TodayAreShifts(day: int, shifts: seq<Shift>, frm: int, to: int, w: Window) returns (i: nat)
    requires w in ShiftsOn(day, shifts, frm, to)
    ensures i < |shifts| && IsShift(w, shifts[i], day, frm, to)
    decreases |shifts|
  {
    var s := shifts[0];
    if w in Clipped(Label(StartOn(day, s), s.name), StartOn(day, s), EndOn(day, s), frm, to) {
      OnlyClipped(Label(StartOn(day, s), s.name), StartOn(day, s), EndOn(day, s), frm, to, w);
      ShiftPieces(day, s);
      NamedFor(StartOn(day, s), s.name);
      OneShiftIs(day, s, frm, to, StartOn(day, s), EndOn(day, s), Label(StartOn(day, s), s.name), w);
      i := 0;
    } else {
      i := TodayAreShifts(day, shifts[1..], frm, to, w);
      i := i + 1;
    }
  }

  lemma NextMidnight(day: int)
    requires AtMidnight(day)
    ensures AtMidnight(day + DAY)
  {
  }

  lemma {:induction false} AllAreShifts(day: int, shifts: seq<Shift>, frm: int, to: int, w: Window)
    requires w in ShiftsFrom(day, shifts, frm, to) && AtMidnight(day)
    ensures SomeShift(w, shifts, frm, to)
    decreases (to - day)
  {
    if w in ShiftsOn(day, shifts, frm, to) {
      var i := TodayAreShifts(day, shifts, frm, to, w);
    } else {
      NextMidnight(day);
      AllAreShifts(day + DAY, shifts, frm, to, w);
    }
  }

  lemma {:induction false} SortedAreThose(ws: seq<Window>, w: Window)
    requires w in ByStart(ws)
    ensures w in ws
    decreases |ws|
  {
    if ws != [] && w != ws[0] {
      InsertedAreThose(ws[0], ByStart(ws[1..]), w);
      SortedAreThose(ws[1..], w);
    }
  }

  lemma {:induction false} InsertedAreThose(first: Window, sorted: seq<Window>, w: Window)
    requires w in InsertWindow(first, sorted)
    ensures w == first || w in sorted
    decreases |sorted|
  {
    if sorted != [] && w !in sorted && w != first { InsertedAreThose(first, sorted[1..], w); }
  }

  /** Every shift window is a shift of some day cut to the range, and says which. */
  lemma WindowsAreShifts(frm: int, to: int, plan: Plan, w: Window)
    requires w in ShiftWindowsOf(frm, to, plan)
    ensures SomeShift(w, plan.shifts, frm, to)
  {
    var day := Midnight(frm) - DAY;
    StartsOnMidnight(frm, day);
    SortedAreThose(ShiftsFrom(day, plan.shifts, frm, to), w);
    AllAreShifts(day, plan.shifts, frm, to, w);
  }

  /** A production day, from its start to the next, named for the day it starts on, cut to the range. */
  predicate IsDay(w: Window, dayStart: int, day: int, frm: int, to: int) {
    var start := day + 1_000_000 * dayStart;
    w == Window(DayName(start), Max(start, frm), Min(start + 86_400_000_000, to))
  }

  ghost predicate SomeDay(w: Window, dayStart: int, frm: int, to: int) {
    exists day :: AtMidnight(day) && IsDay(w, dayStart, day, frm, to)
  }

  lemma OneDayIs(day: int, dayStart: int, frm: int, to: int, start: int, w: Window)
    requires start == day + Seconds(dayStart) && w in Clipped(DayLabel(start), start, start + DAY, frm, to)
    ensures IsDay(w, dayStart, day, frm, to)
  {
    OnlyClipped(DayLabel(start), start, start + DAY, frm, to, w);
    NamedFor(start, "");
  }

  lemma {:induction false} WindowsAreDays(day: int, dayStart: int, frm: int, to: int, w: Window)
    requires w in DaysFrom(day, dayStart, frm, to) && AtMidnight(day)
    ensures SomeDay(w, dayStart, frm, to)
    decreases (to - day)
  {
    var start := day + Seconds(dayStart);
    DaysUnroll(day, dayStart, frm, to, start);
    if w in Clipped(DayLabel(start), start, start + DAY, frm, to) {
      OneDayIs(day, dayStart, frm, to, start, w);
    } else {
      NextMidnight(day);
      WindowsAreDays(day + DAY, dayStart, frm, to, w);
    }
  }

  /** Every day window is a production day cut to the range, and says which. */
  lemma DayWindowsAreDays(frm: int, to: int, plan: Plan, w: Window)
    requires w in DayWindowsOf(frm, to, plan)
    ensures SomeDay(w, plan.dayStart, frm, to)
  {
    var day := Midnight(frm) - DAY;
    StartsOnMidnight(frm, day);
    WindowsAreDays(day, plan.dayStart, frm, to, w);
  }

  // ------------------------------------------------------------ counting covers

  predicate Contains(w: Window, y: int) { w.start <= y < w.end }

  /** How many windows of a list contain an instant. */
  function Covers(ws: seq<Window>, y: int): int {
    if ws == [] then 0 else (if Contains(ws[0], y) then 1 else 0) + Covers(ws[1..], y)
  }

  lemma {:induction false} CoversAppend(a: seq<Window>, b: seq<Window>, y: int)
    ensures Covers(a + b, y) == Covers(a, y) + Covers(b, y)
    decreases |a|
  {
    if a == [] {
      assert a + b == b;
    } else {
      assert (a + b)[0] == a[0] && (a + b)[1..] == a[1..] + b;
      CoversAppend(a[1..], b, y);
    }
  }

  lemma {:induction false} CoversPositive(ws: seq<Window>, y: int)
    ensures Covers(ws, y) >= 0
    ensures Covers(ws, y) > 0 <==> exists i :: 0 <= i < |ws| && Contains(ws[i], y)
    decreases |ws|
  {
    if ws != [] {
      var rest := ws[1..];
      CoversPositive(rest, y);
      if i :| 0 <= i < |rest| && Contains(rest[i], y) { assert Contains(ws[i + 1], y); }
      if i :| 0 <= i < |ws| && Contains(ws[i], y) {
        if i > 0 { assert Contains(rest[i - 1], y); }
      }
    }
  }

  ghost predicate Ordered(ws: seq<Window>) { forall i, j :: 0 <= i < j < |ws| ==> ws[i].start <= ws[j].start }

  ghost predicate NonEmpty(ws: seq<Window>) { forall i :: 0 <= i < |ws| ==> ws[i].start < ws[i].end }

  /** Every instant of [lo, hi) is in exactly one window, every other instant in none. */
  ghost predicate OnceEach(ws: seq<Window>, lo: int, hi: int) {
    forall y :: Covers(ws, y) == if lo <= y < hi then 1 else 0
  }

  /** Windows in order that contain each instant of the range once, and no other, tile it. */
  lemma {:induction false} OnceEachTiles(ws: seq<Window>, lo: int, hi: int)
    requires lo <= hi && Ordered(ws) && NonEmpty(ws) && OnceEach(ws, lo, hi)
    ensures Tiles(ws, lo, hi)
    decreases |ws|
  {
    if ws == [] {
      assert Covers(ws, lo) == 0;
    } else {
      var w, rest := ws[0], ws[1..];
      CoversPositive(ws, w.start);
      CoversPositive(ws, w.end - 1);
      assert Contains(w, w.start) && Contains(w, w.end - 1);
      assert lo <= w.start && w.end <= hi;
      CoversPositive(ws, lo);
      var i :| 0 <= i < |ws| && Contains(ws[i], lo);
      assert w.start <= ws[i].start;
      assert w.start == lo;
      assert forall k :: 0 <= k < |rest| ==> rest[k] == ws[k + 1];
      forall y ensures Covers(rest, y) == if w.end <= y < hi then 1 else 0 {
        assert Covers(ws, y) == if lo <= y < hi then 1 else 0;
      }
      OnceEachTiles(rest, w.end, hi);
    }
  }

  lemma {:induction false} InsertKeeps(w: Window, ws: seq<Window>)
    requires Ordered(ws) && NonEmpty(ws) && w.start < w.end
    ensures var r := InsertWindow(w, ws);
            && Ordered(r) && NonEmpty(r) && r != []
            && (r[0] == w || (ws != [] && r[0] == ws[0]))
            && (ws != [] && ws[0].start < w.start ==> r[0] == ws[0])
    ensures forall y :: Covers(InsertWindow(w, ws), y) == Covers([w] + ws, y)
    decreases |ws|
  {
    var r := InsertWindow(w, ws);
    if ws == [] || w.start <= ws[0].start {
      assert r == [w] + ws;
    } else {
      var rest := ws[1..];
      InsertKeeps(w, rest);
      var tail := InsertWindow(w, rest);
      assert r == [ws[0]] + tail;
      assert ws[0].start <= tail[0].start;
      forall y ensures Covers(r, y) == Covers([w] + ws, y) {
        assert r[1..] == tail && ([w] + ws)[1..] == ws && ([w] + rest)[1..] == rest;
        assert Covers(tail, y) == Covers([w] + rest, y);
      }
    }
  }

  lemma {:induction false} ByStartKeeps(ws: seq<Window>)
    requires NonEmpty(ws)
    ensures Ordered(ByStart(ws)) && NonEmpty(ByStart(ws))
    ensures forall y :: Covers(ByStart(ws), y) == Covers(ws, y)
    decreases |ws|
  {
    if ws != [] {
      ByStartKeeps(ws[1..]);
      InsertKeeps(ws[0], ByStart(ws[1..]));
      forall y ensures Covers(ByStart(ws), y) == Covers(ws, y) {
        assert ([ws[0]] + ByStart(ws[1..]))[1..] == ByStart(ws[1..]);
      }
    }
  }

  // ------------------------------------------------------------ shifts: each instant once

  function PrefixLength(shifts: seq<Shift>, i: nat): int
    requires i <= |shifts|
  {
    if i == 0 then 0 else PrefixLength(shifts, i - 1) + ShiftLength(shifts[i - 1])
  }

  predicate TimeOfDay(s: int) { 0 <= s < DAY_S }

  /** What configuration validation guarantees: each shift ends when the next one starts. */
  ghost predicate Contiguous(shifts: seq<Shift>) {
    && shifts != []
    && (forall i :: 0 <= i < |shifts| ==> TimeOfDay(shifts[i].start) && TimeOfDay(shifts[i].end))
    && (forall i :: 0 <= i < |shifts| - 1 ==> shifts[i].end == shifts[i + 1].start)
    && shifts[|shifts| - 1].end == shifts[0].start
  }

  /** What it does not check: the shifts make one day, not several. */
  ghost predicate OneDay(shifts: seq<Shift>) { Contiguous(shifts) && PrefixLength(shifts, |shifts|) == DAY_S }

  /** By how many days the i-th shift starts earlier than its place in the cycle. */
  function Wraps(shifts: seq<Shift>, i: nat): int
    requires i < |shifts|
  {
    (shifts[0].start + PrefixLength(shifts, i) - shifts[i].start) / DAY_S
  }

  lemma LengthModDay(s: Shift)
    requires TimeOfDay(s.start) && TimeOfDay(s.end)
    ensures 0 < ShiftLength(s) <= DAY_S
    ensures s.start + ShiftLength(s) == s.end || s.start + ShiftLength(s) == s.end + DAY_S
  {
  }

  lemma {:induction false} StartInCycle(shifts: seq<Shift>, i: nat)
    requires Contiguous(shifts) && i < |shifts|
    ensures shifts[i].start == shifts[0].start + PrefixLength(shifts, i) - DAY_S * Wraps(shifts, i)
  {
    if i > 0 {
      StartInCycle(shifts, i - 1);
      LengthModDay(shifts[i - 1]);
      assert shifts[i - 1].end == shifts[i].start;
      var k := Wraps(shifts, i - 1);
      var gap := shifts[0].start + PrefixLength(shifts, i) - shifts[i].start;
      assert gap == DAY_S * k || gap == DAY_S * (k + 1);
    }
  }

  lemma {:induction false} PrefixGrows(shifts: seq<Shift>, i: nat, j: nat)
    requires Contiguous(shifts) && i < j <= |shifts|
    ensures PrefixLength(shifts, i) + ShiftLength(shifts[i]) <= PrefixLength(shifts, j)
    decreases j
  {
    if j > i + 1 {
      PrefixGrows(shifts, i, j - 1);
      LengthModDay(shifts[j - 1]);
    }
  }

  /** The shift whose place in the cycle contains an offset of less than a day. */
  function AtOffset(shifts: seq<Shift>, i: nat, u: int): (r: nat)
    requires i < |shifts| && 0 <= u < Seconds(PrefixLength(shifts, i + 1))
    ensures r <= i && Seconds(PrefixLength(shifts, r)) <= u < Seconds(PrefixLength(shifts, r + 1))
  {
    if i == 0 || Seconds(PrefixLength(shifts, i)) <= u then i else AtOffset(shifts, i - 1, u)
  }

  function OffsetOf(shifts: seq<Shift>, y: int): int
    requires shifts != []
  {
    (y - Seconds(shifts[0].start)) % DAY
  }

  /** The shift an instant belongs to, and the day that shift starts on. */
  function ShiftOf(shifts: seq<Shift>, y: int): nat
    requires shifts != [] && PrefixLength(shifts, |shifts|) == DAY_S
  {
    AtOffset(shifts, |shifts| - 1, OffsetOf(shifts, y))
  }

  function DayOf(shifts: seq<Shift>, y: int): int
    requires shifts != [] && PrefixLength(shifts, |shifts|) == DAY_S
  {
    ((y - Seconds(shifts[0].start)) / DAY + Wraps(shifts, ShiftOf(shifts, y))) * DAY
  }

  predicate InShift(day: int, s: Shift, y: int) { StartOn(day, s) <= y < EndOn(day, s) }

  /** Every instant is in exactly one shift of exactly one day. */
  lemma EachInstantOnce(shifts: seq<Shift>, day: int, i: nat, y: int)
    requires OneDay(shifts) && i < |shifts| && day % DAY == 0
    ensures InShift(day, shifts[i], y) <==> day == DayOf(shifts, y) && i == ShiftOf(shifts, y)
  {
    var q := day / DAY;
    var u, n := OffsetOf(shifts, y), (y - Seconds(shifts[0].start)) / DAY;
    assert y - Seconds(shifts[0].start) == n * DAY + u && 0 <= u < DAY;
    StartInCycle(shifts, i);
    var p, k := PrefixLength(shifts, i), Wraps(shifts, i);
    assert StartOn(day, shifts[i]) == (q - k) * DAY + Seconds(shifts[0].start) + Seconds(p);
    var r := y - StartOn(day, shifts[i]);
    assert r == (n - (q - k)) * DAY + u - Seconds(p);
    LengthModDay(shifts[i]);
    PrefixGrows(shifts, i, |shifts|);
    PrefixNonNegative(shifts, i);
    assert PrefixLength(shifts, i + 1) == p + ShiftLength(shifts[i]);
    var j := ShiftOf(shifts, y);
    assert PrefixLength(shifts, j + 1) == PrefixLength(shifts, j) + ShiftLength(shifts[j]);
    if i < j { PrefixGrows(shifts, i, j); }
    if j < i { PrefixGrows(shifts, j, i); }
    if InShift(day, shifts[i], y) {
      assert n == q - k;
      assert i == j;
    }
  }

  lemma {:induction false} PrefixNonNegative(shifts: seq<Shift>, i: nat)
    requires Contiguous(shifts) && i <= |shifts|
    ensures 0 <= PrefixLength(shifts, i)
  {
    if i > 0 {
      PrefixNonNegative(shifts, i - 1);
      LengthModDay(shifts[i - 1]);
    }
  }

  lemma ClippedCovers(name: string, start: int, end: int, lo: int, hi: int, y: int)
    ensures Covers(Clipped(name, start, end, lo, hi), y) == if start <= y < end && lo <= y < hi then 1 else 0
    ensures NonEmpty(Clipped(name, start, end, lo, hi))
  {
    var ws := Clipped(name, start, end, lo, hi);
    if ws != [] { assert ws[1..] == []; }
  }

  lemma OneShiftCovers(shifts: seq<Shift>, day: int, i: nat, frm: int, to: int, y: int)
    requires i < |shifts|
    ensures Covers(ShiftsOn(day, shifts[i..], frm, to), y)
            == Covers(ShiftsOn(day, shifts[i + 1..], frm, to), y)
               + if InShift(day, shifts[i], y) && frm <= y < to then 1 else 0
    ensures NonEmpty(ShiftsOn(day, shifts[i + 1..], frm, to)) ==> NonEmpty(ShiftsOn(day, shifts[i..], frm, to))
  {
    var s, tail := shifts[i], shifts[i..];
    assert tail[0] == s && tail[1..] == shifts[i + 1..];
    var name := Label(StartOn(day, s), s.name);
    var mine := Clipped(name, StartOn(day, s), EndOn(day, s), frm, to);
    ClippedCovers(name, StartOn(day, s), EndOn(day, s), frm, to, y);
    CoversAppend(mine, ShiftsOn(day, shifts[i + 1..], frm, to), y);
  }

  lemma {:induction false} DayCovers(shifts: seq<Shift>, day: int, i: nat, frm: int, to: int, y: int)
    requires OneDay(shifts) && i <= |shifts| && day % DAY == 0
    ensures Covers(ShiftsOn(day, shifts[i..], frm, to), y)
            == if frm <= y < to && day == DayOf(shifts, y) && i <= ShiftOf(shifts, y) then 1 else 0
    ensures NonEmpty(ShiftsOn(day, shifts[i..], frm, to))
    decreases |shifts| - i
  {
    if i < |shifts| {
      DayCovers(shifts, day, i + 1, frm, to, y);
      EachInstantOnce(shifts, day, i, y);
      OneShiftCovers(shifts, day, i, frm, to, y);
    }
  }

  lemma {:induction false} DaysCover(shifts: seq<Shift>, day: int, frm: int, to: int, y: int)
    requires OneDay(shifts) && day % DAY == 0
    ensures Covers(ShiftsFrom(day, shifts, frm, to), y)
            == if frm <= y < to && day <= DayOf(shifts, y) < to then 1 else 0
    ensures NonEmpty(ShiftsFrom(day, shifts, frm, to))
    decreases (to - day)
  {
    if day < to {
      NextDay(day, DayOf(shifts, y));
      DaysCover(shifts, day + DAY, frm, to, y);
      FirstDayCovers(shifts, day, frm, to, y);
    }
  }

  lemma FirstDayCovers(shifts: seq<Shift>, day: int, frm: int, to: int, y: int)
    requires OneDay(shifts) && day % DAY == 0 && day < to
    requires NonEmpty(ShiftsFrom(day + DAY, shifts, frm, to))
    ensures Covers(ShiftsFrom(day, shifts, frm, to), y)
            == Covers(ShiftsFrom(day + DAY, shifts, frm, to), y) + if frm <= y < to
                && day == DayOf(shifts, y) then 1 else 0
    ensures NonEmpty(ShiftsFrom(day, shifts, frm, to))
  {
    assert shifts[0..] == shifts;
    DayCovers(shifts, day, 0, frm, to, y);
    var today, later := ShiftsOn(day, shifts, frm, to), ShiftsFrom(day + DAY, shifts, frm, to);
    CoversAppend(today, later, y);
  }

  lemma NextDay(a: int, b: int)
    requires a % DAY == 0 && b % DAY == 0
    ensures a < b <==> a + DAY <= b
    ensures (a + DAY) % DAY == 0
  {
    assert a == a / DAY * DAY && b == b / DAY * DAY;
  }

  lemma DayInRange(shifts: seq<Shift>, frm: int, to: int, y: int)
    requires OneDay(shifts) && frm <= y < to
    ensures Midnight(frm) - DAY <= DayOf(shifts, y) < to
  {
    var i, day := ShiftOf(shifts, y), DayOf(shifts, y);
    IsMidnight((y - Seconds(shifts[0].start)) / DAY + Wraps(shifts, i), day);
    EachInstantOnce(shifts, day, i, y);
    MetInRange(shifts, i, day, frm, to, y);
  }

  lemma IsMidnight(n: int, day: int)
    requires day == n * DAY
    ensures day % DAY == 0
  {
  }

  lemma RangeCovers(shifts: seq<Shift>, frm: int, to: int, y: int)
    requires OneDay(shifts) && frm <= to
    ensures Covers(ShiftsFrom(Midnight(frm) - DAY, shifts, frm, to), y) == if frm <= y < to then 1 else 0
    ensures NonEmpty(ShiftsFrom(Midnight(frm) - DAY, shifts, frm, to))
  {
    var day := Midnight(frm) - DAY;
    StartsOnMidnight(frm, day);
    DaysCover(shifts, day, frm, to, y);
    if frm <= y < to { DayInRange(shifts, frm, to, y); }
  }

  lemma StartsOnMidnight(frm: int, day: int)
    requires day == Midnight(frm) - DAY
    ensures day % DAY == 0 && day <= frm
  {
    NextDay(day, Midnight(frm));
  }

  /** The shifts of the range, sorted by start, tile it: no gap, no overlap, nothing outside. */
  lemma ShiftsTile(frm: int, to: int, plan: Plan)
    requires OneDay(plan.shifts) && frm <= to
    ensures Tiles(ShiftWindowsOf(frm, to, plan), frm, to)
  {
    var day := Midnight(frm) - DAY;
    var all := ShiftsFrom(day, plan.shifts, frm, to);
    forall y ensures Covers(all, y) == if frm <= y < to then 1 else 0 {
      RangeCovers(plan.shifts, frm, to, y);
    }
    RangeCovers(plan.shifts, frm, to, frm);
    ByStartKeeps(all);
    OnceEachTiles(ByStart(all), frm, to);
  }

  // ------------------------------------------------------------ longer cycles overlap

  lemma {:induction false} TilesCoverOnce(ws: seq<Window>, lo: int, hi: int, y: int)
    requires Tiles(ws, lo, hi)
    ensures lo <= hi && Covers(ws, y) == if lo <= y < hi then 1 else 0
    decreases |ws|
  {
    if ws != [] { TilesCoverOnce(ws[1..], ws[0].end, hi, y); }
  }

  /** A validated cycle lasts a whole number of days. */
  lemma WholeDays(shifts: seq<Shift>)
    requires Contiguous(shifts)
    ensures PrefixLength(shifts, |shifts|) == DAY_S || PrefixLength(shifts, |shifts|) >= 2 * DAY_S
  {
    var last := |shifts| - 1;
    StartInCycle(shifts, last);
    LengthModDay(shifts[last]);
    PrefixNonNegative(shifts, last);
    var k := Wraps(shifts, last);
    var total := PrefixLength(shifts, |shifts|);
    assert total == DAY_S * k || total == DAY_S * (k + 1);
    assert total > 0;
  }

  /** A shift placed at an offset of the cycle is met on one day. */
  function DayFor(shifts: seq<Shift>, i: nat, n: int): int
    requires i < |shifts|
  {
    (n + Wraps(shifts, i)) * DAY
  }

  lemma PlacedInCycle(shifts: seq<Shift>, i: nat, n: int, u: int, y: int)
    requires Contiguous(shifts) && i < |shifts|
    requires Seconds(PrefixLength(shifts, i)) <= u < Seconds(PrefixLength(shifts, i + 1))
    requires y == n * DAY + Seconds(shifts[0].start) + u
    ensures InShift(DayFor(shifts, i, n), shifts[i], y) && DayFor(shifts, i, n) % DAY == 0
  {
    StartInCycle(shifts, i);
    var p, k := PrefixLength(shifts, i), Wraps(shifts, i);
    assert StartOn((n + k) * DAY, shifts[i]) == n * DAY + Seconds(shifts[0].start) + Seconds(p);
  }

  lemma {:induction false} TwiceADay(shifts: seq<Shift>, day: int, i: nat, frm: int, to: int, y: int, i1: nat,
                                     d1: int, i2: nat, d2: int)
    requires i <= |shifts| && i1 < i2 < |shifts| && frm <= y < to
    requires InShift(d1, shifts[i1], y) && InShift(d2, shifts[i2], y)
    ensures Covers(ShiftsOn(day, shifts[i..], frm, to), y)
            >= (if day == d1 && i <= i1 then 1 else 0) + (if day == d2 && i <= i2 then 1 else 0)
    decreases |shifts| - i
  {
    if i < |shifts| {
      TwiceADay(shifts, day, i + 1, frm, to, y, i1, d1, i2, d2);
      OneShiftCovers(shifts, day, i, frm, to, y);
    }
  }

  lemma {:induction false} Twice(shifts: seq<Shift>, day: int, frm: int, to: int, y: int, i1: nat, d1: int, i2: nat,
                                 d2: int)
    requires i1 < i2 < |shifts| && frm <= y < to && day % DAY == 0 && d1 % DAY == 0 && d2 % DAY == 0
    requires InShift(d1, shifts[i1], y) && InShift(d2, shifts[i2], y)
    ensures Covers(ShiftsFrom(day, shifts, frm, to), y)
            >= (if day <= d1 < to then 1 else 0) + (if day <= d2 < to then 1 else 0)
    decreases (to - day)
  {
    if day < to {
      assert shifts[0..] == shifts;
      TwiceADay(shifts, day, 0, frm, to, y, i1, d1, i2, d2);
      NextDay(day, d1);
      NextDay(day, d2);
      Twice(shifts, day + DAY, frm, to, y, i1, d1, i2, d2);
      CoversAppend(ShiftsOn(day, shifts, frm, to), ShiftsFrom(day + DAY, shifts, frm, to), y);
    }
  }

  lemma MetInRange(shifts: seq<Shift>, i: nat, day: int, frm: int, to: int, y: int)
    requires Contiguous(shifts) && i < |shifts| && frm <= y < to && InShift(day, shifts[i], y) && day % DAY == 0
    ensures Midnight(frm) - DAY <= day < to
  {
    LengthModDay(shifts[i]);
    NextDay(day, Midnight(frm) - DAY);
  }

  /** Where a validated cycle lasts several days, every instant falls in two shifts at least. */
  lemma LongCyclesCoverTwice(shifts: seq<Shift>, frm: int, to: int, y: int)
    requires Contiguous(shifts) && PrefixLength(shifts, |shifts|) >= 2 * DAY_S && frm <= y < to
    ensures Covers(ShiftsFrom(Midnight(frm) - DAY, shifts, frm, to), y) >= 2
  {
    var u, n := OffsetOf(shifts, y), (y - Seconds(shifts[0].start)) / DAY;
    assert y == n * DAY + Seconds(shifts[0].start) + u && 0 <= u < DAY;
    var i1, i2 := AtOffset(shifts, |shifts| - 1, u), AtOffset(shifts, |shifts| - 1, u + DAY);
    PlacedInCycle(shifts, i1, n, u, y);
    PlacedInCycle(shifts, i2, n - 1, u + DAY, y);
    PlacesDiffer(shifts, u, i1, i2);
    TwoShifts(shifts, Midnight(frm) - DAY, frm, to, y, i1, DayFor(shifts, i1, n), i2, DayFor(shifts, i2, n - 1));
  }

  /** No shift is longer than a day. */
  lemma PlacesDiffer(shifts: seq<Shift>, u: int, i1: nat, i2: nat)
    requires Contiguous(shifts) && i1 < |shifts| && i2 < |shifts|
    requires Seconds(PrefixLength(shifts, i1)) <= u < Seconds(PrefixLength(shifts, i1 + 1))
    requires Seconds(PrefixLength(shifts, i2)) <= u + DAY < Seconds(PrefixLength(shifts, i2 + 1))
    ensures i1 < i2
  {
    LengthModDay(shifts[i2]);
    assert PrefixLength(shifts, i2 + 1) == PrefixLength(shifts, i2) + ShiftLength(shifts[i2]);
    if i2 < i1 { PrefixGrows(shifts, i2, i1); }
  }

  lemma TwoShifts(shifts: seq<Shift>, day: int, frm: int, to: int, y: int, i1: nat, d1: int, i2: nat, d2: int)
    requires Contiguous(shifts) && i1 < i2 < |shifts| && frm <= y < to && day == Midnight(frm) - DAY
    requires InShift(d1, shifts[i1], y) && d1 % DAY == 0
    requires InShift(d2, shifts[i2], y) && d2 % DAY == 0
    ensures Covers(ShiftsFrom(day, shifts, frm, to), y) >= 2
  {
    MetInRange(shifts, i1, d1, frm, to, y);
    MetInRange(shifts, i2, d2, frm, to, y);
    NextDay(day, Midnight(frm));
    Twice(shifts, day, frm, to, y, i1, d1, i2, d2);
  }

  lemma ByStartCovers(ws: seq<Window>, y: int)
    requires NonEmpty(ws)
    ensures Covers(ByStart(ws), y) == Covers(ws, y)
  {
    ByStartKeeps(ws);
  }

  lemma {:induction false} AllNonEmpty(day: int, shifts: seq<Shift>, frm: int, to: int)
    ensures NonEmpty(ShiftsFrom(day, shifts, frm, to))
    decreases (to - day)
  {
    if day < to {
      TodayNonEmpty(day, shifts, frm, to);
      AllNonEmpty(day + DAY, shifts, frm, to);
    }
  }

  lemma {:induction false} TodayNonEmpty(day: int, shifts: seq<Shift>, frm: int, to: int)
    ensures NonEmpty(ShiftsOn(day, shifts, frm, to))
    decreases |shifts|
  {
    if shifts != [] { TodayNonEmpty(day, shifts[1..], frm, to); }
  }

  /** For every configuration that validation accepts and every non-empty range, the shift windows tile
      the range if and only if the shifts add up to 24 hours. */
  lemma ShiftsTileIff(frm: int, to: int, plan: Plan)
    requires Contiguous(plan.shifts) && frm < to
    ensures Tiles(ShiftWindowsOf(frm, to, plan), frm, to) <==> PrefixLength(plan.shifts, |plan.shifts|) == DAY_S
  {
    WholeDays(plan.shifts);
    if PrefixLength(plan.shifts, |plan.shifts|) == DAY_S {
      ShiftsTile(frm, to, plan);
    } else {
      var all := ShiftsFrom(Midnight(frm) - DAY, plan.shifts, frm, to);
      LongCyclesCoverTwice(plan.shifts, frm, to, frm);
      AllNonEmpty(Midnight(frm) - DAY, plan.shifts, frm, to);
      ByStartCovers(all, frm);
      if Tiles(ByStart(all), frm, to) { TilesCoverOnce(ByStart(all), frm, to, frm); }
    }
  }

  /** Two shifts from 06:00 to 06:00 pass validation and cover every instant twice. */
  lemma TwoWholeDaysOverlap(frm: int, to: int, plan: Plan)
    requires plan.shifts == [Shift("A", 21_600, 21_600), Shift("B", 21_600, 21_600)] && frm < to
    ensures Contiguous(plan.shifts) && !Tiles(ShiftWindowsOf(frm, to, plan), frm, to)
  {
    assert PrefixLength(plan.shifts, 1) == DAY_S;
    assert PrefixLength(plan.shifts, 2) == 2 * DAY_S;
    ShiftsTileIff(frm, to, plan);
  }

  // ------------------------------------------------------------ production days

  lemma {:induction false} DaysTile(day: int, dayStart: int, frm: int, to: int, start: int)
    requires TimeOfDay(dayStart) && frm <= to && start == day + Seconds(dayStart) && start < to
    ensures Tiles(DaysFrom(day, dayStart, frm, to), Min(to, Max(frm, start)), to)
    decreases (to - day)
  {
    var next := start + DAY;
    DaysUnroll(day, dayStart, frm, to, start);
    if next < to {
      DaysTile(day + DAY, dayStart, frm, to, next);
    } else {
      LateDays(day + DAY, dayStart, frm, to);
    }
    FirstTile(DayLabel(start), start, next, frm, to, DaysFrom(day + DAY, dayStart, frm, to));
  }

  lemma FirstTile(name: string, start: int, next: int, frm: int, to: int, rest: seq<Window>)
    requires frm <= to && start < to && start < next && Tiles(rest, Min(to, Max(frm, next)), to)
    ensures Tiles(Clipped(name, start, next, frm, to) + rest, Min(to, Max(frm, start)), to)
  {
    var mine := Clipped(name, start, next, frm, to);
    if mine == [] {
      assert mine + rest == rest;
    } else {
      assert (mine + rest)[0] == mine[0] && (mine + rest)[1..] == rest;
    }
  }

  /** Days that start past the range add nothing. */
  lemma {:induction false} LateDays(day: int, dayStart: int, frm: int, to: int)
    requires TimeOfDay(dayStart) && day + Seconds(dayStart) >= to
    ensures DaysFrom(day, dayStart, frm, to) == []
    decreases (to - day)
  {
    if day < to {
      LateDays(day + DAY, dayStart, frm, to);
    }
  }

  /** The production days of the range tile it. */
  lemma DayWindowsTile(frm: int, to: int, plan: Plan)
    requires TimeOfDay(plan.dayStart) && frm <= to
    ensures Tiles(DayWindowsOf(frm, to, plan), frm, to)
  {
    var day := Midnight(frm) - DAY;
    var start := day + Seconds(plan.dayStart);
    if start < to {
      DaysTile(day, plan.dayStart, frm, to, start);
    }
  }

  /** Per shift, per day or as one window: combining gives the same times, parts and ratios. */
  lemma ShiftsAndDaysAgree(frm: int, to: int, name: string, plan: Plan, stops: seq<ClassifiedStop>,
                           deltas: seq<CounterDelta>, gaps: seq<Gap>)
    requires OneDay(plan.shifts) && TimeOfDay(plan.dayStart) && frm < to
    ensures var whole := OeeOf(Window(name, frm, to), stops, deltas, gaps);
            var shifts := Combine(Results(ShiftWindowsOf(frm, to, plan), stops, deltas, gaps), name);
            var days := Combine(Results(DayWindowsOf(frm, to, plan), stops, deltas, gaps), name);
            && shifts.Success? && days.Success?
            && shifts.value.account == days.value.account == whole.account
            && shifts.value.ratios == days.value.ratios == whole.ratios
            && shifts.value.window == days.value.window == whole.window
  {
    ShiftsTile(frm, to, plan);
    DayWindowsTile(frm, to, plan);
    SplittingChangesNothing(ShiftWindowsOf(frm, to, plan), Window(name, frm, to), stops, deltas, gaps);
    SplittingChangesNothing(DayWindowsOf(frm, to, plan), Window(name, frm, to), stops, deltas, gaps);
  }
}
