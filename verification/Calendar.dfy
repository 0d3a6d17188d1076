// Times as text: `iso` writes whole UTC seconds as in section 5.6 of RFC 3339, `epoch` reads them
// back, and, as section 5.1 of RFC 3339 promises of such texts, sorting them sorts the times.
module Calendar {
  import opened Texts
  import opened Wrappers

  const DAY := 86400
  // 2000-01-01T00:00:00Z, before which `epoch` reads no time, and 10000-01-01T00:00:00Z.
  const FIRST_SECOND := 946684800
  const PAST_LAST := 253402300800

  // ------------------------------------------------------------------ the calendar

  predicate IsLeap(y: int) { y % 4 == 0 && (y % 100 != 0 || y % 400 == 0) }

  function DaysIn(y: int): int { if IsLeap(y) then 366 else 365 }

  function MonthDays(y: int, m: int): int {
    if m == 2 then (if IsLeap(y) then 29 else 28)
    else if m == 4 || m == 6 || m == 9 || m == 11 then 30
    else 31
  }

  // Days from 1970-01-01 to the first day of a year, and of a month within its year.
  function DaysToYear(y: int): int {
    365 * (y - 1) + (y - 1) / 4 - (y - 1) / 100 + (y - 1) / 400 - 719162
  }

  function DaysToMonth(y: int, m: int): int
    requires 1 <= m <= 13
    decreases m
  {
    if m == 1 then 0 else DaysToMonth(y, m - 1) + MonthDays(y, m - 1)
  }

  datatype Fields = Fields(year: int, month: int, day: int, hour: int, minute: int, second: int)

  predicate Valid(f: Fields) {
    && 1 <= f.year && 1 <= f.month <= 12 && 1 <= f.day <= MonthDays(f.year, f.month)
    && 0 <= f.hour < 24 && 0 <= f.minute < 60 && 0 <= f.second < 60
  }

  // `calendar.timegm`.
  function Timegm(f: Fields): int
    requires 1 <= f.month <= 12
  {
    (DaysToYear(f.year) + DaysToMonth(f.year, f.month) + f.day - 1) * DAY
    + f.hour * 3600 + f.minute * 60 + f.second
  }

  lemma {:induction false} FourthStep(y: int)
    ensures y / 4 == (y - 1) / 4 + if y % 4 == 0 then 1 else 0
  {
  }

  lemma {:induction false} CenturyStep(y: int)
    ensures y / 100 == (y - 1) / 100 + if y % 100 == 0 then 1 else 0
  {
  }

  lemma {:induction false} CycleStep(y: int)
    ensures y / 400 == (y - 1) / 400 + if y % 400 == 0 then 1 else 0
  {
  }

  lemma {:induction false} FourthOfCentury(y: int)
    ensures y % 100 == 0 ==> y % 4 == 0
  {
    var k := y / 100;
    assert y == 100 * k + y % 100;
    if y % 100 == 0 {
      assert y == 4 * (25 * k);
    }
  }

  lemma {:induction false} CenturyOfCycle(y: int)
    ensures y % 400 == 0 ==> y % 100 == 0
  {
    var k := y / 400;
    assert y == 400 * k + y % 400;
    if y % 400 == 0 {
      assert y == 100 * (4 * k);
    }
  }

  lemma {:induction false} YearStep(y: int)
    requires 1 <= y
    ensures DaysToYear(y + 1) == DaysToYear(y) + DaysIn(y)
  {
    FourthStep(y);
    CenturyStep(y);
    CycleStep(y);
    FourthOfCentury(y);
    CenturyOfCycle(y);
  }

  lemma {:induction false} YearsClimb(y: int, z: int)
    requires 1 <= y < z
    ensures DaysToYear(y) + DaysIn(y) <= DaysToYear(z)
    decreases z - y
  {
    YearStep(y);
    if y + 1 < z {
      YearsClimb(y + 1, z);
    }
  }

  lemma {:induction false} YearIsItsMonths(y: int)
    ensures DaysToMonth(y, 13) == DaysIn(y)
  {
    assert DaysToMonth(y, 3) == 31 + MonthDays(y, 2);
    assert DaysToMonth(y, 5) == DaysToMonth(y, 3) + 61;
    assert DaysToMonth(y, 7) == DaysToMonth(y, 5) + 61;
    assert DaysToMonth(y, 9) == DaysToMonth(y, 7) + 62;
    assert DaysToMonth(y, 11) == DaysToMonth(y, 9) + 61;
    assert DaysToMonth(y, 13) == DaysToMonth(y, 11) + 61;
  }

  lemma {:induction false} MonthsClimb(y: int, m: int, n: int)
    requires 1 <= m < n <= 13
    ensures DaysToMonth(y, m) + MonthDays(y, m) <= DaysToMonth(y, n)
    decreases n - m
  {
    if m + 1 < n {
      MonthsClimb(y, m, n - 1);
    }
  }

  // `time.gmtime`: the year and the month are found by taking whole ones off.
  function YearOf(days: int, y: int): (r: (int, int))
    requires 0 <= days && 1 <= y
    ensures y <= r.0 && 0 <= r.1 < DaysIn(r.0)
    decreases days
  {
    if days < DaysIn(y) then (y, days) else YearOf(days - DaysIn(y), y + 1)
  }

  function MonthOf(y: int, days: int, m: int): (r: (int, int))
    requires 1 <= m <= 12 && 0 <= days && DaysToMonth(y, m) + days < DaysIn(y)
    ensures m <= r.0 <= 12 && 0 <= r.1 < MonthDays(y, r.0)
    ensures DaysToMonth(y, r.0) + r.1 == DaysToMonth(y, m) + days
    decreases 12 - m
  {
    YearIsItsMonths(y);
    if days < MonthDays(y, m) then (m, days) else MonthOf(y, days - MonthDays(y, m), m + 1)
  }

  function Gmtime(t: nat): Fields {
    var days, rest := t / DAY, t % DAY;
    var year := YearOf(days, 1970);
    var month := MonthOf(year.0, year.1, 1);
    Fields(year.0, month.0, month.1 + 1, rest / 3600, rest % 3600 / 60, rest % 60)
  }

  lemma {:induction false} YearOfAddsUp(days: int, y: int)
    requires 0 <= days && 1 <= y
    ensures DaysToYear(YearOf(days, y).0) + YearOf(days, y).1 == DaysToYear(y) + days
    decreases days
  {
    if days >= DaysIn(y) {
      YearOfAddsUp(days - DaysIn(y), y + 1);
      YearStep(y);
    }
  }

  // Reading the fields back gives the second they were made from.
  lemma {:induction false} TimegmUndoesGmtime(t: nat)
    ensures Valid(Gmtime(t)) && Timegm(Gmtime(t)) == t
  {
    var days, rest := t / DAY, t % DAY;
    YearOfAddsUp(days, 1970);
    assert DaysToYear(1970) == 0;
    assert rest == rest / 3600 * 3600 + rest % 3600;
    assert rest % 3600 == rest % 3600 / 60 * 60 + rest % 60;
    assert t == days * DAY + rest;
  }

  // Four digits hold the year exactly up to the last second of 9999.
  lemma {:induction false} YearBounded(t: nat)
    ensures 1970 <= Gmtime(t).year
    ensures Gmtime(t).year <= 9999 <==> t < PAST_LAST
  {
    var year := YearOf(t / DAY, 1970);
    YearOfAddsUp(t / DAY, 1970);
    assert DaysToYear(1970) == 0;
    assert DaysToYear(10000) * DAY == PAST_LAST;
    if year.0 > 10000 {
      YearsClimb(10000, year.0);
    } else if year.0 < 10000 {
      YearsClimb(year.0, 10000);
    }
  }

  // ------------------------------------------------------------------ the Gregorian calendar

  // A date of the Gregorian calendar: thirty days have April, June, September and November, February
  // twenty-eight, or twenty-nine in every fourth year that is no century, and in every fourth century.
  predicate Gregorian(y: int, m: int, d: int) {
    && 1 <= y && 1 <= m <= 12 && 1 <= d <= 31
    && (m in {4, 6, 9, 11} ==> d <= 30)
    && (m == 2 ==> d <= 29)
    && (m == 2 && d == 29 ==> y % 400 == 0 || (y % 100 != 0 && y % 4 == 0))
  }

  // The days from 1970-01-01 to a date in one formula: years are counted from March, so that a leap day
  // is the last of its year, and five months from March, or from August, have 153 days.
  function DayNumber(y: int, m: int, d: int): int {
    var year, month := if m <= 2 then y - 1 else y, (m + 9) % 12;
    365 * year + year / 4 - year / 100 + year / 400 + (153 * month + 2) / 5 + d - 719469
  }

  // The months this calendar has are those of the Gregorian one.
  lemma {:induction false} DatesAreGregorian(y: int, m: int, d: int)
    ensures Gregorian(y, m, d) <==> 1 <= y && 1 <= m <= 12 && 1 <= d <= MonthDays(y, m)
  {
    FourthOfCentury(y);
    CenturyOfCycle(y);
  }

  lemma {:induction false} FirstMonths(y: int)
    ensures DaysToMonth(y, 1) == 0 && DaysToMonth(y, 2) == 31
    ensures DaysToMonth(y, 3) == DaysIn(y) - 306 && DaysToMonth(y, 4) == DaysIn(y) - 275
  {
    assert DaysToMonth(y, 3) == DaysToMonth(y, 2) + MonthDays(y, 2);
    assert DaysToMonth(y, 4) == DaysToMonth(y, 3) + MonthDays(y, 3);
  }

  lemma {:induction false} MiddleMonths(y: int)
    ensures DaysToMonth(y, 5) == DaysIn(y) - 245 && DaysToMonth(y, 6) == DaysIn(y) - 214
    ensures DaysToMonth(y, 7) == DaysIn(y) - 184 && DaysToMonth(y, 8) == DaysIn(y) - 153
  {
    FirstMonths(y);
    assert DaysToMonth(y, 5) == DaysToMonth(y, 4) + MonthDays(y, 4);
    assert DaysToMonth(y, 6) == DaysToMonth(y, 5) + MonthDays(y, 5);
    assert DaysToMonth(y, 7) == DaysToMonth(y, 6) + MonthDays(y, 6);
    assert DaysToMonth(y, 8) == DaysToMonth(y, 7) + MonthDays(y, 7);
  }

  lemma {:induction false} LastMonths(y: int)
    ensures DaysToMonth(y, 9) == DaysIn(y) - 122 && DaysToMonth(y, 10) == DaysIn(y) - 92
    ensures DaysToMonth(y, 11) == DaysIn(y) - 61 && DaysToMonth(y, 12) == DaysIn(y) - 31
  {
    MiddleMonths(y);
    assert DaysToMonth(y, 9) == DaysToMonth(y, 8) + MonthDays(y, 8);
    assert DaysToMonth(y, 10) == DaysToMonth(y, 9) + MonthDays(y, 9);
    assert DaysToMonth(y, 11) == DaysToMonth(y, 10) + MonthDays(y, 10);
    assert DaysToMonth(y, 12) == DaysToMonth(y, 11) + MonthDays(y, 11);
  }

  // Every date is the day the formula says.
  lemma {:induction false} DaysAreDayNumbers(y: int, m: int, d: int)
    requires 1 <= y && 1 <= m <= 12
    ensures DaysToYear(y) + DaysToMonth(y, m) + d - 1 == DayNumber(y, m, d)
  {
    FirstMonths(y);
    MiddleMonths(y);
    LastMonths(y);
    YearStep(y);
  }

  // `timegm` of any date, of year 1 or later, and any time of day.
  lemma {:induction false} TimegmIsDayNumber(f: Fields)
    requires 1 <= f.year && 1 <= f.month <= 12
    ensures Timegm(f) == DayNumber(f.year, f.month, f.day) * 86400 + f.hour * 3600 + f.minute * 60 + f.second
  {
    DaysAreDayNumbers(f.year, f.month, f.day);
  }

  // `gmtime` of any second is a date of the Gregorian calendar, the very one of that day, and the time
  // of day that second falls on.
  lemma {:induction false} GmtimeIsGregorian(t: nat)
    ensures var f := Gmtime(t);
            && Gregorian(f.year, f.month, f.day) && DayNumber(f.year, f.month, f.day) == t / 86400
            && 0 <= f.hour < 24 && 0 <= f.minute < 60 && 0 <= f.second < 60
            && f.hour * 3600 + f.minute * 60 + f.second == t % 86400
  {
    var f := Gmtime(t);
    TimegmUndoesGmtime(t);
    DatesAreGregorian(f.year, f.month, f.day);
    TimegmIsDayNumber(f);
  }

  // ------------------------------------------------------------------ digits and order

  // Python's order of texts.
  predicate Less(a: string, b: string) {
    b != "" && (a == "" || a[0] < b[0] || (a[0] == b[0] && Less(a[1..], b[1..])))
  }

  function Digit(d: int): char
    requires 0 <= d < 10
  {
    "0123456789"[d]
  }

  function Value(c: char): int
    requires IsDigit(c)
  {
    c as int - '0' as int
  }

  lemma {:induction false} DigitValue(d: int)
    requires 0 <= d < 10
    ensures IsDigit(Digit(d)) && Value(Digit(d)) == d
  {
  }

  function Pow10(w: nat): nat { if w == 0 then 1 else 10 * Pow10(w - 1) }

  function Pad(n: nat, w: nat): (s: string)
    ensures |s| == w
    ensures forall i :: 0 <= i < w ==> IsDigit(s[i])
  {
    if w == 0 then "" else Pad(n / 10, w - 1) + [Digit(n % 10)]
  }

  function Number(s: string): nat
    requires forall i :: 0 <= i < |s| ==> IsDigit(s[i])
  {
    if s == "" then 0 else 10 * Number(s[..|s| - 1]) + Value(s[|s| - 1])
  }

  lemma {:induction false} NumberUndoesPad(n: nat, w: nat)
    requires n < Pow10(w)
    ensures Number(Pad(n, w)) == n
  {
    if w > 0 {
      NumberUndoesPad(n / 10, w - 1);
      assert Pad(n, w)[..w - 1] == Pad(n / 10, w - 1);
      DigitValue(n % 10);
    }
  }

  lemma {:induction false} LessAppend(a: string, b: string, x: string, y: string)
    requires |a| == |b|
    ensures Less(a + x, b + y) <==> Less(a, b) || (a == b && Less(x, y))
    decreases |a|
  {
    if a == "" {
      assert a + x == x && b + y == y;
    } else {
      LessAppend(a[1..], b[1..], x, y);
      assert (a + x)[1..] == a[1..] + x && (b + y)[1..] == b[1..] + y;
      assert a == [a[0]] + a[1..] && b == [b[0]] + b[1..];
    }
  }

  lemma {:induction false} PadLess(m: nat, n: nat, w: nat)
    requires m < Pow10(w) && n < Pow10(w)
    ensures Less(Pad(m, w), Pad(n, w)) <==> m < n
    ensures Pad(m, w) == Pad(n, w) <==> m == n
  {
    NumberUndoesPad(m, w);
    NumberUndoesPad(n, w);
    if w > 0 {
      PadLess(m / 10, n / 10, w - 1);
      var x, y := Digit(m % 10), Digit(n % 10);
      DigitValue(m % 10);
      DigitValue(n % 10);
      LessAppend(Pad(m / 10, w - 1), Pad(n / 10, w - 1), [x], [y]);
      assert Less([x], [y]) <==> x < y;
    }
  }

  // ------------------------------------------------------------------ iso

  // A layout: each field's width, and the mark that follows it.
  datatype Slot = Slot(width: nat, mark: char)

  // The year takes more than four digits only from 10000 on.
  function YearWidth(y: nat): (w: nat)
    ensures w == 4 <==> y < 10000
    ensures w >= 4
  {
    if y < 10000 then 4 else 1 + YearWidth(y / 10)
  }

  function Slots(yearWidth: nat): seq<Slot> {
    [Slot(yearWidth, '-'), Slot(2, '-'), Slot(2, 'T'), Slot(2, ':'), Slot(2, ':'), Slot(2, 'Z')]
  }

  function Layout(numbers: seq<nat>, slots: seq<Slot>): string
    requires |numbers| == |slots|
  {
    if numbers == [] then ""
    else Pad(numbers[0], slots[0].width) + [slots[0].mark] + Layout(numbers[1..], slots[1..])
  }

  predicate LexLess(a: seq<nat>, b: seq<nat>)
    requires |a| == |b|
  {
    a != [] && (a[0] < b[0] || (a[0] == b[0] && LexLess(a[1..], b[1..])))
  }

  lemma {:induction false} PieceLess(p: string, q: string, mark: char, x: string, y: string)
    requires |p| == |q|
    ensures Less(p + [mark] + x, q + [mark] + y) <==> Less(p, q) || (p == q && Less(x, y))
  {
    LessAppend(p, q, [mark] + x, [mark] + y);
    LessAppend([mark], [mark], x, y);
    assert p + [mark] + x == p + ([mark] + x);
    assert q + [mark] + y == q + ([mark] + y);
  }

  predicate Fits(numbers: seq<nat>, slots: seq<Slot>)
    requires |numbers| == |slots|
  {
    forall i :: 0 <= i < |numbers| ==> numbers[i] < Pow10(slots[i].width)
  }

  lemma {:induction false} LayoutLess(a: seq<nat>, b: seq<nat>, slots: seq<Slot>)
    requires |a| == |b| == |slots| && Fits(a, slots) && Fits(b, slots)
    ensures Less(Layout(a, slots), Layout(b, slots)) <==> LexLess(a, b)
    decreases |a|
  {
    if a != [] {
      LayoutLess(a[1..], b[1..], slots[1..]);
      PadLess(a[0], b[0], slots[0].width);
      PieceLess(Pad(a[0], slots[0].width), Pad(b[0], slots[0].width), slots[0].mark,
                Layout(a[1..], slots[1..]), Layout(b[1..], slots[1..]));
    }
  }

  function Numbers(f: Fields): seq<nat>
    requires Valid(f)
  {
    [f.year, f.month, f.day, f.hour, f.minute, f.second]
  }

  function Iso(t: nat): string {
    TimegmUndoesGmtime(t);
    Layout(Numbers(Gmtime(t)), Slots(YearWidth(Gmtime(t).year)))
  }

  predicate FieldsLess(f: Fields, g: Fields) {
    f.year < g.year || (f.year == g.year
      && (f.month < g.month || (f.month == g.month
      && (f.day < g.day || (f.day == g.day
      && (f.hour < g.hour || (f.hour == g.hour
      && (f.minute < g.minute || (f.minute == g.minute
      && f.second < g.second)))))))))
  }

  lemma {:induction false} LexStep(x: nat, a: seq<nat>, y: nat, b: seq<nat>)
    requires |a| == |b|
    ensures LexLess([x] + a, [y] + b) <==> x < y || (x == y && LexLess(a, b))
  {
    assert ([x] + a)[1..] == a && ([y] + b)[1..] == b;
  }

  lemma {:induction false} LexIsFields(f: Fields, g: Fields)
    requires Valid(f) && Valid(g)
    ensures LexLess(Numbers(f), Numbers(g)) <==> FieldsLess(f, g)
  {
    var a5, b5 := [f.second], [g.second];
    var a4, b4 := [f.minute] + a5, [g.minute] + b5;
    var a3, b3 := [f.hour] + a4, [g.hour] + b4;
    var a2, b2 := [f.day] + a3, [g.day] + b3;
    var a1, b1 := [f.month] + a2, [g.month] + b2;
    assert a5 == [f.second] + [] && b5 == [g.second] + [];
    LexStep(f.second, [], g.second, []);
    LexStep(f.minute, a5, g.minute, b5);
    LexStep(f.hour, a4, g.hour, b4);
    LexStep(f.day, a3, g.day, b3);
    LexStep(f.month, a2, g.month, b2);
    LexStep(f.year, a1, g.year, b1);
    assert Numbers(f) == [f.year] + a1 && Numbers(g) == [g.year] + b1;
  }

  // An earlier day, by its year, month and day, is an earlier number.
  lemma {:induction false} DaysClimb(f: Fields, g: Fields)
    requires Valid(f) && Valid(g)
    requires f.year < g.year || (f.year == g.year && (f.month < g.month || (f.month == g.month && f.day < g.day)))
    ensures DaysToYear(f.year) + DaysToMonth(f.year, f.month) + f.day
          < DaysToYear(g.year) + DaysToMonth(g.year, g.month) + g.day
  {
    if f.year < g.year {
      YearsClimb(f.year, g.year);
      MonthsClimb(f.year, f.month, 13);
      YearIsItsMonths(f.year);
      MonthNotNegative(g.year, g.month);
    } else if f.month < g.month {
      MonthsClimb(f.year, f.month, g.month);
    }
  }

  lemma {:induction false} MonthNotNegative(y: int, m: int)
    requires 1 <= m <= 13
    ensures DaysToMonth(y, m) >= 0
    decreases m
  {
    if m > 1 {
      MonthNotNegative(y, m - 1);
    }
  }

  lemma {:induction false} FieldsClimb(f: Fields, g: Fields)
    requires Valid(f) && Valid(g) && FieldsLess(f, g)
    ensures Timegm(f) < Timegm(g)
  {
    var a := DaysToYear(f.year) + DaysToMonth(f.year, f.month) + f.day - 1;
    var b := DaysToYear(g.year) + DaysToMonth(g.year, g.month) + g.day - 1;
    if f.year == g.year && f.month == g.month && f.day == g.day {
    } else {
      DaysClimb(f, g);
      assert a + 1 <= b;
    }
  }

  // Two seconds are ordered as the fields they are written in.
  lemma {:induction false} FieldsOrder(a: nat, b: nat)
    ensures FieldsLess(Gmtime(a), Gmtime(b)) <==> a < b
    ensures Gmtime(a) == Gmtime(b) <==> a == b
  {
    var f, g := Gmtime(a), Gmtime(b);
    TimegmUndoesGmtime(a);
    TimegmUndoesGmtime(b);
    if FieldsLess(f, g) {
      FieldsClimb(f, g);
    } else if FieldsLess(g, f) {
      FieldsClimb(g, f);
    } else {
      assert f == g;
    }
  }

  // Every field fits the width it is written in.
  lemma {:induction false} FieldsFit(t: nat)
    requires t < PAST_LAST
    ensures Valid(Gmtime(t))
    ensures Fits(Numbers(Gmtime(t)), Slots(4))
  {
    TimegmUndoesGmtime(t);
    YearBounded(t);
    assert Pow10(2) == 100 && Pow10(4) == 10000;
  }

  lemma {:induction false} NotLessSelf(s: string)
    ensures !Less(s, s)
  {
    if s != "" {
      NotLessSelf(s[1..]);
    }
  }

  // Comparing the texts compares the times, to the year 9999: sorting and cutting by the text
  // sorts and cuts by time.
  lemma {:induction false} IsoOrder(a: nat, b: nat)
    requires a < PAST_LAST && b < PAST_LAST
    ensures Less(Iso(a), Iso(b)) <==> a < b
    ensures Iso(a) == Iso(b) <==> a == b
  {
    var f, g := Gmtime(a), Gmtime(b);
    FieldsFit(a);
    FieldsFit(b);
    LayoutLess(Numbers(f), Numbers(g), Slots(4));
    LayoutLess(Numbers(g), Numbers(f), Slots(4));
    LexIsFields(f, g);
    LexIsFields(g, f);
    FieldsOrder(a, b);
    FieldsOrder(b, a);
    NotLessSelf(Iso(a));
  }

  // ------------------------------------------------------------------ epoch

  // The fixed part of the pattern: a date, the letter T and a time of day.
  predicate Shaped(b: string) {
    && |b| == 19
    && Digits(b[..4]) && b[4] == '-' && Digits(b[5..7]) && b[7] == '-' && Digits(b[8..10]) && b[10] == 'T'
    && Digits(b[11..13]) && b[13] == ':' && Digits(b[14..16]) && b[16] == ':' && Digits(b[17..19])
  }

  function FieldsOf(b: string): Fields
    requires Shaped(b)
  {
    Fields(Number(b[..4]), Number(b[5..7]), Number(b[8..10]), Number(b[11..13]), Number(b[14..16]), Number(b[17..19]))
  }

  // `time.strptime` takes a second up to 61.
  predicate Accepted(f: Fields) {
    Valid(f.(second := 0)) && 0 <= f.second <= 61
  }

  function DropDigits(s: string): string {
    if s != "" && IsDigit(s[0]) then DropDigits(s[1..]) else s
  }

  function AfterFraction(s: string): string {
    if |s| > 1 && s[0] == '.' && IsDigit(s[1]) then DropDigits(s[1..]) else s
  }

  function Shifted(sign: int, hours: string, minutes: string): Option<int> {
    if Digits(hours) && Digits(minutes) then Some(sign * (Number(hours) * 3600 + Number(minutes) * 60)) else None
  }

  // The zone's seconds east of UTC, or none when what is left is no zone.
  function Offset(zone: string): Option<int> {
    if zone == "" || zone == "Z" then Some(0)
    else if zone[0] != '+' && zone[0] != '-' then None
    else
      var sign := if zone[0] == '-' then -1 else 1;
      if |zone| == 6 && zone[3] == ':' then Shifted(sign, zone[1..3], zone[4..6])
      else if |zone| == 5 then Shifted(sign, zone[1..3], zone[3..5])
      else None
  }

  function Kept(t: int): Option<int> { if t >= FIRST_SECOND then Some(t) else None }

  function Epoch(text: string): Option<int> {
    var s := Strip(text);
    if |s| < 19 || !Shaped(s[..19]) || !Accepted(FieldsOf(s[..19])) then None
    else
      match Offset(AfterFraction(s[19..]))
      case None => None
      case Some(east) => Kept(Timegm(FieldsOf(s[..19])) - east)
  }

  // A zone as it may be written.
  datatype Zone = Bare | Utc | Shift(west: bool, hours: nat, minutes: nat, colon: bool)

  predicate Writable(z: Zone) { z.Shift? ==> z.hours < 100 && z.minutes < 100 }

  function ZoneText(z: Zone): string {
    match z
    case Bare => ""
    case Utc => "Z"
    case Shift(west, hours, minutes, colon) =>
      (if west then "-" else "+") + Pad(hours, 2) + (if colon then ":" else "") + Pad(minutes, 2)
  }

  function East(z: Zone): int {
    if z.Shift? then (if z.west then -1 else 1) * (z.hours * 3600 + z.minutes * 60) else 0
  }

  lemma {:induction false} PairReads(n: nat, s: string)
    requires n < 100 && s == Pad(n, 2)
    ensures Digits(s) && Number(s) == n
  {
    assert Pow10(2) == 100;
    NumberUndoesPad(n, 2);
  }

  lemma {:induction false} ShiftReads(z: Zone, hours: string, minutes: string)
    requires z.Shift? && Writable(z) && hours == Pad(z.hours, 2) && minutes == Pad(z.minutes, 2)
    ensures Shifted(if z.west then -1 else 1, hours, minutes) == Some(East(z))
  {
    PairReads(z.hours, hours);
    PairReads(z.minutes, minutes);
  }

  lemma {:induction false} OffsetUndoesZone(z: Zone)
    requires Writable(z)
    ensures Offset(ZoneText(z)) == Some(East(z))
  {
    if z.Shift? {
      var s := ZoneText(z);
      assert s[1..3] == Pad(z.hours, 2);
      assert (if z.colon then s[4..6] else s[3..5]) == Pad(z.minutes, 2);
      ShiftReads(z, Pad(z.hours, 2), Pad(z.minutes, 2));
    }
  }

  lemma {:induction false} DigitsDropped(digits: string, rest: string)
    requires Digits(digits) && (rest == "" || !IsDigit(rest[0]))
    ensures DropDigits(digits + rest) == rest
    decreases |digits|
  {
    if digits == "" {
      assert digits + rest == rest;
    } else {
      DigitsDropped(digits[1..], rest);
      assert (digits + rest)[1..] == digits[1..] + rest;
    }
  }

  predicate Fraction(s: string) { s == "" || (|s| > 1 && s[0] == '.' && Digits(s[1..])) }

  lemma {:induction false} FractionDropped(fraction: string, z: Zone)
    requires Fraction(fraction) && Writable(z)
    ensures AfterFraction(fraction + ZoneText(z)) == ZoneText(z)
  {
    var rest := ZoneText(z);
    if fraction == "" {
      assert fraction + rest == rest;
    } else {
      assert (fraction + rest)[1] == fraction[1..][0];
      assert (fraction + rest)[1..] == fraction[1..] + rest;
      DigitsDropped(fraction[1..], rest);
    }
  }

  lemma {:induction false} LayoutHead(numbers: seq<nat>, slots: seq<Slot>)
    requires |numbers| == |slots| > 0
    ensures var w, s, rest := slots[0].width, Layout(numbers, slots), Layout(numbers[1..], slots[1..]);
      |s| == w + 1 + |rest| && s[..w] == Pad(numbers[0], w) && s[w] == slots[0].mark && s[w + 1..] == rest
  {
  }

  // A date and time of day as it is written, with a year of four digits.
  function Text(f: Fields): string
    requires Valid(f) && f.year <= 9999
  {
    Layout(Numbers(f), Slots(4))
  }

  lemma {:induction false} NumbersFit(f: Fields)
    requires Valid(f) && f.year <= 9999
    ensures Fits(Numbers(f), Slots(4))
  {
    assert Pow10(2) == 100 && Pow10(4) == 10000;
  }

  lemma {:induction false} DateSpelled(n: seq<nat>, slots: seq<Slot>)
    requires |n| == 6 && slots == Slots(4)
    ensures var s, clock := Layout(n, slots), Layout(n[3..], slots[3..]);
      && |s| == 11 + |clock| && s[11..] == clock && s[4] == '-' && s[7] == '-' && s[10] == 'T'
      && s[..4] == Pad(n[0], 4) && s[5..7] == Pad(n[1], 2) && s[8..10] == Pad(n[2], 2)
  {
    var s := Layout(n, slots);
    LayoutHead(n, slots);
    LayoutHead(n[1..], slots[1..]);
    LayoutHead(n[1..][1..], slots[1..][1..]);
    assert n[1..][1..][1..] == n[3..] && slots[1..][1..][1..] == slots[3..];
    assert s[5..][..2] == s[5..7] && s[5..][3..] == s[8..];
    assert s[8..][..2] == s[8..10] && s[8..][3..] == s[11..];
  }

  lemma {:induction false} ClockSpelled(n: seq<nat>, slots: seq<Slot>)
    requires |n| == 3 && slots == Slots(4)[3..]
    ensures var s := Layout(n, slots);
      && |s| == 9 && s[2] == ':' && s[5] == ':' && s[8] == 'Z'
      && s[..2] == Pad(n[0], 2) && s[3..5] == Pad(n[1], 2) && s[6..8] == Pad(n[2], 2)
  {
    var s := Layout(n, slots);
    LayoutHead(n, slots);
    LayoutHead(n[1..], slots[1..]);
    LayoutHead(n[1..][1..], slots[1..][1..]);
    assert s[3..][..2] == s[3..5] && s[3..][3..] == s[6..];
    assert s[6..][..2] == s[6..8];
  }

  lemma {:induction false} DatePart(s: string, date: string)
    requires |s| == 20 && date == s[..19]
    ensures date[..4] == s[..4] && date[5..7] == s[5..7] && date[8..10] == s[8..10]
    ensures date[4] == s[4] && date[7] == s[7] && date[10] == s[10]
  {
  }

  lemma {:induction false} ClockPart(s: string, date: string, clock: string)
    requires |s| == 20 && date == s[..19] && clock == s[11..]
    ensures date[11..13] == clock[..2] && date[14..16] == clock[3..5] && date[17..19] == clock[6..8]
    ensures date[13] == clock[2] && date[16] == clock[5] && s[19] == clock[8]
  {
    assert clock[..2] == s[11..13] && clock[3..5] == s[14..16] && clock[6..8] == s[17..19];
    assert date[11..13] == s[11..13] && date[14..16] == s[14..16] && date[17..19] == s[17..19];
  }

  // What is written, piece by piece.
  lemma {:induction false} TextSpelled(f: Fields)
    requires Valid(f) && f.year <= 9999
    ensures var s := Text(f);
      && |s| == 20 && s[19] == 'Z' && Shaped(s[..19])
      && s[..19][..4] == Pad(f.year, 4) && s[..19][5..7] == Pad(f.month, 2) && s[..19][8..10] == Pad(f.day, 2)
      && s[..19][11..13] == Pad(f.hour, 2) && s[..19][14..16] == Pad(f.minute, 2) && s[..19][17..19] == Pad(f.second, 2)
  {
    var n, s := Numbers(f), Text(f);
    DateSpelled(n, Slots(4));
    ClockSpelled(n[3..], Slots(4)[3..]);
    DatePart(s, s[..19]);
    ClockPart(s, s[..19], s[11..]);
  }

  lemma {:induction false} FieldsUndoText(f: Fields)
    requires Valid(f) && f.year <= 9999
    ensures |Text(f)| == 20 && Text(f)[19] == 'Z' && Shaped(Text(f)[..19])
    ensures FieldsOf(Text(f)[..19]) == f
  {
    TextSpelled(f);
    NumbersFit(f);
    var n, slots := Numbers(f), Slots(4);
    NumberUndoesPad(n[0], 4);
    NumberUndoesPad(n[1], slots[1].width);
    NumberUndoesPad(n[2], slots[2].width);
    NumberUndoesPad(n[3], slots[3].width);
    NumberUndoesPad(n[4], slots[4].width);
    NumberUndoesPad(n[5], slots[5].width);
  }

  lemma {:induction false} IsoIsText(t: nat)
    requires t < PAST_LAST
    ensures Valid(Gmtime(t)) && Gmtime(t).year <= 9999 && Iso(t) == Text(Gmtime(t))
  {
    TimegmUndoesGmtime(t);
    YearBounded(t);
  }

  lemma {:induction false} EndsInk(body: string, fraction: string, z: Zone)
    requires Shaped(body) && Fraction(fraction) && Writable(z)
    ensures var s := body + (fraction + ZoneText(z)); !IsSpace(s[|s| - 1])
  {
    var s, zone := body + (fraction + ZoneText(z)), ZoneText(z);
    if zone != "" {
      assert s[|s| - 1] == zone[|zone| - 1];
      if z.Shift? {
        assert zone[|zone| - 1] == Pad(z.minutes, 2)[1];
      }
    } else if fraction != "" {
      assert s[|s| - 1] == fraction[1..][|fraction| - 2];
    } else {
      assert s[|s| - 1] == body[17..19][1];
    }
  }

  // The date and time of day of a text, read as a second.
  predicate ReadsAs(body: string, t: int) {
    Shaped(body) && Accepted(FieldsOf(body)) && Timegm(FieldsOf(body)) == t
  }

  lemma {:induction false} EpochOfParts(text: string, body: string, tail: string, t: int, east: int)
    requires ReadsAs(body, t) && Strip(text) == body + tail
    requires Offset(AfterFraction(tail)) == Some(east)
    ensures Epoch(text) == Kept(t - east)
  {
    assert (body + tail)[..19] == body && (body + tail)[19..] == tail;
  }

  // Every date from year 1 to year 9999 reads as its own second.
  lemma {:induction false} DateReads(f: Fields, body: string)
    requires Valid(f) && f.year <= 9999 && Text(f) == body + "Z"
    ensures ReadsAs(body, Timegm(f))
  {
    FieldsUndoText(f);
    assert Text(f)[..19] == body;
  }

  lemma {:induction false} TailReads(fraction: string, z: Zone)
    requires Fraction(fraction) && Writable(z)
    ensures Offset(AfterFraction(fraction + ZoneText(z))) == Some(East(z))
  {
    FractionDropped(fraction, z);
    OffsetUndoesZone(z);
  }

  lemma {:induction false} FormStrips(body: string, fraction: string, z: Zone, before: string, after: string)
    requires Shaped(body) && Fraction(fraction) && Writable(z) && Blank(before) && Blank(after)
    ensures Strip(before + (body + (fraction + ZoneText(z))) + after) == body + (fraction + ZoneText(z))
  {
    var tail := fraction + ZoneText(z);
    assert (body + tail)[0] == body[..4][0];
    EndsInk(body, fraction, z);
    StripKeeps(before, body + tail, after);
  }

  // Any fraction is cut off and any zone taken away, with blanks around or not: every way of
  // writing a second, of any year, reads as that second, unless it lies before 2000.
  lemma {:induction false} EpochReadsEveryForm(t: int, body: string, fraction: string, z: Zone, before: string,
                                               after: string)
    requires ReadsAs(body, t)
    requires Fraction(fraction) && Writable(z) && Blank(before) && Blank(after)
    ensures Epoch(before + (body + (fraction + ZoneText(z))) + after) == Kept(t - East(z))
  {
    var tail := fraction + ZoneText(z);
    TailReads(fraction, z);
    FormStrips(body, fraction, z, before, after);
    EpochOfParts(before + (body + tail) + after, body, tail, t, East(z));
  }

  lemma {:induction false} EpochReadsPlain(t: int, body: string, z: Zone)
    requires ReadsAs(body, t) && Writable(z)
    ensures Epoch(body + ZoneText(z)) == Kept(t - East(z))
  {
    EpochReadsEveryForm(t, body, "", z, "", "");
    assert "" + (body + ("" + ZoneText(z))) + "" == body + ZoneText(z);
  }

  lemma {:induction false} EpochOfText(f: Fields)
    requires Valid(f) && f.year <= 9999
    ensures Epoch(Text(f)) == Kept(Timegm(f))
  {
    FieldsUndoText(f);
    var body := Text(f)[..19];
    assert Text(f) == body + "Z";
    DateReads(f, body);
    EpochReadsPlain(Timegm(f), body, Utc);
  }

  lemma {:induction false} PairIs(n: nat)
    ensures Pad(n, 2) == [Digit(n / 10 % 10), Digit(n % 10)]
  {
    assert Pad(n / 10, 1) == Pad(n / 10 / 10, 0) + [Digit(n / 10 % 10)];
  }

  lemma {:induction false} YearIs(n: nat)
    ensures Pad(n, 4) == [Digit(n / 10 / 10 / 10 % 10), Digit(n / 10 / 10 % 10), Digit(n / 10 % 10), Digit(n % 10)]
  {
    PairIs(n / 10 / 10);
    assert Pad(n / 10, 3) == Pad(n / 10 / 10, 2) + [Digit(n / 10 % 10)];
  }

  lemma {:induction false} Pieces(b: string)
    requires Shaped(b)
    ensures b == (b[..4] + "-" + b[5..7] + "-" + b[8..10]) + "T" + (b[11..13] + ":" + b[14..16] + ":" + b[17..19])
  {
    assert b[..10] == b[..4] + "-" + b[5..7] + "-" + b[8..10];
    assert b[11..] == b[11..13] + ":" + b[14..16] + ":" + b[17..19];
    assert b == b[..10] + "T" + b[11..];
  }

  lemma {:induction false} Spelling(f: Fields, date: string, clock: string)
    requires Valid(f) && f.year <= 9999
    requires date == Pad(f.year, 4) + "-" + Pad(f.month, 2) + "-" + Pad(f.day, 2)
    requires clock == Pad(f.hour, 2) + ":" + Pad(f.minute, 2) + ":" + Pad(f.second, 2)
    ensures Text(f) == date + "T" + clock + "Z"
  {
    TextSpelled(f);
    var s := Text(f);
    Pieces(s[..19]);
    assert s == s[..19] + "Z";
  }

  lemma {:induction false} ZeroPads()
    ensures Pad(1, 4) + "-" + Pad(1, 2) + "-" + Pad(1, 2) == "0001-01-01"
    ensures Pad(0, 2) + ":" + Pad(0, 2) + ":" + Pad(0, 2) == "00:00:00"
  {
    YearIs(1);
    PairIs(1);
    PairIs(0);
  }

  lemma {:induction false} ZeroJoined()
    ensures "0001-01-01" + "T" + "00:00:00" + "Z" == "0001-01-01T00:00:00Z"
  {
  }

  lemma {:induction false} ZeroSpelled()
    ensures Text(Fields(1, 1, 1, 0, 0, 0)) == "0001-01-01T00:00:00Z"
  {
    ZeroPads();
    ZeroJoined();
    Spelling(Fields(1, 1, 1, 0, 0, 0), "0001-01-01", "00:00:00");
  }

  // Go's zero time, which stands for no time, reads as none.
  lemma {:induction false} ZeroTimeIsNone()
    ensures Text(Fields(1, 1, 1, 0, 0, 0)) == "0001-01-01T00:00:00Z"
    ensures Epoch("0001-01-01T00:00:00Z") == None
  {
    ZeroSpelled();
    EpochOfText(Fields(1, 1, 1, 0, 0, 0));
  }

  // `epoch` undoes `iso` exactly from 2000 to the last second of 9999; any other second that
  // `iso` writes is read as none.
  lemma {:induction false} EpochUndoesIso(t: nat)
    ensures Epoch(Iso(t)) == if FIRST_SECOND <= t < PAST_LAST then Some(t) else None
  {
    if t < PAST_LAST {
      IsoIsText(t);
      TimegmUndoesGmtime(t);
      EpochOfText(Gmtime(t));
    } else {
      FiveDigitsAreNoYear(t);
    }
  }

  lemma {:induction false} FiveDigitsAreNoYear(t: nat)
    requires t >= PAST_LAST
    ensures Epoch(Iso(t)) == None
  {
    YearBounded(t);
    TimegmUndoesGmtime(t);
    var n, s := Numbers(Gmtime(t)), Iso(t);
    var w := YearWidth(n[0]);
    LayoutHead(n, Slots(w));
    assert IsDigit(s[0]) && IsDigit(s[4]) by {
      assert s[0] == s[..w][0] && s[4] == s[..w][4];
    }
    EndsInZ(n, Slots(w));
    assert Strip(s) == s;
    if |s| >= 19 {
      assert s[..19][4] == s[4];
    }
  }

  lemma {:induction false} EndsInZ(numbers: seq<nat>, slots: seq<Slot>)
    requires |numbers| == |slots| > 0
    ensures Layout(numbers, slots) != ""
    ensures Layout(numbers, slots)[|Layout(numbers, slots)| - 1] == slots[|slots| - 1].mark
    decreases |numbers|
  {
    if |numbers| > 1 {
      EndsInZ(numbers[1..], slots[1..]);
    }
  }

  // The text kept of a time reads back as the same second exactly when that second is written
  // with four digits of year.
  lemma {:induction false} KeptTextReadsBackIff(text: string)
    requires Epoch(text).Some?
    ensures Epoch(text).value >= FIRST_SECOND
    ensures Epoch(Iso(Epoch(text).value)) == Epoch(text) <==> Epoch(text).value < PAST_LAST
  {
    EpochUndoesIso(Epoch(text).value);
  }

  lemma {:induction false} LastDay(y: nat, m: nat, d: nat)
    requires y == 9999 && m == 12 && d == 31
    ensures Pad(y, 4) + "-" + Pad(m, 2) + "-" + Pad(d, 2) == "9999-12-31"
  {
    YearIs(y);
    PairIs(m);
    PairIs(d);
  }

  lemma {:induction false} LastClock(h: nat, m: nat, s: nat)
    requires h == 23 && m == 59 && s == 59
    ensures Pad(h, 2) + ":" + Pad(m, 2) + ":" + Pad(s, 2) == "23:59:59"
  {
    PairIs(h);
    PairIs(m);
    PairIs(s);
  }

  lemma {:induction false} LastSpelled(f: Fields)
    requires f == Fields(9999, 12, 31, 23, 59, 59)
    ensures Valid(f) && Text(f) == "9999-12-31" + "T" + "23:59:59" + "Z"
  {
    LastDay(f.year, f.month, f.day);
    LastClock(f.hour, f.minute, f.second);
    Spelling(f, "9999-12-31", "23:59:59");
  }

  lemma {:induction false} LastReads(f: Fields, body: string)
    requires f == Fields(9999, 12, 31, 23, 59, 59) && body == "9999-12-31" + "T" + "23:59:59"
    ensures ReadsAs(body, PAST_LAST - 1)
  {
    LastSpelled(f);
    DateReads(f, body);
    LastOf9999();
  }

  lemma {:induction false} AnHourWest()
    ensures ZoneText(Shift(true, 1, 0, true)) == "-01:00"
  {
    PairIs(1);
    PairIs(0);
  }

  // A zone west of UTC carries the last hour of 9999 past it: the time is read, and the text kept
  // of it is not.
  lemma {:induction false} LastHourIsLost(body: string)
    requires body == "9999-12-31" + "T" + "23:59:59"
    ensures Epoch(body + "-01:00") == Some(PAST_LAST + 3599)
    ensures Epoch(Iso(PAST_LAST + 3599)) == None
  {
    LastReads(Fields(9999, 12, 31, 23, 59, 59), body);
    AnHourWest();
    EpochReadsPlain(PAST_LAST - 1, body, Shift(true, 1, 0, true));
    EpochUndoesIso(PAST_LAST + 3599);
  }

  lemma {:induction false} LastOf9999()
    ensures Timegm(Fields(9999, 12, 31, 23, 59, 59)) == PAST_LAST - 1
  {
    YearIsItsMonths(9999);
    YearStep(9999);
    assert DaysToMonth(9999, 13) == DaysToMonth(9999, 12) + MonthDays(9999, 12);
  }

  // ------------------------------------------------------------------ exactly which texts are times

  // A date of the Gregorian calendar of four digits of year, and a time of day with its leap seconds.
  predicate Dated(f: Fields) {
    Gregorian(f.year, f.month, f.day) && f.year <= 9999
    && 0 <= f.hour <= 23 && 0 <= f.minute <= 59 && 0 <= f.second <= 61
  }

  function SecondOf(f: Fields): int {
    DayNumber(f.year, f.month, f.day) * 86400 + f.hour * 3600 + f.minute * 60 + f.second
  }

  function Spelled(f: Fields): string
    requires Dated(f)
  {
    (Pad(f.year, 4) + "-" + Pad(f.month, 2) + "-" + Pad(f.day, 2)) + "T"
    + (Pad(f.hour, 2) + ":" + Pad(f.minute, 2) + ":" + Pad(f.second, 2))
  }

  lemma {:induction false} LastDigitApart(n: nat, d: nat)
    requires d < 10
    ensures (10 * n + d) / 10 == n && (10 * n + d) % 10 == d
  {
  }

  lemma {:induction false} ValueDigit(c: char)
    requires IsDigit(c)
    ensures 0 <= Value(c) < 10 && Digit(Value(c)) == c
  {
  }

  lemma {:induction false} PadUndoesNumber(s: string)
    requires Digits(s)
    ensures Pad(Number(s), |s|) == s
  {
    if s != "" {
      var init, last := s[..|s| - 1], s[|s| - 1];
      PadUndoesNumber(init);
      ValueDigit(last);
      LastDigitApart(Number(init), Value(last));
      assert s == init + [last];
    }
  }

  lemma {:induction false} PairIsRead(s: string)
    requires Digits(s) && |s| == 2
    ensures Number(s) < 100 && Pad(Number(s), 2) == s
  {
    PadUndoesNumber(s);
    ValueDigit(s[0]);
    ValueDigit(s[1]);
    assert Number(s[..1]) == 10 * Number(s[..1][..0]) + Value(s[0]);
  }

  lemma {:induction false} YearIsRead(s: string)
    requires Digits(s) && |s| == 4
    ensures Number(s) <= 9999 && Pad(Number(s), 4) == s
  {
    PadUndoesNumber(s);
    PairIsRead(s[..3][..2]);
    ValueDigit(s[..3][2]);
    ValueDigit(s[3]);
    assert Number(s[..3]) == 10 * Number(s[..3][..2]) + Value(s[..3][2]);
  }

  lemma {:induction false} SpelledDate(f: Fields)
    requires Dated(f)
    ensures var s := Spelled(f);
      && |s| == 19 && s[4] == '-' && s[7] == '-' && s[10] == 'T'
      && s[..4] == Pad(f.year, 4) && s[5..7] == Pad(f.month, 2) && s[8..10] == Pad(f.day, 2)
  {
  }

  lemma {:induction false} SpelledClock(f: Fields)
    requires Dated(f)
    ensures var s := Spelled(f);
      && |s| == 19 && s[13] == ':' && s[16] == ':'
      && s[11..13] == Pad(f.hour, 2) && s[14..16] == Pad(f.minute, 2) && s[17..19] == Pad(f.second, 2)
  {
  }

  lemma {:induction false} SpelledReads(f: Fields)
    requires Dated(f)
    ensures ReadsAs(Spelled(f), SecondOf(f))
  {
    SpelledDate(f);
    SpelledClock(f);
    assert Pow10(2) == 100 && Pow10(4) == 10000;
    NumberUndoesPad(f.year, 4);
    NumberUndoesPad(f.month, 2);
    NumberUndoesPad(f.day, 2);
    NumberUndoesPad(f.hour, 2);
    NumberUndoesPad(f.minute, 2);
    NumberUndoesPad(f.second, 2);
    assert FieldsOf(Spelled(f)) == f;
    DatesAreGregorian(f.year, f.month, f.day);
    TimegmIsDayNumber(f);
  }

  lemma {:induction false} PiecesSpell(f: Fields, body: string)
    requires Dated(f) && Shaped(body)
    requires body[..4] == Pad(f.year, 4) && body[5..7] == Pad(f.month, 2) && body[8..10] == Pad(f.day, 2)
    requires body[11..13] == Pad(f.hour, 2) && body[14..16] == Pad(f.minute, 2) && body[17..19] == Pad(f.second, 2)
    ensures Spelled(f) == body
  {
    Pieces(body);
  }

  lemma {:induction false} ReadIsDated(f: Fields)
    requires Accepted(f) && f.year <= 9999
    ensures Dated(f) && Timegm(f) == SecondOf(f)
  {
    DatesAreGregorian(f.year, f.month, f.day);
    TimegmIsDayNumber(f);
  }

  lemma {:induction false} ReadIsSpelled(body: string)
    requires Shaped(body) && Accepted(FieldsOf(body))
    ensures var f := FieldsOf(body); Dated(f) && Spelled(f) == body && Timegm(f) == SecondOf(f)
  {
    var f := FieldsOf(body);
    YearIsRead(body[..4]);
    PairIsRead(body[5..7]);
    PairIsRead(body[8..10]);
    PairIsRead(body[11..13]);
    PairIsRead(body[14..16]);
    PairIsRead(body[17..19]);
    ReadIsDated(f);
    PiecesSpell(f, body);
  }

  lemma {:induction false} DropDigitsIs(s: string) returns (digits: string)
    ensures Digits(digits) && s == digits + DropDigits(s)
    ensures s != "" && IsDigit(s[0]) ==> digits != ""
  {
    digits := "";
    if s != "" && IsDigit(s[0]) {
      digits := DropDigitsIs(s[1..]);
      digits := [s[0]] + digits;
    }
  }

  lemma {:induction false} AfterFractionIs(s: string) returns (fraction: string)
    ensures Fraction(fraction) && s == fraction + AfterFraction(s)
  {
    fraction := "";
    if |s| > 1 && s[0] == '.' && IsDigit(s[1]) {
      var digits := DropDigitsIs(s[1..]);
      fraction := "." + digits;
      assert fraction[1..] == digits;
    }
  }

  lemma {:induction false} ShiftIs(zone: string, sign: int, hours: string, minutes: string, colon: bool)
      returns (z: Zone)
    requires Shifted(sign, hours, minutes).Some? && |hours| == 2 && |minutes| == 2 && (sign == 1 || sign == -1)
    requires zone == (if sign == -1 then "-" else "+") + hours + (if colon then ":" else "") + minutes
    ensures Writable(z) && ZoneText(z) == zone && Shifted(sign, hours, minutes) == Some(East(z))
  {
    PairIsRead(hours);
    PairIsRead(minutes);
    z := Shift(sign == -1, Number(hours), Number(minutes), colon);
  }

  lemma {:induction false} OffsetIs(zone: string) returns (z: Zone)
    requires Offset(zone).Some?
    ensures Writable(z) && ZoneText(z) == zone && Offset(zone) == Some(East(z))
  {
    if zone == "" {
      z := Bare;
    } else if zone == "Z" {
      z := Utc;
    } else {
      var sign := if zone[0] == '-' then -1 else 1;
      if |zone| == 6 && zone[3] == ':' {
        assert zone == [zone[0]] + zone[1..3] + ":" + zone[4..6];
        z := ShiftIs(zone, sign, zone[1..3], zone[4..6], true);
      } else {
        assert zone == [zone[0]] + zone[1..3] + "" + zone[3..5];
        z := ShiftIs(zone, sign, zone[1..3], zone[3..5], false);
      }
    }
  }

  // A way of writing a time: its date and clock, any fraction, a zone, and blanks around.
  datatype Form = Form(f: Fields, fraction: string, z: Zone, before: string, after: string)

  predicate Around(form: Form) {
    Fraction(form.fraction) && Writable(form.z) && Blank(form.before) && Blank(form.after)
  }

  function WrittenWith(form: Form, body: string): string {
    form.before + (body + (form.fraction + ZoneText(form.z))) + form.after
  }

  predicate Writes(form: Form, text: string) {
    Dated(form.f) && Around(form) && text == WrittenWith(form, Spelled(form.f))
  }

  lemma {:induction false} SpelledEpoch(f: Fields, text: string, body: string, tail: string, east: int)
    requires Dated(f) && body == Spelled(f) && Strip(text) == body + tail
    requires Offset(AfterFraction(tail)) == Some(east)
    ensures Epoch(text) == Kept(SecondOf(f) - east)
  {
    SpelledReads(f);
    EpochOfParts(text, body, tail, SecondOf(f), east);
  }

  lemma {:induction false} FormParts(form: Form, text: string, body: string, tail: string)
    requires Around(form) && Shaped(body) && tail == form.fraction + ZoneText(form.z) && text == WrittenWith(form, body)
    ensures Strip(text) == body + tail && Offset(AfterFraction(tail)) == Some(East(form.z))
  {
    TailReads(form.fraction, form.z);
    FormStrips(body, form.fraction, form.z, form.before, form.after);
  }

  lemma {:induction false} SpelledShaped(f: Fields, body: string)
    requires Dated(f) && body == Spelled(f)
    ensures Shaped(body)
  {
    SpelledReads(f);
  }

  lemma {:induction false} FormReads(form: Form, text: string)
    requires Writes(form, text)
    ensures Epoch(text) == Kept(SecondOf(form.f) - East(form.z))
  {
    var body, tail := Spelled(form.f), form.fraction + ZoneText(form.z);
    SpelledShaped(form.f, body);
    FormParts(form, text, body, tail);
    SpelledEpoch(form.f, text, body, tail, East(form.z));
  }

  function TimeOf(form: Form): int { SecondOf(form.f) - East(form.z) }

  lemma {:induction false} FormIsTime(form: Form, text: string, t: int)
    requires Writes(form, text)
    ensures Epoch(text) == Some(t) <==> t >= 946684800 && t == TimeOf(form)
  {
    FormReads(form, text);
  }

  lemma {:induction false} EpochParts(text: string, body: string, tail: string)
    requires Epoch(text).Some? && |Strip(text)| >= 19 && body == Strip(text)[..19] && tail == Strip(text)[19..]
    ensures Shaped(body) && Accepted(FieldsOf(body)) && Offset(AfterFraction(tail)).Some?
  {
  }

  lemma {:induction false} FormOfParts(text: string, before: string, body: string, tail: string, after: string)
      returns (form: Form)
    requires Blank(before) && Blank(after) && text == before + (body + tail) + after
    requires Shaped(body) && Accepted(FieldsOf(body)) && Offset(AfterFraction(tail)).Some?
    ensures Writes(form, text)
  {
    var fraction := AfterFractionIs(tail);
    var z := OffsetIs(AfterFraction(tail));
    ReadIsSpelled(body);
    form := Form(FieldsOf(body), fraction, z, before, after);
  }

  lemma {:induction false} FormOf(text: string) returns (form: Form)
    requires Epoch(text).Some?
    ensures Writes(form, text)
  {
    var before, after := StripTakesBlanks(text);
    var s := Strip(text);
    var body, tail := s[..19], s[19..];
    assert s == body + tail;
    EpochParts(text, body, tail);
    form := FormOfParts(text, before, body, tail, after);
  }

  // `epoch` reads a text exactly when it is a date of the Gregorian calendar and a time of day, with any
  // fraction, in any zone, with blanks around or not, of a second from 2000 on; and it is that second,
  // by the closed formula of the calendar.
  lemma {:induction false} EpochReadsIff(text: string, t: int)
    ensures Epoch(text) == Some(t)
       <==> t >= 946684800 && exists form :: Writes(form, text) && t == TimeOf(form)
  {
    if Epoch(text) == Some(t) {
      var form := FormOf(text);
      FormIsTime(form, text, t);
    }
    forall form | Writes(form, text) ensures Epoch(text) == Some(t) <==> t >= 946684800 && t == TimeOf(form) {
      FormIsTime(form, text, t);
    }
  }

  // And `iso` writes the date and the time of day of every second before year 10000, in full.
  lemma {:induction false} IsoSpells(t: nat)
    requires t < PAST_LAST
    ensures var f := Gmtime(t);
            Dated(f) && f.second <= 59 && SecondOf(f) == t && Iso(t) == Spelled(f) + "Z"
  {
    var f := Gmtime(t);
    IsoIsText(t);
    GmtimeIsGregorian(t);
    Spelling(f, Pad(f.year, 4) + "-" + Pad(f.month, 2) + "-" + Pad(f.day, 2),
             Pad(f.hour, 2) + ":" + Pad(f.minute, 2) + ":" + Pad(f.second, 2));
  }

  // ------------------------------------------------------------------ where the order ends

  predicate OrderedBelow(bound: nat) {
    forall a: nat, b: nat :: a < bound && b < bound ==> (Less(Iso(a), Iso(b)) <==> a < b)
  }

  // The year of a first of January.
  lemma {:induction false} YearBegins(t: nat, y: int)
    requires y >= 1970 && t / DAY == DaysToYear(y)
    ensures Gmtime(t).year == y
  {
    var year := YearOf(t / DAY, 1970);
    YearOfAddsUp(t / DAY, 1970);
    assert DaysToYear(1970) == 0;
    if year.0 < y {
      YearsClimb(year.0, y);
    }
    if year.0 > y {
      YearsClimb(y, year.0);
    }
  }

  lemma {:induction false} FiveIs(n: nat)
    ensures |Pad(n, 5)| == 5 && Pad(n, 5)[..4] == Pad(n / 10, 4)
  {
    assert Pad(n, 5) == Pad(n / 10, 4) + [Digit(n % 10)];
  }

  lemma {:induction false} IsoBegins(t: nat, w: nat)
    requires w == YearWidth(Gmtime(t).year)
    ensures |Iso(t)| > w && Iso(t)[..w] == Pad(Gmtime(t).year, w)
  {
    TimegmUndoesGmtime(t);
    LayoutHead(Numbers(Gmtime(t)), Slots(w));
  }

  lemma {:induction false} FiveDigits(y: nat)
    requires y == 10000
    ensures YearWidth(y) == 5 && Pad(y, 5)[..4] == ['1', '0', '0', '0']
  {
    assert YearWidth(y) == 1 + YearWidth(y / 10) && y / 10 == 1000;
    FiveIs(y);
    YearIs(y / 10);
  }

  lemma {:induction false} TenThousandSpelled(t: nat, y: nat)
    requires t == PAST_LAST && y == 10000
    ensures |Iso(t)| > 1 && Iso(t)[0] == '1' && Iso(t)[1] == '0'
  {
    assert DaysToYear(y) * DAY == PAST_LAST;
    YearBegins(t, y);
    FiveDigits(y);
    IsoBegins(t, 5);
    assert Iso(t)[0] == Pad(y, 5)[..4][0] && Iso(t)[1] == Pad(y, 5)[..4][1];
  }

  lemma {:induction false} FourDigits(y: nat)
    requires y == 1970
    ensures YearWidth(y) == 4 && Pad(y, 4) == ['1', '9', '7', '0']
  {
    YearIs(y);
  }

  lemma {:induction false} NineteenSeventySpelled(t: nat, y: nat)
    requires t == 0 && y == 1970
    ensures |Iso(t)| > 1 && Iso(t)[0] == '1' && Iso(t)[1] == '9'
  {
    YearBegins(t, y);
    FourDigits(y);
    IsoBegins(t, 4);
    assert Iso(t)[0] == Pad(y, 4)[0] && Iso(t)[1] == Pad(y, 4)[1];
  }

  // The first second of year 10000 sorts before the first of 1970.
  lemma {:induction false} TenThousandSortsFirst(late: nat, early: nat)
    requires late == PAST_LAST && early == 0
    ensures Less(Iso(late), Iso(early))
  {
    TenThousandSpelled(late, 10000);
    NineteenSeventySpelled(early, 1970);
    assert Iso(late)[1..][0] == '0' && Iso(early)[1..][0] == '9';
  }

  // So sorting and cutting by the text sorts and cuts by time exactly to the end of 9999.
  lemma {:induction false} IsoOrderIff(bound: nat)
    ensures OrderedBelow(bound) <==> bound <= PAST_LAST
  {
    if bound <= PAST_LAST {
      forall a: nat, b: nat | a < bound && b < bound ensures Less(Iso(a), Iso(b)) <==> a < b {
        IsoOrder(a, b);
      }
    } else {
      TenThousandSortsFirst(PAST_LAST, 0);
    }
  }
}
