/** The order the exceptions are sorted in, and what the stable sort keeps. */
module AvailabilityOrder {
  import opened Strings
  import opened Availability

  // ---------- What clock times and dates are ----------

  function ClockText(hour: nat, minute: nat): string
    requires hour <= 23 && minute <= 59
  {
    [Digit(hour / 10), Digit(hour % 10), ':', Digit(minute / 10), Digit(minute % 10)]
  }

  /** A clock time is an hour up to 23 and a minute up to 59, two digits each, and counts as that many minutes. */
  lemma ClockIff(s: string)
    ensures IsClock(s) <==> exists h: nat, m: nat :: h <= 23 && m <= 59 && s == ClockText(h, m)
    ensures forall h: nat, m: nat :: h <= 23 && m <= 59 && s == ClockText(h, m) ==>
              IsClock(s) && ClockMinutes(s) == 60 * h + m
  {
    forall h: nat, m: nat | h <= 23 && m <= 59 && s == ClockText(h, m)
      ensures IsClock(s) && ClockMinutes(s) == 60 * h + m
    {
      TextIsClock(h, m);
    }
    if IsClock(s) {
      ClockIsText(s);
    }
  }

  lemma TextIsClock(h: nat, m: nat)
    requires h <= 23 && m <= 59
    ensures IsClock(ClockText(h, m)) && ClockMinutes(ClockText(h, m)) == 60 * h + m
  {
    assert h == 10 * (h / 10) + h % 10 && m == 10 * (m / 10) + m % 10;
  }

  lemma ClockIsText(s: string)
    requires IsClock(s)
    ensures exists h: nat, m: nat :: h <= 23 && m <= 59 && s == ClockText(h, m)
  {
    assert IsDigit(s[0]) && IsDigit(s[1]) && IsDigit(s[3]) && IsDigit(s[4]);
    var h := 10 * DigitValue(s[0]) + DigitValue(s[1]);
    var m := 10 * DigitValue(s[3]) + DigitValue(s[4]);
    assert h / 10 == DigitValue(s[0]) && m / 10 == DigitValue(s[3]);
    assert s == ClockText(h, m);
  }

  function DateText(year: nat, month: nat, day: nat): string
    requires year <= 9999 && month <= 99 && day <= 99
  {
    TwoDigits(year / 100) + TwoDigits(year % 100) + "-" + TwoDigits(month) + "-" + TwoDigits(day)
  }

  lemma NumberOfTwo(s: string)
    requires |s| == 2 && IsDigits(s)
    ensures Number(s) == 10 * DigitValue(s[0]) + DigitValue(s[1]) <= 99 && s == TwoDigits(Number(s))
  {
    assert s[..1][..0] == "" && IsDigits(s[..1]);
    assert Number(s[..1]) == DigitValue(s[0]);
    var n := Number(s);
    assert n / 10 == DigitValue(s[0]) && n % 10 == DigitValue(s[1]);
  }

  lemma TwoAreDigits(n: nat)
    requires n <= 99
    ensures IsDigits(TwoDigits(n)) && Number(TwoDigits(n)) == n
  {
    NumberOfTwo(TwoDigits(n));
    assert n == 10 * (n / 10) + n % 10;
  }

  lemma NumberOfFour(s: string)
    requires |s| == 4 && IsDigits(s)
    ensures IsDigits(s[..2]) && IsDigits(s[2..]) && Number(s) == 100 * Number(s[..2]) + Number(s[2..]) <= 9999
  {
    NumberOfTwo(s[..2]);
    NumberOfTwo(s[2..]);
    assert s[..3][..2] == s[..2];
  }

  /** A date is four, two and two digits that name a month from 1 to 12 and a day it has. */
  lemma DateIff(s: string)
    ensures IsDate(s) <==>
            exists y: nat, m: nat, d: nat ::
              y <= 9999 && 1 <= m <= 12 && 1 <= d <= 31 && d <= DaysInMonth(y, m) && s == DateText(y, m, d)
  {
    if IsDate(s) {
      NumberOfFour(s[..4]);
      NumberOfTwo(s[..4][..2]);
      NumberOfTwo(s[..4][2..]);
      NumberOfTwo(s[5..7]);
      NumberOfTwo(s[8..]);
      var y, m, d := Number(s[..4]), Number(s[5..7]), Number(s[8..]);
      assert y / 100 == Number(s[..4][..2]) && y % 100 == Number(s[..4][2..]);
      assert s == s[..4][..2] + s[..4][2..] + "-" + s[5..7] + "-" + s[8..];
      assert s == DateText(y, m, d);
    }
    forall y: nat, m: nat, d: nat | y <= 9999 && 1 <= m <= 12 && 1 <= d <= 31 && d <= DaysInMonth(y, m)
      && s == DateText(y, m, d)
      ensures IsDate(s)
    {
      TextIsDate(y, m, d);
    }
  }

  lemma TextIsDate(y: nat, m: nat, d: nat)
    requires y <= 9999 && 1 <= m <= 12 && 1 <= d <= 31 && d <= DaysInMonth(y, m)
    ensures IsDate(DateText(y, m, d))
  {
    var s := DateText(y, m, d);
    TwoAreDigits(y / 100);
    TwoAreDigits(y % 100);
    TwoAreDigits(m);
    TwoAreDigits(d);
    assert s[..4] == TwoDigits(y / 100) + TwoDigits(y % 100);
    assert s[..4][..2] == TwoDigits(y / 100) && s[..4][2..] == TwoDigits(y % 100);
    assert s[5..7] == TwoDigits(m) && s[8..] == TwoDigits(d);
    NumberOfFour(s[..4]);
  }

  /** Days before the first of January of a year, from year 0 on, in the Gregorian calendar. */
  function YearStart(y: nat): nat { 365 * y + (y + 3) / 4 - (y + 99) / 100 + (y + 399) / 400 }

  /** Days from the first of March to the first of the n-th month after it. */
  function SinceMarch(n: nat): nat { (153 * n + 2) / 5 }

  /** One more multiple of n below y + 1 than below y exactly when n divides y. */
  lemma LeapDays(y: nat, n: nat)
    requires n in {4, 100, 400}
    ensures (y + 1 + n - 1) / n == (y + n - 1) / n + if y % n == 0 then 1 else 0
  {
  }

  /** Each month but February has its length in the March-based count. */
  lemma MonthLengths(y: nat, m: nat)
    requires 1 <= m <= 12 && m != 2
    ensures DaysInMonth(y, m) == SinceMarch((m + 9) % 12 + 1) - SinceMarch((m + 9) % 12)
  {
    assert SinceMarch(0) == 0 && SinceMarch(1) == 31 && SinceMarch(2) == 61 && SinceMarch(3) == 92;
    assert SinceMarch(4) == 122 && SinceMarch(5) == 153 && SinceMarch(6) == 184 && SinceMarch(7) == 214;
    assert SinceMarch(8) == 245 && SinceMarch(9) == 275 && SinceMarch(10) == 306 && SinceMarch(11) == 337;
  }

  /** The months add up to the years of the Gregorian calendar. */
  lemma MonthsMakeYears(y: nat)
    ensures YearStart(y + 1) - YearStart(y)
         == DaysInMonth(y, 1) + DaysInMonth(y, 2) + DaysInMonth(y, 3) + DaysInMonth(y, 4) + DaysInMonth(y, 5)
            + DaysInMonth(y, 6) + DaysInMonth(y, 7) + DaysInMonth(y, 8) + DaysInMonth(y, 9) + DaysInMonth(y, 10)
            + DaysInMonth(y, 11) + DaysInMonth(y, 12)
  {
    var february := DaysInMonth(y, 2);
    LeapDays(y, 4);
    LeapDays(y, 100);
    LeapDays(y, 400);
    Divisors(y);
    assert YearStart(y + 1) - YearStart(y)
        == 365 + (if y % 4 == 0 then 1 else 0) - (if y % 100 == 0 then 1 else 0) + if y % 400 == 0 then 1 else 0;
  }

  lemma Divisors(y: nat)
    ensures y % 100 == 0 ==> y % 4 == 0
    ensures y % 400 == 0 ==> y % 100 == 0
  {
    if y % 100 == 0 {
      var c := y / 100;
      assert y == 4 * (25 * c);
    }
    if y % 400 == 0 {
      var c := y / 400;
      assert y == 100 * (4 * c);
    }
  }

  // ---------- JavaScript's string order ----------

  lemma {:induction false} LessIsTotal(a: string, b: string)
    ensures Less(a, b) || Less(b, a) || a == b
    ensures !(Less(a, b) && Less(b, a)) && !Less(a, a)
  {
    if a != "" {
      LessIsTotal(a[1..], a[1..]);
    }
    if a != "" && b != "" {
      LessIsTotal(a[1..], b[1..]);
      assert a == [a[0]] + a[1..] && b == [b[0]] + b[1..];
    }
  }

  lemma {:induction false} LessIsTransitive(a: string, b: string, c: string)
    requires Less(a, b) && Less(b, c)
    ensures Less(a, c)
  {
    if a != "" && b != "" && c != "" && a[0] == b[0] == c[0] {
      LessIsTransitive(a[1..], b[1..], c[1..]);
    }
  }

  /** Clock strings compare as the times of day they name. */
  lemma ClockOrder(a: string, b: string)
    requires IsClock(a) && IsClock(b)
    ensures Less(a, b) <==> ClockMinutes(a) < ClockMinutes(b)
  {
    hide Less;
    LessStep(a, b, 0);
    LessStep(a, b, 1);
    LessStep(a, b, 2);
    LessStep(a, b, 3);
    LessStep(a, b, 4);
    LessIsTotal(a[5..], b[5..]);
    assert a[5..] == "" && b[5..] == "";
    assert a[0..] == a && b[0..] == b;
  }

  lemma LessStep(a: string, b: string, i: nat)
    requires i < |a| && i < |b|
    ensures Less(a[i..], b[i..]) <==> a[i] < b[i] || (a[i] == b[i] && Less(a[i + 1..], b[i + 1..]))
  {
    assert a[i..][1..] == a[i + 1..] && b[i..][1..] == b[i + 1..];
  }

  // ---------- The order on exceptions ----------

  lemma NotAfterIsTotal(a: Slot, b: Slot)
    ensures NotAfter(a, b) || NotAfter(b, a)
    ensures NotAfter(a, a)
  {
    hide Less;
    LessIsTotal(a.date, b.date);
    LessIsTotal(a.start, b.start);
    LessIsTotal(a.end, b.end);
    LessIsTotal(a.end, a.end);
  }

  lemma NotAfterIsTransitive(a: Slot, b: Slot, c: Slot)
    requires NotAfter(a, b) && NotAfter(b, c)
    ensures NotAfter(a, c)
  {
    hide Less;
    Chain(a.date, b.date, c.date);
    Chain(a.start, b.start, c.start);
    Chain(a.end, b.end, c.end);
  }

  lemma Chain(a: string, b: string, c: string)
    ensures Less(a, b) && Less(b, c) ==> Less(a, c) && a != c
    ensures !Less(b, a) && !Less(c, b) ==> !Less(c, a)
  {
    hide Less;
    LessIsTotal(a, b);
    LessIsTotal(b, c);
    LessIsTotal(a, c);
    if Less(a, b) && Less(b, c) {
      LessIsTransitive(a, b, c);
    }
    if !Less(b, a) && !Less(c, b) && Less(c, a) {
      if a != b {
        LessIsTransitive(c, a, b);
      }
    }
  }

  ghost predicate Sorted(s: seq<Slot>) {
    forall i, j :: 0 <= i < j < |s| ==> NotAfter(s[i], s[j])
  }

  /** x comes no later than anything in s. */
  ghost predicate AllNotAfter(s: seq<Slot>, x: Slot) {
    forall y :: y in s ==> NotAfter(y, x)
  }

  lemma SortedAppend(s: seq<Slot>, x: Slot)
    requires Sorted(s) && AllNotAfter(s, x)
    ensures Sorted(s + [x])
  {
    hide NotAfter;
  }

  lemma {:induction false} PlaceKeepsSorted(s: seq<Slot>, x: Slot)
    requires Sorted(s)
    ensures Sorted(Place(s, x))
    ensures forall y :: y in Place(s, x) <==> y == x || y in s
  {
    hide NotAfter;
    if |s| > 0 {
      var init, last := s[..|s| - 1], s[|s| - 1];
      assert s == init + [last];
      if NotAfter(last, x) {
        forall y | y in init ensures NotAfter(y, x) {
          NotAfterIsTransitive(y, last, x);
        }
        SortedAppend(s, x);
      } else {
        PlaceKeepsSorted(init, x);
        NotAfterIsTotal(last, x);
        SortedAppend(Place(init, x), last);
      }
    }
  }

  lemma {:induction false} SortIsSorted(s: seq<Slot>)
    ensures Sorted(Sort(s))
    ensures forall y :: y in Sort(s) <==> y in s
  {
    hide NotAfter, Place;
    if |s| > 0 {
      SortIsSorted(s[..|s| - 1]);
      PlaceKeepsSorted(Sort(s[..|s| - 1]), s[|s| - 1]);
      assert s == s[..|s| - 1] + [s[|s| - 1]];
    }
  }

  lemma {:induction false} SortedIsLeftAlone(s: seq<Slot>)
    requires Sorted(s)
    ensures Sort(s) == s
  {
    hide NotAfter;
    if |s| > 0 {
      var init, last := s[..|s| - 1], s[|s| - 1];
      SortedIsLeftAlone(init);
      assert s == init + [last];
      assert |init| > 0 ==> NotAfter(init[|init| - 1], last);
      hide Sorted;
      assert Place(init, last) == init + [last];
    }
  }

  // ---------- What sorting keeps ----------

  function KeyOf(x: Slot): (string, string, string) { (x.date, x.start, x.end) }

  /** The entries of one date, start and end, in the order s lists them. */
  function Tied(s: seq<Slot>, k: (string, string, string)): seq<Slot> {
    if |s| == 0 then []
    else Tied(s[..|s| - 1], k) + if KeyOf(s[|s| - 1]) == k then [s[|s| - 1]] else []
  }

  lemma {:induction false} PlaceKeeps(s: seq<Slot>, x: Slot, k: (string, string, string), date: string)
    ensures Tied(Place(s, x), k) == Tied(s + [x], k)
    ensures OnDate(Place(s, x), date) == OnDate(s + [x], date)
    ensures multiset(Place(s, x)) == multiset(s + [x])
  {
    hide NotAfter;
    assert (s + [x])[..|s|] == s;
    if |s| > 0 && !NotAfter(s[|s| - 1], x) {
      var init, last := s[..|s| - 1], s[|s| - 1];
      NotTied(last, x);
      PlaceKeeps(init, x, k, date);
      assert s == init + [last];
      assert (init + [x])[..|init|] == init;
      assert (Place(init, x) + [last])[..|Place(init, x)|] == Place(init, x);
    }
  }

  /** The entries of one date, in the order s lists them. */
  function OfDate(s: seq<Slot>, date: string): seq<Slot> {
    if |s| == 0 then []
    else OfDate(s[..|s| - 1], date) + if s[|s| - 1].date == date then [s[|s| - 1]] else []
  }

  lemma {:induction false} PlaceKeepsDate(s: seq<Slot>, x: Slot, date: string)
    ensures multiset(OfDate(Place(s, x), date)) == multiset(OfDate(s + [x], date))
  {
    hide NotAfter;
    assert (s + [x])[..|s|] == s;
    if |s| > 0 && !NotAfter(s[|s| - 1], x) {
      var init, last := s[..|s| - 1], s[|s| - 1];
      PlaceKeepsDate(init, x, date);
      assert (init + [x])[..|init|] == init;
      assert (Place(init, x) + [last])[..|Place(init, x)|] == Place(init, x);
    }
  }

  /** Sorting keeps each date's entries. */
  lemma {:induction false} SortKeepsDate(s: seq<Slot>, date: string)
    ensures multiset(OfDate(Sort(s), date)) == multiset(OfDate(s, date))
  {
    hide Place;
    if |s| > 0 {
      var init, last := s[..|s| - 1], s[|s| - 1];
      SortKeepsDate(init, date);
      PlaceKeepsDate(Sort(init), last, date);
      assert (Sort(init) + [last])[..|init|] == Sort(init);
    }
  }

  lemma NotTied(a: Slot, b: Slot)
    requires !NotAfter(a, b)
    ensures KeyOf(a) != KeyOf(b)
  {
    NotAfterIsTotal(a, a);
  }

  /** Sorting permutes, keeps the number of entries per date, and is stable. */
  lemma {:induction false} SortKeeps(s: seq<Slot>, k: (string, string, string), date: string)
    ensures Tied(Sort(s), k) == Tied(s, k)
    ensures OnDate(Sort(s), date) == OnDate(s, date)
    ensures multiset(Sort(s)) == multiset(s)
  {
    hide Place;
    if |s| > 0 {
      var init, last := s[..|s| - 1], s[|s| - 1];
      assert s == init + [last];
      SortKeeps(init, k, date);
      PlaceKeeps(Sort(init), last, k, date);
      assert (Sort(init) + [last])[..|init|] == Sort(init);
    }
  }
}
