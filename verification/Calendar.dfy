/** Calendar days: the day number of a date, and the difference of two dates in days. */
module Calendar {

  datatype Date = Date(y: int, m: int, d: int)

  // The division of C++: toward zero.
  function CDiv(a: int, b: int): int
    requires b > 0
  {
    if a >= 0 then a / b else -((-a) / b)
  }

  function CMod(a: int, b: int): int
    requires b > 0
  {
    a - b * CDiv(a, b)
  }

  // `days_from_civil`.
  function DayNumber(t: Date): int {
    var y := if t.m <= 2 then t.y - 1 else t.y;
    var era := CDiv(if y >= 0 then y else y - 399, 400);
    var yoe := y - era * 400;
    var doy := CDiv(153 * (t.m + (if t.m > 2 then -3 else 9)) + 2, 5) + t.d - 1;
    var doe := yoe * 365 + CDiv(yoe, 4) - CDiv(yoe, 100) + doy;
    era * 146097 + doe - 719468
  }

  // ---------- the Gregorian calendar ----------

  // The leap rule of `date::format`, in the remainders of C++.
  predicate Leap(y: int) {
    (CMod(y, 4) == 0 && CMod(y, 100) != 0) || CMod(y, 400) == 0
  }

  function DaysInMonth(m: int, y: int): int
    requires 1 <= m <= 12
  {
    if m == 2 then (if Leap(y) then 29 else 28)
    else if m == 4 || m == 6 || m == 9 || m == 11 then 30
    else 31
  }

  predicate Valid(t: Date) {
    1 <= t.m <= 12 && 1 <= t.d <= DaysInMonth(t.m, t.y)
  }

  function Next(t: Date): (r: Date)
    requires Valid(t)
    ensures Valid(r)
  {
    if t.d < DaysInMonth(t.m, t.y) then Date(t.y, t.m, t.d + 1)
    else if t.m < 12 then Date(t.y, t.m + 1, 1)
    else Date(t.y + 1, 1, 1)
  }

  function After(t: Date, n: nat): (r: Date)
    requires Valid(t)
    ensures Valid(r)
  {
    if n == 0 then t else Next(After(t, n - 1))
  }

  predicate Before(a: Date, b: Date) {
    a.y < b.y || (a.y == b.y && (a.m < b.m || (a.m == b.m && a.d < b.d)))
  }

  // ---------- years ----------

  // The day number of the first of March of year `y`.
  function March(y: int): int {
    365 * y + y / 4 - y / 100 + y / 400 - 719468
  }

  // Days from the first of March to the first of a month, the year beginning in March.
  function MonthStart(m: int): int
    requires 1 <= m <= 12
  {
    if m == 1 then 306 else if m == 2 then 337 else if m == 3 then 0 else if m == 4 then 31
    else if m == 5 then 61 else if m == 6 then 92 else if m == 7 then 122 else if m == 8 then 153
    else if m == 9 then 184 else if m == 10 then 214 else if m == 11 then 245 else 275
  }

  // The eras add up: the closed form of the day number.
  lemma DayNumberIs(t: Date)
    requires 1 <= t.m <= 12
    ensures DayNumber(t) == March(if t.m <= 2 then t.y - 1 else t.y) + MonthStart(t.m) + t.d - 1
  {
    var y := if t.m <= 2 then t.y - 1 else t.y;
    var era := CDiv(if y >= 0 then y else y - 399, 400);
    FloorDiv(y);
    var yoe := y - era * 400;
    assert 0 <= yoe < 400;
    assert y / 4 == 100 * era + yoe / 4;
    assert y / 100 == 4 * era + yoe / 100;
  }

  lemma FloorDiv(y: int)
    ensures CDiv(if y >= 0 then y else y - 399, 400) == y / 400
  {
    if y < 0 {
      var k := (399 - y) / 400;
      assert -400 * k <= y < -400 * k + 400;
    }
  }

  lemma LeapIs(y: int)
    ensures Leap(y) <==> (y % 4 == 0 && y % 100 != 0) || y % 400 == 0
  {
    Remainder(y, 4);
    Remainder(y, 100);
    Remainder(y, 400);
  }

  // A remainder is zero in C++ when it is in mathematics, whatever the sign.
  lemma Remainder(y: int, b: int)
    requires b == 4 || b == 100 || b == 400
    ensures CMod(y, b) == 0 <==> y % b == 0
  {
    if y < 0 {
      var q, r, k, s := y / b, y % b, (-y) / b, (-y) % b;
      Split(y, b);
      Split(-y, b);
      if r == 0 {
        NoRest(b, k, s, -q);
      }
      if s == 0 {
        NoRest(b, q, r, -k);
      }
    } else {
      Split(y, b);
    }
  }

  lemma Split(y: int, b: int)
    requires b == 4 || b == 100 || b == 400
    ensures y == b * (y / b) + y % b && 0 <= y % b < b
  {
  }

  // A multiple leaves no rest.
  lemma NoRest(b: int, t: int, u: int, p: int)
    requires b == 4 || b == 100 || b == 400
    requires b * t + u == b * p && 0 <= u < b
    ensures u == 0 && t == p
  {
    assert t < p ==> b * (p - t) >= b;
    assert t > p ==> b * (t - p) >= b;
  }

  lemma MarchNext(y: int)
    ensures March(y) - March(y - 1) == if Leap(y) then 366 else 365
  {
    hide Leap;
    LeapIs(y);
    Divides(y);
    Step(y, 4);
    Step(y, 100);
    Step(y, 400);
  }

  lemma Divides(y: int)
    ensures y % 400 == 0 ==> y % 100 == 0
    ensures y % 100 == 0 ==> y % 4 == 0
  {
    Split(y, 400);
    Split(y, 100);
    Split(y, 4);
    if y % 400 == 0 {
      NoRest(100, y / 100, y % 100, 4 * (y / 400));
    }
    if y % 100 == 0 {
      NoRest(4, y / 4, y % 4, 25 * (y / 100));
    }
  }

  lemma Step(y: int, b: int)
    requires b == 4 || b == 100 || b == 400
    ensures y / b - (y - 1) / b == if y % b == 0 then 1 else 0
  {
  }

  // ---------- the day number counts days ----------

  // The day number of the next day is one more, in every year.
  lemma NextIsOneMore(t: Date)
    requires Valid(t)
    ensures DayNumber(Next(t)) == DayNumber(t) + 1
  {
    hide DayNumber, March, Leap;
    DayNumberIs(t);
    DayNumberIs(Next(t));
    MarchNext(t.y);
  }

  lemma Epoch()
    ensures DayNumber(Date(1970, 1, 1)) == 0
  {
  }

  lemma {:induction false} AfterIsMore(t: Date, n: nat)
    requires Valid(t)
    ensures DayNumber(After(t, n)) == DayNumber(t) + n
  {
    hide DayNumber, Valid;
    if n > 0 {
      AfterIsMore(t, n - 1);
      NextIsOneMore(After(t, n - 1));
    }
  }

  lemma {:induction false} MarchGrows(x: int, y: int)
    requires x < y
    ensures March(x) + 365 <= March(y)
    decreases y - x
  {
    hide Leap;
    MarchNext(y);
    if x < y - 1 {
      MarchGrows(x, y - 1);
    }
  }

  lemma OrderKept(a: Date, b: Date)
    requires Valid(a) && Valid(b) && Before(a, b)
    ensures DayNumber(a) < DayNumber(b)
  {
    hide DayNumber, March, Leap;
    DayNumberIs(a);
    DayNumberIs(b);
    var ya, yb := if a.m <= 2 then a.y - 1 else a.y, if b.m <= 2 then b.y - 1 else b.y;
    MarchNext(a.y);
    MarchNext(b.y);
    if ya < yb {
      MarchGrows(ya, yb);
      if a.m <= 2 && yb > ya + 1 {
        MarchGrows(ya + 1, yb);
      }
    }
  }

  // The day number orders the dates as the calendar does, so it never takes two dates for one.
  lemma OrderExact(a: Date, b: Date)
    requires Valid(a) && Valid(b)
    ensures Before(a, b) <==> DayNumber(a) < DayNumber(b)
    ensures DayNumber(a) == DayNumber(b) <==> a == b
  {
    hide DayNumber, Valid;
    if Before(a, b) {
      OrderKept(a, b);
    }
    if Before(b, a) {
      OrderKept(b, a);
    }
  }

  // ---------- date::diff ----------

  // The difference in days, or in weeks: whole weeks, toward zero.
  function Diff(a: Date, b: Date, weeks: bool): int {
    var days := DayNumber(a) - DayNumber(b);
    if weeks then CDiv(days, 7) else days
  }

  // The difference in days is the number of days from one date to the other, counted on the
  // calendar; that of weeks is the number of whole weeks between them.
  lemma DiffCounts(a: Date, b: Date)
    requires Valid(a) && Valid(b)
    ensures Diff(a, b, false) == -Diff(b, a, false) && Diff(a, b, true) == -Diff(b, a, true)
    ensures !Before(a, b) ==>
              && Diff(a, b, false) >= 0 && After(b, Diff(a, b, false)) == a
              && Diff(a, b, true) >= 0 && !Before(a, After(b, 7 * Diff(a, b, true)))
              && Before(a, After(b, 7 * Diff(a, b, true) + 7))
  {
    hide DayNumber, Valid, Before;
    OrderExact(a, b);
    if !Before(a, b) {
      var n := Diff(a, b, false);
      var w := Diff(a, b, true);
      AfterIsMore(b, n);
      OrderExact(After(b, n), a);
      AfterIsMore(b, 7 * w);
      OrderExact(a, After(b, 7 * w));
      AfterIsMore(b, 7 * w + 7);
      OrderExact(a, After(b, 7 * w + 7));
    }
  }

  // A day of the month past its end counts on into the next months.
  lemma Overflowing(y: int, m: int, d: int, n: nat)
    requires Valid(Date(y, m, d))
    ensures DayNumber(Date(y, m, d + n)) == DayNumber(After(Date(y, m, d), n))
  {
    hide DayNumber, Valid;
    AfterIsMore(Date(y, m, d), n);
    DayLinear(y, m, d, n);
  }

  lemma DayLinear(y: int, m: int, d: int, n: int)
    ensures DayNumber(Date(y, m, d + n)) == DayNumber(Date(y, m, d)) + n
  {
  }
}
