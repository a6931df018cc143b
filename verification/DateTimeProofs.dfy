/** The calendar neither loses nor gains time, whatever steps it is taken in. */
module DateTimeProofs {
  import opened DateTime

  lemma Fraction(x: real)
    requires x >= 0.0
    ensures 0.0 <= x - x.Floor as real < 1.0
  {
  }

  /** What is left of the hours after the midnights is a time of day. */
  lemma TimeOfDay(hours: real)
    requires hours >= 0.0
    ensures 0.0 <= hours - 24.0 * Midnights(hours) as real < 24.0
  {
    Fraction(hours / 24.0);
    assert hours == 24.0 * (hours / 24.0);
  }

  lemma {:induction false} CarriedInMonth(day: nat, month: nat)
    ensures var (d, m) := Carried(day, month);
            d <= DaysOf(m) && month <= m && (day > 0 ==> d > 0) && DaysBefore(m) + d == DaysBefore(month) + day
    decreases day
  {
    if day > DaysOf(month) { CarriedInMonth(day - DaysOf(month), month + 1); }
  }

  lemma {:induction false} YearsOfDays(month: nat)
    ensures DaysBefore(month) == 365 * (month / 12) + DaysBefore(month % 12)
  {
    hide DaysBefore, DaysOf;
    YearEarlier(month);
    if month >= 12 {
      YearsOfDays(month - 12);
      TwelveMonths(month - 12);
    }
  }

  lemma YearEarlier(month: nat)
    ensures month < 12 ==> month / 12 == 0 && month % 12 == month
    ensures month >= 12 ==> (month - 12) / 12 == month / 12 - 1 && (month - 12) % 12 == month % 12
  {
  }

  lemma SameMonth(month: nat)
    ensures DaysOf(month + 12) == DaysOf(month)
  {
  }

  lemma {:induction false} TwelveMonths(month: nat)
    ensures DaysBefore(month + 12) == DaysBefore(month) + 365
  {
    hide DaysOf;
    if month == 0 {
      FirstYear();
    } else {
      TwelveMonths(month - 1);
      SameMonth(month - 1);
    }
  }

  lemma FirstYear()
    ensures DaysBefore(12) == 365
  {
    assert DaysBefore(2) == 59;
    assert DaysBefore(4) == 120;
    assert DaysBefore(6) == 181;
    assert DaysBefore(8) == 243;
    assert DaysBefore(10) == 304;
  }

  /** A date in its ranges. */
  predicate Normal(d: Date) {
    d.month < 12 && 0 < d.day <= DaysOf(d.month) && 0.0 <= d.time < 24.0
  }

  /** An update keeps the month a month, the day within it and the time within the day. */
  lemma UpdateInRange(d: Date, ticks: nat)
    requires Valid(d)
    ensures var u := Updated(d, ticks);
            u.month < 12 && u.day <= DaysOf(u.month) && 0.0 <= u.time < 24.0 && (d.day > 0 ==> Normal(u))
  {
    hide DaysOf, DeltaTime, Midnights, Carried;
    DeltaPositive(d, ticks);
    var hours := d.time + DeltaTime(d, ticks);
    TimeOfDay(hours);
    CarriedInMonth(d.day + Midnights(hours), d.month);
    SameInYear(Carried(d.day + Midnights(hours), d.month).1);
  }

  lemma SameInYear(month: nat)
    ensures DaysOf(month % 12) == DaysOf(month)
  {
  }

  lemma Whole(days: nat, time: real, hours: real, midnights: nat)
    requires time == hours - 24.0 * midnights as real
    ensures (days + midnights) as real + time / 24.0 == days as real + hours / 24.0
  {
    assert time / 24.0 == hours / 24.0 - midnights as real;
  }

  /** An update raises the time in days by exactly the hours that passed, over 24; and so the days since the game
      began. A millisecond passes as so many hours as the scale says: at scale 1 a 3600000th of one, rounded as in the
      source. */
  lemma UpdateAdvances(d: Date, ticks: nat)
    requires Valid(d)
    ensures var u, hours := Updated(d, ticks), ticks as real / 1000.0 * (d.scale * 0.00027777778);
            && TimeInDays(u) == TimeInDays(d) + hours / 24.0
            && u.daysPassed as real + u.time / 24.0 == d.daysPassed as real + (d.time + hours) / 24.0
            && u.scale == d.scale
  {
    hide Updated;
    AdvancesByDelta(d, ticks);
    UpdateKeepsScale(d, ticks);
  }

  lemma UpdateKeepsScale(d: Date, ticks: nat)
    requires Valid(d)
    ensures Updated(d, ticks).scale == d.scale
  {
  }

  /** The months of a year without leap day. */
  lemma MonthLengths(month: nat)
    ensures DaysOf(month) == if month % 12 == 1 then 28 else if month % 12 in {3, 5, 8, 10} then 30 else 31
  {
  }

  lemma AdvancesByDelta(d: Date, ticks: nat)
    requires Valid(d)
    ensures TimeInDays(Updated(d, ticks)) == TimeInDays(d) + DeltaTime(d, ticks) / 24.0
    ensures var u := Updated(d, ticks);
            u.daysPassed as real + u.time / 24.0 == d.daysPassed as real + (d.time + DeltaTime(d, ticks)) / 24.0
  {
    hide DaysOf, DeltaTime, Midnights, Carried, DaysBefore;
    DeltaPositive(d, ticks);
    var u := Updated(d, ticks);
    var hours := d.time + DeltaTime(d, ticks);
    var (day, month) := Carried(d.day + Midnights(hours), d.month);
    CarriedInMonth(d.day + Midnights(hours), d.month);
    YearsOfDays(month);
    var days := 365 * d.year + DaysBefore(d.month) + d.day;
    assert 365 * u.year + DaysBefore(u.month) + u.day == days + Midnights(hours);
    Whole(days, u.time, hours, Midnights(hours));
    Whole(d.daysPassed, u.time, hours, Midnights(hours));
  }

  // ----- The order of dates -----

  /** Earlier by year, month, day and time. */
  predicate Earlier(a: Date, b: Date) {
    || a.year < b.year
    || (a.year == b.year && (a.month < b.month
                             || (a.month == b.month && (a.day < b.day || (a.day == b.day && a.time < b.time)))))
  }

  lemma {:induction false} LaterMonth(a: nat, b: nat)
    requires a < b
    ensures DaysBefore(a) + DaysOf(a) <= DaysBefore(b)
  {
    hide DaysOf;
    if a + 1 < b { LaterMonth(a, b - 1); }
  }

  lemma EarlierIsLess(a: Date, b: Date)
    requires Normal(a) && Normal(b) && Earlier(a, b)
    ensures TimeInDays(a) < TimeInDays(b)
  {
    hide DaysOf;
    var days, more := 365 * a.year + DaysBefore(a.month) + a.day, 365 * b.year + DaysBefore(b.month) + b.day;
    if a.year < b.year {
      LaterMonth(a.month, 12);
      TwelveMonths(0);
      assert days < more;
    } else if a.month < b.month {
      LaterMonth(a.month, b.month);
      assert days < more;
    }
    assert days < more ==> days as real + 1.0 <= more as real;
  }

  /** The time in days tells dates in their ranges apart, and which is the earlier. */
  lemma OrderIsTimeInDays(a: Date, b: Date)
    requires Normal(a) && Normal(b)
    ensures Earlier(a, b) <==> TimeInDays(a) < TimeInDays(b)
  {
    if Earlier(a, b) {
      EarlierIsLess(a, b);
    } else if Earlier(b, a) {
      EarlierIsLess(b, a);
    }
  }

  // ----- Two updates are one -----

  lemma {:induction false} CarryOn(day: nat, month: nat, more: nat)
    ensures var (d, m) := Carried(day, month);
            Carried(d + more, m) == Carried(day + more, month)
    decreases day
  {
    if day > DaysOf(month) { CarryOn(day - DaysOf(month), month + 1, more); }
  }

  lemma {:induction false} CarryNextYear(day: nat, month: nat)
    ensures Carried(day, month + 12) == (Carried(day, month).0, Carried(day, month).1 + 12)
    decreases day
  {
    SameMonth(month);
    if day > DaysOf(month) { CarryNextYear(day - DaysOf(month), month + 1); }
  }

  /** Carrying on from a month counted on over the years is carrying on from it within its year. */
  lemma {:induction false} CarryWithinYear(day: nat, month: nat)
    ensures Carried(day, month) == (Carried(day, month % 12).0, Carried(day, month % 12).1 + 12 * (month / 12))
    decreases month
  {
    hide Carried, DaysOf;
    YearEarlier(month);
    if month >= 12 {
      CarryWithinYear(day, month - 12);
      CarryNextYear(day, month - 12);
    }
  }

  lemma FloorOf(x: real, n: int)
    requires n as real <= x < n as real + 1.0
    ensures x.Floor == n
  {
  }

  /** Midnights passed in two goes. */
  lemma MidnightsAdd(first: real, second: real)
    requires first >= 0.0 && second >= 0.0
    ensures var left := first - 24.0 * Midnights(first) as real;
            left >= 0.0 && Midnights(first + second) == Midnights(first) + Midnights(left + second)
  {
    var left := first - 24.0 * Midnights(first) as real;
    TimeOfDay(first);
    TimeOfDay(left + second);
    var n := Midnights(first) + Midnights(left + second);
    var rest := left + second - 24.0 * Midnights(left + second) as real;
    assert first + second == 24.0 * n as real + rest;
    assert (first + second) / 24.0 == n as real + rest / 24.0;
    FloorOf((first + second) / 24.0, n);
  }

  lemma DeltaAdds(d: Date, a: nat, b: nat)
    ensures DeltaTime(d, a + b) == DeltaTime(d, a) + DeltaTime(d, b)
  {
    var k := d.scale * HOURS_PER_SECOND;
    assert (a + b) as real / 1000.0 == a as real / 1000.0 + b as real / 1000.0;
    Distributes(a as real / 1000.0, b as real / 1000.0, k);
  }

  lemma SameScale(d: Date, u: Date, ticks: nat)
    requires d.scale == u.scale
    ensures DeltaTime(d, ticks) == DeltaTime(u, ticks)
  {
  }

  lemma Distributes(x: real, y: real, k: real)
    ensures (x + y) * k == x * k + y * k
  {
  }

  lemma YearsAdd(year: nat, month: nat, more: nat)
    ensures year + month / 12 + (more - 12 * (month / 12)) / 12 == year + more / 12
    ensures (more - 12 * (month / 12)) % 12 == more % 12
  {
    var k := month / 12;
    TakeYears(more, k);
  }

  lemma TakeYears(more: int, k: nat)
    ensures (more - 12 * k) / 12 == more / 12 - k && (more - 12 * k) % 12 == more % 12
  {
    Quotient(more - 12 * k, more / 12 - k, more % 12);
  }

  lemma Quotient(x: int, q: int, r: int)
    requires x == 12 * q + r && 0 <= r < 12
    ensures x / 12 == q && x % 12 == r
  {
  }

  /** Updating twice is updating once by the sum. */
  lemma UpdateTwice(d: Date, a: nat, b: nat)
    requires Valid(d)
    ensures Valid(Updated(d, a)) && Updated(Updated(d, a), b) == Updated(d, a + b)
  {
    hide DaysOf, DeltaTime, Midnights, Carried;
    var u := Updated(d, a);
    UpdateInRange(d, a);
    DeltaPositive(d, a);
    DeltaPositive(d, b);
    DeltaAdds(d, a, b);
    SameScale(d, u, b);
    var first := d.time + DeltaTime(d, a);
    MidnightsAdd(first, DeltaTime(d, b));
    var m, n := Midnights(first), Midnights(u.time + DeltaTime(u, b));
    var (day, month) := Carried(d.day + m, d.month);
    CarryOn(d.day + m, d.month, n);
    CarryWithinYear(day + n, month);
    YearsAdd(d.year, month, Carried(day + n, month).1);
  }
}
