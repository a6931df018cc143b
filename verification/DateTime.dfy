/** The calendar both games keep (Code/common/DateTime.cpp, Code/encoding/Structs/TimeModel.h), in exact arithmetic. */
module DateTime {

  const MONTHS := [31, 28, 31, 30, 31, 30, 31, 31, 30, 31, 30, 31]

  const HOURS_PER_SECOND: real := 0.00027777778

  /** The days of a month, the months counted on over the years. */
  function DaysOf(month: nat): (days: nat)
    ensures 28 <= days <= 31
  {
    MONTHS[month % 12]
  }

  /** Time of day in hours; a scale or a time below zero has no meaning. */
  datatype Date = Date(scale: real, time: real, year: nat, month: nat, day: nat, daysPassed: nat)

  predicate Valid(d: Date) {
    d.scale >= 0.0 && d.time >= 0.0
  }

  /** The game's hours in so many milliseconds. */
  function DeltaTime(d: Date, ticks: nat): (hours: real) {
    ticks as real / 1000.0 * (d.scale * HOURS_PER_SECOND)
  }

  function Midnights(hours: real): nat
    requires hours >= 0.0
  {
    (hours / 24.0).Floor
  }

  /** Days over the month's end carried into the next ones. */
  function Carried(day: nat, month: nat): (nat, nat) {
    if day > DaysOf(month) then Carried(day - DaysOf(month), month + 1) else (day, month)
  }

  function Updated(d: Date, ticks: nat): Date
    requires Valid(d)
  {
    DeltaPositive(d, ticks);
    var hours := d.time + DeltaTime(d, ticks);
    var (day, month) := Carried(d.day + Midnights(hours), d.month);
    Date(d.scale, hours - 24.0 * Midnights(hours) as real, d.year + month / 12, month % 12, day,
         d.daysPassed + Midnights(hours))
  }

  /** The days of so many months. */
  function DaysBefore(month: nat): nat {
    if month == 0 then 0 else DaysBefore(month - 1) + DaysOf(month - 1)
  }

  function TimeInDays(d: Date): real {
    (365 * d.year + DaysBefore(d.month) + d.day) as real + d.time / 24.0
  }

  lemma Product(a: real, b: real)
    requires a >= 0.0 && b >= 0.0
    ensures a * b >= 0.0
  {
  }

  lemma DeltaPositive(d: Date, ticks: nat)
    requires Valid(d)
    ensures DeltaTime(d, ticks) >= 0.0
  {
    Product(d.scale, HOURS_PER_SECOND);
    Product(ticks as real / 1000.0, d.scale * HOURS_PER_SECOND);
  }

  // ----- The object -----

  class Calendar {
    var scale: real
    var time: real
    var year: nat
    var month: nat
    var day: nat
    var daysPassed: nat

    ghost function Value(): Date
      reads this
    {
      Date(scale, time, year, month, day, daysPassed)
    }

    constructor (d: Date)
      ensures Value() == d
    {
      scale, time, year, month, day, daysPassed := d.scale, d.time, d.year, d.month, d.day, d.daysPassed;
    }

    method GetDeltaTime(ticks: nat) returns (hours: real)
      ensures hours == DeltaTime(Value(), ticks)
    {
      var seconds := ticks as real / 1000.0;
      return seconds * (scale * HOURS_PER_SECOND);
    }

    method Update(ticks: nat)
      requires Valid(Value())
      modifies this
      ensures Value() == Updated(old(Value()), ticks)
    {
      hide DaysOf, DeltaTime;
      DeltaPositive(Value(), ticks);
      var delta := GetDeltaTime(ticks);
      time := time + delta;
      var midnights := Midnights(time);
      day := day + midnights;
      daysPassed := daysPassed + midnights;
      time := time - 24.0 * midnights as real;
      ghost var days, months := day, month;
      while day > DaysOf(month)
        modifies this`day, this`month
        invariant Carried(day, month) == Carried(days, months)
      {
        day := day - DaysOf(month);
        month := month + 1;
      }
      year := year + month / 12;
      month := month % 12;
    }

    method GetTimeInDays() returns (total: real)
      ensures total == TimeInDays(Value())
    {
      total := year as real * 365.0;
      var i := 0;
      while i < month
        invariant 0 <= i <= month
        invariant total == (365 * year + DaysBefore(i)) as real
      {
        total := total + DaysOf(i) as real;
        i := i + 1;
      }
      total := total + day as real;
      total := total + time / 24.0;
    }
  }
}
