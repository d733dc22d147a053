/** Which half of the two-week timetable applies on a given date (`get_week_type`).
    A date is its proleptic Gregorian ordinal, the number `date.toordinal()` gives
    (0001-01-01 is day 1), so the day difference of two dates is the difference of
    their ordinals. */
module WeekParity {

  /** 2025-11-10, a Monday that starts an "odd" week. */
  const BaseOddMonday: int := 739565

  /** Python's `a // b` for a positive divisor: the quotient rounded toward negative infinity. */
  function FloorDiv(a: int, b: int): (q: int)
    requires b > 0
    ensures q * b <= a < q * b + b
  {
    a / b
  }

  /** `date.weekday()`: 0 for Monday through 6 for Sunday. */
  function Weekday(day: int): (w: int)
    ensures 0 <= w < 7
  {
    (day + 6) % 7
  }

  /** Whole weeks (rounded down) from the base Monday: even counts are "odd" weeks. */
  function WeekType(day: int): (r: string)
    ensures r == "odd" || r == "even"
  {
    var deltaWeeks := FloorDiv(day - BaseOddMonday, 7);
    if deltaWeeks % 2 == 0 then "odd" else "even"
  }

  lemma BaseIsMonday()
    ensures Weekday(BaseOddMonday) == 0
  {
  }

  /** The day `r` of the week that starts `k` weeks after the base Monday (k may be negative). */
  lemma {:induction false} WeekTypeOfOffset(k: int, r: int)
    requires 0 <= r < 7
    ensures WeekType(BaseOddMonday + 7 * k + r) == (if k % 2 == 0 then "odd" else "even")
  {
    var q := FloorDiv(7 * k + r, 7);
    assert q == k;
  }

  /** Every day of the base week, the base Monday included, is in an "odd" week. */
  lemma BaseWeekIsOdd(day: int)
    requires BaseOddMonday <= day < BaseOddMonday + 7
    ensures WeekType(day) == "odd"
  {
    WeekTypeOfOffset(0, day - BaseOddMonday);
  }

  /** The seven days before the base Monday are "even": the week count floors to -1. */
  lemma WeekBeforeBaseIsEven(day: int)
    requires BaseOddMonday - 7 <= day < BaseOddMonday
    ensures WeekType(day) == "even"
  {
    WeekTypeOfOffset(-1, day - (BaseOddMonday - 7));
  }

  /** Seven days later the week type is the other one, before the base date as well as after it. */
  lemma NextWeekFlips(day: int)
    ensures WeekType(day + 7) != WeekType(day)
  {
    var k, r := FloorDiv(day - BaseOddMonday, 7), (day - BaseOddMonday) % 7;
    assert day == BaseOddMonday + 7 * k + r;
    WeekTypeOfOffset(k, r);
    WeekTypeOfOffset(k + 1, r);
    assert day + 7 == BaseOddMonday + 7 * (k + 1) + r;
  }

  /** The week type repeats every fourteen days. */
  lemma TwoWeeksPeriodic(day: int)
    ensures WeekType(day + 14) == WeekType(day)
  {
    NextWeekFlips(day);
    NextWeekFlips(day + 7);
  }

  /** Because the base date is a Monday, a week type holds from a Monday through the Sunday after it. */
  lemma SameWeekSameType(monday: int, r: int)
    requires Weekday(monday) == 0 && 0 <= r < 7
    ensures WeekType(monday + r) == WeekType(monday)
  {
    var k := FloorDiv(monday - BaseOddMonday, 7);
    assert monday == BaseOddMonday + 7 * k;
    WeekTypeOfOffset(k, 0);
    WeekTypeOfOffset(k, r);
  }
}
