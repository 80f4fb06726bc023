/** Billing days and weeks: Beijing time, weeks beginning on Monday. */
module Calendar {
  import opened Base

  const ZONE: int := 8 * HOUR
  const WEEK: int := 7 * DAY
  const MONDAY: int := 1

  /** The Beijing date of an instant, counted in days from 1970-01-01. */
  function DayOf(t: Time): int { (t + ZONE) / DAY }

  /** Sunday is 0; 1970-01-01 was a Thursday. */
  function Weekday(day: int): int { (day + 4) % 7 }

  function Midnight(day: int): Time { day * DAY - ZONE }

  /** billingWeekStart: go back to midnight, then back to Monday. */
  function WeekStart(t: Time): Time {
    var offset := (Weekday(DayOf(t)) + 6) % 7;
    Midnight(DayOf(t) - offset)
  }

  /** What a week start is, independently of how it is computed. */
  predicate IsWeekStart(s: Time) {
    Midnight(DayOf(s)) == s && Weekday(DayOf(s)) == MONDAY
  }

  lemma MidnightBeginsItsDay(day: int)
    ensures DayOf(Midnight(day)) == day
  {
  }

  /** The week of `t` starts on a Monday at 00:00 and contains `t`. */
  lemma WeekContains(t: Time)
    ensures IsWeekStart(WeekStart(t))
    ensures WeekStart(t) <= t < WeekStart(t) + WEEK
  {
    var day := DayOf(t);
    var offset := (Weekday(day) + 6) % 7;
    MidnightBeginsItsDay(day - offset);
    assert Midnight(day) <= t < Midnight(day) + DAY;
    MondayOffset(day);
  }

  lemma MondayOffset(day: int)
    ensures Weekday(day - (Weekday(day) + 6) % 7) == MONDAY
  {
  }

  lemma MondaysAreWeeksApart(a: int, b: int)
    requires Weekday(a) == MONDAY && Weekday(b) == MONDAY && a < b
    ensures b - a >= 7
  {
  }

  /** Weeks tile time: the only week start whose seven days contain `t` is the computed one. */
  lemma WeeksTile(t: Time, s: Time)
    requires IsWeekStart(s)
    ensures s <= t < s + WEEK <==> s == WeekStart(t)
  {
    WeekContains(t);
    var w := WeekStart(t);
    if s <= t < s + WEEK && s != w {
      if DayOf(s) < DayOf(w) {
        MondaysAreWeeksApart(DayOf(s), DayOf(w));
      } else {
        MondaysAreWeeksApart(DayOf(w), DayOf(s));
      }
    }
  }

  /** 1970-01-05 00:00 in Beijing, the first Monday after the epoch. */
  const FIRST_MONDAY := 88 * HOUR

  /** The week start counted from a known Monday: the calendar is the real one. */
  lemma WeekStartCounted(t: Time)
    ensures WeekStart(t) == t - (t - FIRST_MONDAY) % WEEK
    ensures IsWeekStart(t) <==> (t - FIRST_MONDAY) % WEEK == 0
  {
    var day, rest := DayOf(t), (t + ZONE) % DAY;
    var weeks, into := (day - 4) / 7, (day - 4) % 7;
    DaysSinceMonday(day);
    RemainderOf(t - FIRST_MONDAY, weeks, into * DAY + rest);
  }

  lemma DaysSinceMonday(day: int)
    ensures (Weekday(day) + 6) % 7 == (day - 4) % 7
    ensures Weekday(day) == MONDAY <==> (day - 4) % 7 == 0
  {
  }

  lemma RemainderOf(x: int, weeks: int, r: int)
    requires x == weeks * WEEK + r && 0 <= r < WEEK
    ensures x % WEEK == r
  {
  }

  // ----- The custom period and the weekly window --------------------------

  /** Quota limits of a group; a limit of zero is no limit. */
  datatype Limits = Limits(
    token5h: int, amount5h: int, tokenDaily: int, amountDaily: int, tokenWeekly: int, amountWeekly: int,
    periodStart: Option<Time>, periodDays: int, tokenPeriod: int, amountPeriod: int)

  predicate HasPeriod(lim: Limits) {
    lim.periodDays > 0 && (lim.tokenPeriod > 0 || lim.amountPeriod > 0) && lim.periodStart.Some?
  }

  function PeriodEnd(lim: Limits): Time
    requires lim.periodStart.Some?
  {
    lim.periodStart.value + lim.periodDays * DAY
  }

  predicate PeriodActive(now: Time, lim: Limits) {
    HasPeriod(lim) && lim.periodStart.value <= now < PeriodEnd(lim)
  }

  /** The start of the weekly window, and whether a period is running instead. */
  function WeeklyWindowStart(now: Time, lim: Limits): (Time, bool) {
    if PeriodActive(now, lim) then (now, true)
    else if HasPeriod(lim) && WeekStart(now) < PeriodEnd(lim) <= now then (PeriodEnd(lim), false)
    else (WeekStart(now), false)
  }

  /** Outside a period the weekly window lies in the current week and never reaches back into an expired period. */
  lemma WeeklyWindowAvoidsExpiredPeriod(now: Time, lim: Limits)
    ensures WeeklyWindowStart(now, lim).1 <==> PeriodActive(now, lim)
    ensures !PeriodActive(now, lim) ==> WeekStart(now) <= WeeklyWindowStart(now, lim).0 <= now
    ensures HasPeriod(lim) && PeriodEnd(lim) <= now ==> PeriodEnd(lim) <= WeeklyWindowStart(now, lim).0
  {
    WeekContains(now);
  }
}
