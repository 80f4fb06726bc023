/**
 * GroupOverview, the admin console's view of a group's quotas, and its
 * agreement with what ReserveRequest enforces.
 */
module Overview {
  import opened Base
  import opened Ledger
  import opened Calendar
  import opened Windows
  import opened Admission

  /** One gauge on the console. */
  datatype Gauge = Gauge(active: bool, tokens: nat, tokenLimit: int, amount: nat, amountLimit: int)

  datatype Gauges = Gauges(fiveHour: Gauge, daily: Gauge, weekly: Gauge, period: Gauge)

  predicate ShowsOverdrawn(g: Gauge) {
    g.active && (Overdrawn(g.tokens, g.tokenLimit) || Overdrawn(g.amount, g.amountLimit))
  }

  function Read(l: Ledger, w: Window, active: bool, tokenLimit: int, amountLimit: int): Gauge {
    Gauge(active, Used(l, w, Tokens), tokenLimit, Used(l, w, Money), amountLimit)
  }

  function FiveHourShown(g: nat, now: Time): Window {
    Window(OfGroup(g), Some(now - 5 * HOUR), None, Some(now), None, None)
  }

  function PeriodShown(g: nat, lim: Limits): Window
    requires lim.periodStart.Some?
  {
    Window(OfGroup(g), lim.periodStart, None, None, Some(PeriodEnd(lim)), None)
  }

  function GroupOverview(l: Ledger, g: nat, lim: Limits, now: Time): Gauges {
    var handoff := if PeriodActive(now, lim) then HandoffTime(l, g, lim, now) else None;
    var periodActive := PeriodActive(now, lim) && handoff.None?;
    var weekly := if handoff.Some? then AfterHandoffWindow(g, handoff.value, now)
                  else WeeklyWindow(g, WeeklyWindowStart(now, lim).0, now);
    Gauges(
      Read(l, FiveHourShown(g, now), true, lim.token5h, lim.amount5h),
      Read(l, DailyWindow(g, now), true, lim.tokenDaily, lim.amountDaily),
      Read(l, weekly, !periodActive, lim.tokenWeekly, lim.amountWeekly),
      if lim.periodDays > 0 && lim.periodStart.Some? then Read(l, PeriodShown(g, lim), periodActive, lim.tokenPeriod, lim.amountPeriod)
      else Gauge(periodActive, 0, lim.tokenPeriod, 0, lim.amountPeriod))
  }

  ghost predicate NoFutureRows(l: Ledger, now: Time) {
    forall k :: k in l.keyRows ==> l.keyRows[k].created <= now
  }

  /** The enforced five-hour sum exceeds the shown one by exactly the rows dated after now. */
  lemma FiveHourDifference(l: Ledger, g: nat, now: Time, m: Measure)
    ensures Used(l, FiveHourWindow(g, now), m)
            == Used(l, FiveHourShown(g, now), m) + Used(l, Window(OfGroup(g), None, Some(now), None, None, None), m)
  {
    SharesSplit(l.keyRows, FiveHourWindow(g, now), FiveHourShown(g, now),
                Window(OfGroup(g), None, Some(now), None, None, None), m, l.nextKeyRow);
  }

  lemma NothingInTheFuture(l: Ledger, g: nat, now: Time, m: Measure)
    requires NoFutureRows(l, now)
    ensures Used(l, Window(OfGroup(g), None, Some(now), None, None, None), m) == 0
  {
    Nothing(l.keyRows, Window(OfGroup(g), None, Some(now), None, None, None), m, l.nextKeyRow);
  }

  lemma {:induction false} Nothing(rows: map<nat, KeyRow>, w: Window, m: Measure, n: nat)
    requires forall k: nat :: k < n ==> Share(rows, w, m, k) == 0
    ensures UsedBelow(rows, w, m, n) == 0
  {
    if n > 0 {
      Nothing(rows, w, m, n - 1);
    }
  }

  lemma PeriodSumsAgree(l: Ledger, g: nat, lim: Limits, now: Time, m: Measure)
    requires NoFutureRows(l, now) && lim.periodStart.Some?
    ensures Used(l, PeriodShown(g, lim), m) == Used(l, PeriodWindow(g, lim, now), m)
  {
    SharesAgree(l.keyRows, PeriodShown(g, lim), l.keyRows, PeriodWindow(g, lim, now), m, l.nextKeyRow);
  }

  /**
   * On a ledger without rows from the future, a request passes the group's
   * quota checks if and only if the console shows no active gauge at or over
   * its limit.
   */
  lemma DashboardAgreesWithEnforcement(l: Ledger, g: nat, lim: Limits, now: Time)
    requires NoFutureRows(l, now)
    ensures var o := GroupOverview(l, g, lim, now);
            GroupCheck(l, g, lim, now) == None <==>
              !ShowsOverdrawn(o.fiveHour) && !ShowsOverdrawn(o.daily) && !ShowsOverdrawn(o.weekly) && !ShowsOverdrawn(o.period)
  {
    FiveHourDifference(l, g, now, Tokens);
    FiveHourDifference(l, g, now, Money);
    NothingInTheFuture(l, g, now, Tokens);
    NothingInTheFuture(l, g, now, Money);
    if PeriodActive(now, lim) {
      PeriodScopeNeverRefuses(l, g, lim, now);
      PeriodSumsAgree(l, g, lim, now, Tokens);
      PeriodSumsAgree(l, g, lim, now, Money);
    }
  }
}
