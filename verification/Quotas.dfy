/**
 * ReserveRequest stated on the rows themselves: which rows each limit counts,
 * exactly when a request is admitted, and what is then written. Windows, week
 * starts and prices are spelled out here once more.
 */
module Quotas {
  import opened Base
  import opened Ledger
  import opened Calendar
  import opened Windows
  import opened Admission
  import opened Pairing
  import opened Handoffs

  // ----- Rows and sums ----------------------------------------------------

  predicate Counts(row: KeyRow) {
    row.status == Reserved || row.status == Completed || row.status == Failed || row.status == Aborted
  }

  /** Tokens and money of the rows with these ids, of those below `n`: what is still reserved, and what was charged. */
  function TokensOf(rows: KeyRows, ids: set<nat>, n: nat): nat {
    if n == 0 then 0
    else TokensOf(rows, ids, n - 1) + if n - 1 in ids && n - 1 in rows then rows[n - 1].reservedTokens + rows[n - 1].chargedTokens else 0
  }

  function MoneyOf(rows: KeyRows, ids: set<nat>, n: nat): nat {
    if n == 0 then 0
    else MoneyOf(rows, ids, n - 1) + if n - 1 in ids && n - 1 in rows then rows[n - 1].reservedAmount + rows[n - 1].chargedAmount else 0
  }

  /** The last five hours; rows dated in the future count too. */
  function FiveHourRows(rows: KeyRows, g: nat, now: Time): set<nat> {
    set k | k in rows && Counts(rows[k]) && rows[k].group == g && rows[k].created >= now - 18_000 * SECOND
  }

  /** The billing day in Beijing. */
  function DayRows(rows: KeyRows, g: nat, now: Time): set<nat> {
    set k | k in rows && Counts(rows[k]) && rows[k].group == g && rows[k].day == (now + 28_800 * SECOND) / (86_400 * SECOND) && rows[k].created <= now
  }

  function RowsFrom(rows: KeyRows, g: nat, start: Time, now: Time): set<nat> {
    set k | k in rows && Counts(rows[k]) && rows[k].group == g && start <= rows[k].created <= now
  }

  function RowsAfter(rows: KeyRows, g: nat, t: Time, now: Time): set<nat> {
    set k | k in rows && Counts(rows[k]) && rows[k].group == g && t < rows[k].created <= now
  }

  function PeriodRows(rows: KeyRows, g: nat, start: Time, days: int, now: Time): set<nat> {
    set k | k in rows && Counts(rows[k]) && rows[k].group == g && start <= rows[k].created < start + days * 86_400 * SECOND && rows[k].created <= now
  }

  function KeyTotalRows(rows: KeyRows, key: nat): set<nat> {
    set k | k in rows && Counts(rows[k]) && rows[k].key == key
  }

  /** A limit refuses once it is positive and reached; tokens are looked at first. */
  function Answer(name: WindowName, tokens: nat, amount: nat, tokenLimit: int, amountLimit: int): Option<Refusal> {
    if 0 < tokenLimit <= tokens then Some(QuotaExceeded(name, Tokens, tokens, tokenLimit))
    else if 0 < amountLimit <= amount then Some(QuotaExceeded(name, Money, amount, amountLimit))
    else None
  }

  /** The sums of `ids` against a pair of limits. */
  function Limited(l: Ledger, name: WindowName, ids: set<nat>, tokenLimit: int, amountLimit: int): Option<Refusal> {
    Answer(name, TokensOf(l.keyRows, ids, l.nextKeyRow), MoneyOf(l.keyRows, ids, l.nextKeyRow), tokenLimit, amountLimit)
  }

  lemma {:induction false} SumsOfSelected(rows: KeyRows, w: Window, ids: set<nat>, n: nat)
    requires forall k :: k in ids <==> k in rows && Includes(w, rows[k])
    ensures UsedBelow(rows, w, Tokens, n) == TokensOf(rows, ids, n)
    ensures UsedBelow(rows, w, Money, n) == MoneyOf(rows, ids, n)
  {
    if n > 0 {
      SumsOfSelected(rows, w, ids, n - 1);
    }
  }

  lemma CheckMeans(l: Ledger, name: WindowName, w: Window, ids: set<nat>, tokenLimit: int, amountLimit: int)
    requires forall k :: k in ids <==> k in l.keyRows && Includes(w, l.keyRows[k])
    ensures Check(l, name, w, tokenLimit, amountLimit) == Limited(l, name, ids, tokenLimit, amountLimit)
  {
    SumsOfSelected(l.keyRows, w, ids, l.nextKeyRow);
  }

  // ----- Period and week ---------------------------------------------------

  /** A period is running. */
  predicate Runs(lim: Limits, now: Time) {
    && lim.periodDays > 0 && (lim.tokenPeriod > 0 || lim.amountPeriod > 0)
    && lim.periodStart.Some? && lim.periodStart.value <= now < lim.periodStart.value + lim.periodDays * 86_400 * SECOND
  }

  /** Some limit of the period is reached by the first `n` ids. */
  predicate UsedUp(rows: KeyRows, ids: set<nat>, lim: Limits, n: nat) {
    0 < lim.tokenPeriod <= TokensOf(rows, ids, n) || 0 < lim.amountPeriod <= MoneyOf(rows, ids, n)
  }

  /**
   * While a period runs, nothing else is asked until it is used up. From then on
   * the weekly limits bind what came after the row that used it up.
   */
  lemma RunningPeriod(l: Ledger, g: nat, lim: Limits, now: Time) returns (k: nat)
    requires Runs(lim, now)
    ensures var ids := PeriodRows(l.keyRows, g, lim.periodStart.value, lim.periodDays, now);
            && (!UsedUp(l.keyRows, ids, lim, l.nextKeyRow) ==> PeriodOrWeekCheck(l, g, lim, now) == None)
            && (UsedUp(l.keyRows, ids, lim, l.nextKeyRow) ==>
                  && k in ids && UsedUp(l.keyRows, ids, lim, k + 1) && !UsedUp(l.keyRows, ids, lim, k)
                  && PeriodOrWeekCheck(l, g, lim, now) ==
                     Limited(l, Weekly, RowsAfter(l.keyRows, g, l.keyRows[k].created, now), lim.tokenWeekly, lim.amountWeekly))
  {
    var w, n := PeriodWindow(g, lim, now), l.nextKeyRow;
    var ids := PeriodRows(l.keyRows, g, lim.periodStart.value, lim.periodDays, now);
    SumsOfSelected(l.keyRows, w, ids, n);
    PeriodScopeNeverRefuses(l, g, lim, now);
    if UsedUp(l.keyRows, ids, lim, n) {
      k := HandoffRowExists(l.keyRows, w, lim, n);
      SumsOfSelected(l.keyRows, w, ids, k);
      SumsOfSelected(l.keyRows, w, ids, k + 1);
      HandoffById(l.keyRows, w, lim, n, k);
      CheckMeans(l, Weekly, AfterHandoffWindow(g, l.keyRows[k].created, now), RowsAfter(l.keyRows, g, l.keyRows[k].created, now),
                 lim.tokenWeekly, lim.amountWeekly);
    } else {
      k := 0;
    }
  }

  /** A Monday 00:00 in Beijing: whole weeks away from 1970-01-05 00:00+08:00. */
  predicate IsMonday(t: Time) { (t - 4 * 86_400 * SECOND + 28_800 * SECOND) % (604_800 * SECOND) == 0 }

  /** Every instant lies in the week of one Monday. */
  lemma MondayBefore(now: Time) returns (monday: Time)
    ensures IsMonday(monday) && monday <= now < monday + 604_800 * SECOND
    ensures forall t :: IsMonday(t) && t <= now < t + 604_800 * SECOND ==> t == monday
  {
    monday := WeekStart(now);
    WeekContains(now);
    WeekStartCounted(monday);
    forall t | IsMonday(t) && t <= now < t + 604_800 * SECOND
      ensures t == monday
    {
      WeekStartCounted(t);
      WeeksTile(now, t);
    }
  }

  /** The instant from which the weekly limits count: the Monday, or the end of a period that ended since. */
  function CountedFrom(lim: Limits, monday: Time, now: Time): Time {
    if lim.periodDays > 0 && (lim.tokenPeriod > 0 || lim.amountPeriod > 0) && lim.periodStart.Some?
       && monday < lim.periodStart.value + lim.periodDays * 86_400 * SECOND <= now
    then lim.periodStart.value + lim.periodDays * 86_400 * SECOND
    else monday
  }

  /** Outside a period the weekly limits bind the rows dated since then. */
  lemma OutsidePeriod(l: Ledger, g: nat, lim: Limits, monday: Time, now: Time)
    requires !Runs(lim, now) && IsMonday(monday) && monday <= now < monday + 604_800 * SECOND
    ensures PeriodOrWeekCheck(l, g, lim, now) ==
            Limited(l, Weekly, RowsFrom(l.keyRows, g, CountedFrom(lim, monday, now), now), lim.tokenWeekly, lim.amountWeekly)
  {
    WeekStartCounted(monday);
    WeeksTile(now, monday);
    var start := CountedFrom(lim, monday, now);
    assert WeeklyWindowStart(now, lim) == (start, false);
    CheckMeans(l, Weekly, WeeklyWindow(g, start, now), RowsFrom(l.keyRows, g, start, now), lim.tokenWeekly, lim.amountWeekly);
  }

  // ----- All checks --------------------------------------------------------

  /** What the period and week say, written out. */
  ghost predicate PeriodAnswer(l: Ledger, g: nat, lim: Limits, monday: Time, now: Time, answer: Option<Refusal>) {
    if !Runs(lim, now) then
      answer == Limited(l, Weekly, RowsFrom(l.keyRows, g, CountedFrom(lim, monday, now), now), lim.tokenWeekly, lim.amountWeekly)
    else
      var ids := PeriodRows(l.keyRows, g, lim.periodStart.value, lim.periodDays, now);
      if !UsedUp(l.keyRows, ids, lim, l.nextKeyRow) then answer == None
      else
        exists k :: k in ids && UsedUp(l.keyRows, ids, lim, k + 1) && !UsedUp(l.keyRows, ids, lim, k)
                    && answer == Limited(l, Weekly, RowsAfter(l.keyRows, g, l.keyRows[k].created, now), lim.tokenWeekly, lim.amountWeekly)
  }

  lemma PeriodAnswers(l: Ledger, g: nat, lim: Limits, monday: Time, now: Time)
    requires IsMonday(monday) && monday <= now < monday + 604_800 * SECOND
    ensures PeriodAnswer(l, g, lim, monday, now, PeriodOrWeekCheck(l, g, lim, now))
  {
    if Runs(lim, now) {
      var k := RunningPeriod(l, g, lim, now);
    } else {
      OutsidePeriod(l, g, lim, monday, now);
    }
  }

  /**
   * The group's checks: five hours, then the day, then period or week; the first
   * refusal is the answer, and it names the sum and the limit it has reached.
   */
  lemma GroupAnswers(l: Ledger, g: nat, lim: Limits, monday: Time, now: Time)
    requires IsMonday(monday) && monday <= now < monday + 604_800 * SECOND
    ensures var five := Limited(l, FiveHours, FiveHourRows(l.keyRows, g, now), lim.token5h, lim.amount5h);
            var daily := Limited(l, Daily, DayRows(l.keyRows, g, now), lim.tokenDaily, lim.amountDaily);
            var answer := GroupCheck(l, g, lim, now);
            if five.Some? then answer == five
            else if daily.Some? then answer == daily
            else PeriodAnswer(l, g, lim, monday, now, answer)
  {
    CheckMeans(l, FiveHours, FiveHourWindow(g, now), FiveHourRows(l.keyRows, g, now), lim.token5h, lim.amount5h);
    CheckMeans(l, Daily, DailyWindow(g, now), DayRows(l.keyRows, g, now), lim.tokenDaily, lim.amountDaily);
    PeriodAnswers(l, g, lim, monday, now);
  }

  lemma KeyAnswers(l: Ledger, key: nat, p: Policy)
    ensures KeyCheck(l, key, p) ==
            Limited(l, KeyTotal, KeyTotalRows(l.keyRows, key),
                    if p.keyTokens.Some? then p.keyTokens.value else 0, if p.keyAmount.Some? then p.keyAmount.value else 0)
  {
    CheckMeans(l, KeyTotal, KeyWindow(key), KeyTotalRows(l.keyRows, key),
               if p.keyTokens.Some? then p.keyTokens.value else 0, if p.keyAmount.Some? then p.keyAmount.value else 0);
  }

  /** One row of the current week that fills a weekly limit is enough to refuse the group. */
  lemma FullWeekRefuses(l: Ledger, g: nat, lim: Limits, monday: Time, now: Time, k: nat)
    requires !Runs(lim, now) && IsMonday(monday) && monday <= now < monday + 604_800 * SECOND
    requires k < l.nextKeyRow && k in RowsFrom(l.keyRows, g, CountedFrom(lim, monday, now), now)
    requires 0 < lim.tokenWeekly <= l.keyRows[k].reservedTokens + l.keyRows[k].chargedTokens
    ensures GroupCheck(l, g, lim, now).Some?
  {
    GroupAnswers(l, g, lim, monday, now);
    OneRowCounts(l.keyRows, RowsFrom(l.keyRows, g, CountedFrom(lim, monday, now), now), k, l.nextKeyRow);
  }

  lemma {:induction false} OneRowCounts(rows: KeyRows, ids: set<nat>, k: nat, n: nat)
    requires k < n && k in ids && k in rows
    ensures TokensOf(rows, ids, n) >= rows[k].reservedTokens + rows[k].chargedTokens
  {
    if k < n - 1 {
      OneRowCounts(rows, ids, k, n - 1);
    }
  }

  // ----- Counts and prices -------------------------------------------------

  function OpenRows(rows: KeyRows, key: nat, n: nat): set<nat> {
    set k | k in rows && k < n && rows[k].key == key && rows[k].status == Reserved
  }

  lemma {:induction false} OpenIsCounted(rows: KeyRows, key: nat, n: nat)
    ensures OpenBelow(rows, key, n) == |OpenRows(rows, key, n)|
  {
    if n == 0 {
      assert OpenRows(rows, key, n) == {};
    } else {
      OpenIsCounted(rows, key, n - 1);
      var own := if n - 1 in rows && rows[n - 1].key == key && rows[n - 1].status == Reserved then {n - 1} else {};
      assert OpenRows(rows, key, n) == OpenRows(rows, key, n - 1) + own;
    }
  }

  function RecentRows(rows: map<nat, RequestRow>, from: Time, until: Time, n: nat): set<nat> {
    set r | r in rows && r < n && from <= rows[r].created <= until
  }

  lemma {:induction false} RecentIsCounted(rows: map<nat, RequestRow>, from: Time, until: Time, n: nat)
    ensures DatedBelow(rows, from, until, n) == |RecentRows(rows, from, until, n)|
  {
    if n == 0 {
      assert RecentRows(rows, from, until, n) == {};
    } else {
      RecentIsCounted(rows, from, until, n - 1);
      var own := if n - 1 in rows && from <= rows[n - 1].created <= until then {n - 1} else {};
      assert RecentRows(rows, from, until, n) == RecentRows(rows, from, until, n - 1) + own;
    }
  }

  /** The amount a request reserves under these quotes, if it can be computed in 64 bits. */
  predicate Costs(q: Pricing.Quote, input: nat, output: nat, amount: int) {
    && q.rate > 0 && q.input * q.rate <= MAX_INT64 && q.output * q.rate <= MAX_INT64 && q.cached * q.rate <= MAX_INT64
    && var inputCost, outputCost := input * (q.input * q.rate / 1000), output * (q.output * q.rate / 1000);
    && (inputCost == 0 || inputCost + 999_999 <= MAX_INT64) && (outputCost == 0 || outputCost + 999_999 <= MAX_INT64)
    && amount == (inputCost + 999_999) / 1_000_000 + (outputCost + 999_999) / 1_000_000 <= MAX_INT64
  }

  lemma AmountMeans(q: Pricing.Quote, input: nat, output: nat, amount: int)
    ensures AmountFor(q, input, output) == Pricing.Ok(amount) <==> Costs(q, input, output, amount)
  {
    Pricing.PriceWithRateMeans(q.input, q.rate);
    Pricing.PriceWithRateMeans(q.output, q.rate);
    Pricing.PriceWithRateMeans(q.cached, q.rate);
    if Pricing.PriceWithRate(q.input, q.rate).Ok? && Pricing.PriceWithRate(q.output, q.rate).Ok? && Pricing.PriceWithRate(q.cached, q.rate).Ok? {
      Pricing.ProductMonotone(0, q.input, q.rate);
      Pricing.ProductMonotone(0, q.output, q.rate);
      var inputPrice: nat, outputPrice: nat := q.input * q.rate / 1000, q.output * q.rate / 1000;
      Pricing.ProductMonotone(0, input, inputPrice);
      Pricing.ProductMonotone(0, output, outputPrice);
      Pricing.ReserveAmountMeans(input, output, inputPrice, outputPrice,
                                 (input * inputPrice + 999_999) / 1_000_000, (output * outputPrice + 999_999) / 1_000_000);
    }
  }

  // ----- The decision ------------------------------------------------------

  /** The request itself can be asked for. */
  predicate WellFormed(d: Demand, p: Policy) {
    d.token != "" && d.key > 0 && d.model > 0 && d.provider > 0 && d.output > 0 && d.input + d.output <= MAX_INT64 && p.rpm > 0
  }

  predicate Priced(d: Demand, p: Policy, amount: int) {
    p.quote.Some? && d.output >= 0 && Costs(p.quote.value, d.input, d.output, amount)
  }

  /**
   * Exactly when a request is admitted: it is well formed, the key is enabled and
   * has room, its group may use the model at a price in range, fewer requests
   * than the limit are dated within the last minute, no limit of group or key is
   * reached, and the token is new.
   */
  lemma AdmittedIff(l: Ledger, d: Demand, p: Policy, amount: int)
    ensures Decide(l, d, p).Admitted? && Decide(l, d, p).ticket.amount == amount <==>
            && WellFormed(d, p)
            && p.enabled
            && |OpenRows(l.keyRows, d.key, l.nextKeyRow)| < p.concurrency
            && p.group > 0 && Priced(d, p, amount)
            && |RecentRows(l.requests, d.created - 60 * SECOND, d.created, l.nextRequest)| < p.rpm
            && GroupCheck(l, p.group, p.limits, d.created) == None
            && KeyCheck(l, d.key, p) == None
            && (forall r :: r in l.requests ==> l.requests[r].token != d.token)
  {
    OpenIsCounted(l.keyRows, d.key, l.nextKeyRow);
    RecentIsCounted(l.requests, d.created - 60 * SECOND, d.created, l.nextRequest);
    if p.quote.Some? && d.output >= 0 {
      AmountMeans(p.quote.value, d.input, d.output, amount);
    }
  }

  /** No amount in range. */
  ghost predicate TooDear(q: Pricing.Quote, input: nat, output: nat) { forall amount :: !Costs(q, input, output, amount) }

  /** The first condition that fails names the refusal. */
  lemma RefusalMeans(l: Ledger, d: Demand, p: Policy)
    ensures var decision := Decide(l, d, p);
            var group, key := GroupCheck(l, p.group, p.limits, d.created), KeyCheck(l, d.key, p);
            if !WellFormed(d, p) then decision == Refused(BadRequest)
            else if !p.enabled then decision == Refused(KeyDisabled)
            else if |OpenRows(l.keyRows, d.key, l.nextKeyRow)| >= p.concurrency then decision == Refused(ConcurrencyExceeded)
            else if p.group == 0 || p.quote.None? then decision == Refused(NotAuthorized)
            else if TooDear(p.quote.value, d.input, d.output) then decision == Refused(PriceOverflow)
            else if |RecentRows(l.requests, d.created - 60 * SECOND, d.created, l.nextRequest)| >= p.rpm then decision == Refused(RpmExceeded)
            else if group.Some? then decision == Refused(group.value)
            else if key.Some? then decision == Refused(key.value)
            else decision.Refused? ==> decision == Refused(TokenTaken) && exists r :: r in l.requests && l.requests[r].token == d.token
  {
    OpenIsCounted(l.keyRows, d.key, l.nextKeyRow);
    RecentIsCounted(l.requests, d.created - 60 * SECOND, d.created, l.nextRequest);
    if p.quote.Some? && d.output >= 0 {
      TooDearMeans(p.quote.value, d.input, d.output);
    }
  }

  lemma TooDearMeans(q: Pricing.Quote, input: nat, output: nat)
    ensures TooDear(q, input, output) <==> !AmountFor(q, input, output).Ok?
  {
    if AmountFor(q, input, output).Ok? {
      AmountMeans(q, input, output, AmountFor(q, input, output).value);
    }
    forall amount | Costs(q, input, output, amount)
      ensures AmountFor(q, input, output).Ok?
    {
      AmountMeans(q, input, output, amount);
    }
  }

  /** What an admission writes: one row in each table, under new ids, and nothing else. */
  lemma AdmissionRecords(l: Ledger, d: Demand, p: Policy)
    requires IdsBelowNext(l) && Decide(l, d, p).Admitted?
    ensures var l', amount := Reserve(l, d, p), Decide(l, d, p).ticket.amount;
            var today := (d.created + 28_800 * SECOND) / (86_400 * SECOND);
            && amount >= 0 && d.output >= 0 && l.nextRequest !in l.requests && l.nextKeyRow !in l.keyRows
            && l' == Ledger(
                 l.requests[l.nextRequest := RequestRow(
                   d.token, Some(d.key), Some(d.model), Some(d.provider), p.group, d.created, today, Reserved,
                   d.input + d.output, 0, Usage(d.input, 0, 0, amount),
                   Notes(None, "", "", "unknown", "chat", "", "", None, None, None, None), None)],
                 l.keyRows[l.nextKeyRow := KeyRow(
                   d.token, d.key, d.model, p.group, d.created, today, Reserved, d.input + d.output, amount, 0, 0, None)],
                 l.nextRequest + 1, l.nextKeyRow + 1)
  {
  }
}
