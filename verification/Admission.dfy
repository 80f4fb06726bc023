/**
 * ReserveRequest: the checks made inside the reservation transaction, in the
 * order the store makes them, and the pair of rows it inserts when all pass.
 */
module Admission {
  import opened Base
  import opened Ledger
  import opened Calendar
  import opened Windows
  import Period
  import Pricing

  /** What the caller asks for. */
  datatype Demand = Demand(token: string, key: nat, model: nat, provider: nat, created: Time, input: nat, output: int)

  /** What the transaction reads about the key, its group and the model; `rpm` is the one global limit. */
  datatype Policy = Policy(
    enabled: bool, concurrency: int, keyTokens: Option<int>, keyAmount: Option<int>,
    group: nat, limits: Limits, quote: Option<Pricing.Quote>, rpm: int)

  datatype WindowName = FiveHours | Daily | Weekly | Custom | KeyTotal

  datatype Refusal =
    | BadRequest
    | KeyDisabled
    | ConcurrencyExceeded
    | NotAuthorized
    | PriceOverflow
    | RpmExceeded
    | QuotaExceeded(window: WindowName, measure: Measure, used: nat, limit: int)
    | TokenTaken

  datatype Decision = Admitted(ticket: Ticket) | Refused(why: Refusal)

  // ----- The windows ------------------------------------------------------

  /** The upper bound of this query compares a number with a text, which SQLite always finds true. */
  function FiveHourWindow(g: nat, now: Time): Window {
    Window(OfGroup(g), Some(now - 5 * HOUR), None, None, None, None)
  }

  function DailyWindow(g: nat, now: Time): Window {
    Window(OfGroup(g), None, None, Some(now), None, Some(DayOf(now)))
  }

  function PeriodWindow(g: nat, lim: Limits, now: Time): Window
    requires lim.periodStart.Some?
  {
    Window(OfGroup(g), lim.periodStart, None, Some(now), Some(PeriodEnd(lim)), None)
  }

  function WeeklyWindow(g: nat, start: Time, now: Time): Window {
    Window(OfGroup(g), Some(start), None, Some(now), None, None)
  }

  function AfterHandoffWindow(g: nat, handoff: Time, now: Time): Window {
    Window(OfGroup(g), None, Some(handoff), Some(now), None, None)
  }

  function KeyWindow(k: nat): Window {
    Window(OfKey(k), None, None, None, None, None)
  }

  // ----- The checks -------------------------------------------------------

  /** The overdraft rule: refuse only once a positive limit is used up. */
  predicate Overdrawn(used: int, limit: int) { limit > 0 && used >= limit }

  function Check(l: Ledger, name: WindowName, w: Window, tokenLimit: int, amountLimit: int): Option<Refusal> {
    if Overdrawn(Used(l, w, Tokens), tokenLimit) then Some(QuotaExceeded(name, Tokens, Used(l, w, Tokens), tokenLimit))
    else if Overdrawn(Used(l, w, Money), amountLimit) then Some(QuotaExceeded(name, Money, Used(l, w, Money), amountLimit))
    else None
  }

  /** The instant at which a running period handed over to the weekly window. */
  function HandoffTime(l: Ledger, g: nat, lim: Limits, now: Time): Option<Time>
    requires lim.periodStart.Some?
  {
    Period.Transition(Rows(l.keyRows, PeriodWindow(g, lim, now), l.nextKeyRow), lim)
  }

  function PeriodOrWeekCheck(l: Ledger, g: nat, lim: Limits, now: Time): Option<Refusal> {
    if PeriodActive(now, lim) then
      match HandoffTime(l, g, lim, now)
      case Some(t) => Check(l, Weekly, AfterHandoffWindow(g, t, now), lim.tokenWeekly, lim.amountWeekly)
      case None => Check(l, Custom, PeriodWindow(g, lim, now), lim.tokenPeriod, lim.amountPeriod)
    else
      Check(l, Weekly, WeeklyWindow(g, WeeklyWindowStart(now, lim).0, now), lim.tokenWeekly, lim.amountWeekly)
  }

  /** The group's window checks, first failure first. */
  function GroupCheck(l: Ledger, g: nat, lim: Limits, now: Time): Option<Refusal> {
    var five := Check(l, FiveHours, FiveHourWindow(g, now), lim.token5h, lim.amount5h);
    if five.Some? then five
    else
      var daily := Check(l, Daily, DailyWindow(g, now), lim.tokenDaily, lim.amountDaily);
      if daily.Some? then daily else PeriodOrWeekCheck(l, g, lim, now)
  }

  function KeyCheck(l: Ledger, k: nat, p: Policy): Option<Refusal> {
    Check(l, KeyTotal, KeyWindow(k),
          if p.keyTokens.Some? then p.keyTokens.value else 0,
          if p.keyAmount.Some? then p.keyAmount.value else 0)
  }

  /** Open reservations of a key, over the ids below `n`. */
  function OpenBelow(rows: map<nat, KeyRow>, key: nat, n: nat): nat {
    if n == 0 then 0
    else OpenBelow(rows, key, n - 1) + if n - 1 in rows && rows[n - 1].key == key && rows[n - 1].status == Reserved then 1 else 0
  }

  /** Requests of any key dated within `[from, until]`, over the ids below `n`. */
  function DatedBelow(rows: map<nat, RequestRow>, from: Time, until: Time, n: nat): nat {
    if n == 0 then 0
    else DatedBelow(rows, from, until, n - 1) + if n - 1 in rows && from <= rows[n - 1].created <= until then 1 else 0
  }

  function LastMinute(l: Ledger, now: Time): nat {
    DatedBelow(l.requests, now - 60 * SECOND, now, l.nextRequest)
  }

  function AmountFor(q: Pricing.Quote, input: nat, output: nat): Pricing.Priced {
    var i := Pricing.PriceWithRate(q.input, q.rate);
    var o := Pricing.PriceWithRate(q.output, q.rate);
    var c := Pricing.PriceWithRate(q.cached, q.rate);
    if !i.Ok? then i else if !o.Ok? then o else if !c.Ok? then c
    else Pricing.ReserveAmount(input, output, i.value, o.value)
  }

  lemma AmountIsAccepted(q: Pricing.Quote, input: nat, output: nat)
    requires AmountFor(q, input, output).Ok?
    ensures Pricing.Accepted(q, input, output, AmountFor(q, input, output).value)
    ensures AmountFor(q, input, output).value >= 0
  {
    var i := Pricing.PriceWithRate(q.input, q.rate).value;
    var o := Pricing.PriceWithRate(q.output, q.rate).value;
    Pricing.CeilPriceIsExact(input, i);
    Pricing.CeilPriceIsExact(output, o);
  }

  /** ReserveRequest up to its inserts. */
  function Decide(l: Ledger, d: Demand, p: Policy): Decision {
    if d.token == "" || d.key == 0 || d.model == 0 || d.provider == 0 then Refused(BadRequest)
    else if d.output <= 0 || d.input + d.output > MAX_INT64 || p.rpm <= 0 then Refused(BadRequest)
    else if !p.enabled then Refused(KeyDisabled)
    else if OpenBelow(l.keyRows, d.key, l.nextKeyRow) >= p.concurrency then Refused(ConcurrencyExceeded)
    else if p.group == 0 || p.quote.None? then Refused(NotAuthorized)
    else if !AmountFor(p.quote.value, d.input, d.output).Ok? then Refused(PriceOverflow)
    else if LastMinute(l, d.created) >= p.rpm then Refused(RpmExceeded)
    else
      var group := GroupCheck(l, p.group, p.limits, d.created);
      if group.Some? then Refused(group.value)
      else
        var key := KeyCheck(l, d.key, p);
        if key.Some? then Refused(key.value)
        else if !TokenFree(l, d.token) then Refused(TokenTaken)
        else
          AmountIsAccepted(p.quote.value, d.input, d.output);
          Admitted(Ticket(d.token, d.key, d.model, d.provider, p.group, d.created, DayOf(d.created),
                          d.input, d.input + d.output, AmountFor(p.quote.value, d.input, d.output).value))
  }

  function Reserve(l: Ledger, d: Demand, p: Policy): Ledger {
    match Decide(l, d, p)
    case Admitted(t) => Insert(l, t)
    case Refused(_) => l
  }

  /** Every check behind an admission, gathered in one place. */
  lemma AdmissionMeans(l: Ledger, d: Demand, p: Policy)
    requires Decide(l, d, p).Admitted?
    ensures TokenFree(l, d.token)
    ensures OpenBelow(l.keyRows, d.key, l.nextKeyRow) < p.concurrency
    ensures LastMinute(l, d.created) < p.rpm
    ensures GroupCheck(l, p.group, p.limits, d.created) == None
    ensures KeyCheck(l, d.key, p) == None
  {
  }

  // ----- The first request of an empty ledger -----------------------------

  predicate IsEmpty(l: Ledger) { l.requests == map[] && l.keyRows == map[] }

  lemma {:induction false} EmptyUsesNothing(l: Ledger, w: Window, m: Measure, n: nat)
    requires IsEmpty(l)
    ensures UsedBelow(l.keyRows, w, m, n) == 0 && Rows(l.keyRows, w, n) == []
  {
    if n > 0 {
      EmptyUsesNothing(l, w, m, n - 1);
    }
  }

  lemma {:induction false} EmptyCountsNothing(l: Ledger, key: nat, from: Time, until: Time, n: nat)
    requires IsEmpty(l)
    ensures OpenBelow(l.keyRows, key, n) == 0 && DatedBelow(l.requests, from, until, n) == 0
  {
    if n > 0 {
      EmptyCountsNothing(l, key, from, until, n - 1);
    }
  }

  lemma EmptyPasses(l: Ledger, name: WindowName, w: Window, tokenLimit: int, amountLimit: int)
    requires IsEmpty(l)
    ensures Check(l, name, w, tokenLimit, amountLimit) == None
  {
    EmptyUsesNothing(l, w, Tokens, l.nextKeyRow);
    EmptyUsesNothing(l, w, Money, l.nextKeyRow);
  }

  lemma EmptyGroupPasses(l: Ledger, g: nat, lim: Limits, now: Time)
    requires IsEmpty(l)
    ensures GroupCheck(l, g, lim, now) == None
  {
    EmptyPasses(l, FiveHours, FiveHourWindow(g, now), lim.token5h, lim.amount5h);
    EmptyPasses(l, Daily, DailyWindow(g, now), lim.tokenDaily, lim.amountDaily);
    if PeriodActive(now, lim) {
      EmptyUsesNothing(l, PeriodWindow(g, lim, now), Tokens, l.nextKeyRow);
      EmptyPasses(l, Custom, PeriodWindow(g, lim, now), lim.tokenPeriod, lim.amountPeriod);
    } else {
      EmptyPasses(l, Weekly, WeeklyWindow(g, WeeklyWindowStart(now, lim).0, now), lim.tokenWeekly, lim.amountWeekly);
    }
  }

  /** A well-formed request that meets no other is admitted: limits only bind what is already used. */
  lemma FirstRequestIsAdmitted(l: Ledger, d: Demand, p: Policy)
    requires IsEmpty(l)
    requires d.token != "" && d.key > 0 && d.model > 0 && d.provider > 0
    requires d.output > 0 && d.input + d.output <= MAX_INT64 && p.rpm > 0
    requires p.enabled && p.concurrency > 0 && p.group > 0
    requires p.quote.Some? && AmountFor(p.quote.value, d.input, d.output).Ok?
    ensures Decide(l, d, p).Admitted?
    ensures Decide(l, d, p).ticket.amount == AmountFor(p.quote.value, d.input, d.output).value
  {
    EmptyCountsNothing(l, d.key, d.created - 60 * SECOND, d.created, l.nextKeyRow);
    EmptyCountsNothing(l, d.key, d.created - 60 * SECOND, d.created, l.nextRequest);
    EmptyGroupPasses(l, p.group, p.limits, d.created);
    EmptyPasses(l, KeyTotal, KeyWindow(d.key),
                if p.keyTokens.Some? then p.keyTokens.value else 0, if p.keyAmount.Some? then p.keyAmount.value else 0);
    AmountIsAccepted(p.quote.value, d.input, d.output);
  }

  // ----- The price bound, seen from the transaction -------------------------

  /** What an admitted request reserves is an accepted amount with a positive output. */
  lemma AdmittedAmount(l: Ledger, d: Demand, p: Policy)
    requires Decide(l, d, p).Admitted?
    ensures d.output > 0 && p.quote.Some? && Pricing.Accepted(p.quote.value, d.input, d.output, Decide(l, d, p).ticket.amount)
  {
    AmountIsAccepted(p.quote.value, d.input, d.output);
  }

  /**
   * An admitted request whose usage stays within its reserved counts settles for
   * at most one micro-yuan more than it reserved, under every harmless quote; a
   * cached quote no dearer than the input quote is one.
   */
  lemma AdmittedSettlesWithin(l: Ledger, d: Demand, p: Policy, u: Pricing.Tokens)
    requires Decide(l, d, p).Admitted? && u.prompt <= d.input && u.completion <= d.output
    ensures p.quote.Some? && Pricing.Quotable(p.quote.value)
    ensures Pricing.CacheIsCheaper(p.quote.value) ==> Pricing.CacheIsHarmless(p.quote.value)
    ensures Pricing.CacheIsHarmless(p.quote.value) ==>
              Pricing.Min(MAX_INT64, Pricing.ExactBill(u, Pricing.Effective(p.quote.value))) <= Decide(l, d, p).ticket.amount + 1
  {
    AdmittedAmount(l, d, p);
    var q := p.quote.value;
    if Pricing.CacheIsCheaper(q) {
      Pricing.CheaperIsHarmless(q);
    }
    if Pricing.CacheIsHarmless(q) {
      Pricing.HarmlessSettles(q, d.input, d.output, Decide(l, d, p).ticket.amount, u);
    }
  }

  const SAME_QUOTE := Pricing.Quote(1, 0, 1, 1000)
  const NO_LIMITS := Limits(0, 0, 0, 0, 0, 0, None, 0, 0, 0)

  /** A first request, and a policy without limits. */
  function FirstDemand(input: nat): Demand { Demand("t", 1, 1, 1, 0, input, 1) }

  function OpenPolicy(q: Pricing.Quote): Policy { Policy(true, 1, None, None, 1, NO_LIMITS, Some(q), 1) }

  /** The extra micro-yuan is really reached: an admitted request, one cached and one uncached token, at a quote of one. */
  lemma OneMicroyuanOverIsReached()
    ensures var decision := Decide(EMPTY, FirstDemand(2), OpenPolicy(SAME_QUOTE));
            && decision.Admitted?
            && Pricing.ExactBill(Pricing.Tokens(2, 1, 1), Pricing.Effective(SAME_QUOTE)) == decision.ticket.amount + 1
  {
    FirstRequestIsAdmitted(EMPTY, FirstDemand(2), OpenPolicy(SAME_QUOTE));
  }

  /** For every harmful quote: an admitted request whose usage within the reserved counts costs more. */
  lemma HarmfulCacheBreaksAdmission(q: Pricing.Quote) returns (input: nat, hits: nat)
    requires Pricing.Quotable(q) && !Pricing.CacheIsHarmless(q)
    ensures hits <= input
    ensures var decision := Decide(EMPTY, FirstDemand(input), OpenPolicy(q));
            && decision.Admitted?
            && Pricing.Min(MAX_INT64, Pricing.ExactBill(Pricing.Tokens(input, 1, hits), Pricing.Effective(q))) > decision.ticket.amount + 1
  {
    input, hits := HarmfulPrompt(q);
    var amount := Pricing.HarmfulBreaks(q, input, hits);
    FirstRequestIsAdmitted(EMPTY, FirstDemand(input), OpenPolicy(q));
  }

  /** A harmful prompt of a size that can be asked for. */
  lemma HarmfulPrompt(q: Pricing.Quote) returns (input: nat, hits: nat)
    requires Pricing.Quotable(q) && !Pricing.CacheIsHarmless(q)
    ensures hits <= input && input + 1 <= MAX_INT64 && Pricing.CeilPrice(input, Pricing.InputPrice(q)).Ok?
    ensures Pricing.Excess(Pricing.InputPrice(q), Pricing.HitPrice(q), input, hits) >= 2 * Pricing.MILLION
  {
    var price := Pricing.InputPrice(q);
    if Pricing.CacheIsCheaper(q) {
      Pricing.CheaperIsHarmless(q);
      assert false;
    } else if price == 0 {
      input, hits := 2 * Pricing.MILLION, 2 * Pricing.MILLION;
      Pricing.DearerIsHarmful(q);
    } else {
      input, hits :| hits <= input && Pricing.CeilPrice(input, price).Ok? && Pricing.Excess(price, Pricing.HitPrice(q), input, hits) >= 2 * Pricing.MILLION;
      Pricing.CeilPriceIsExact(input, price);
      Pricing.ProductMonotone(1, price, input);
    }
  }

  // ----- The period handoff, seen from the transaction --------------------

  /** While a period is active the `period` scope never refuses: a used-up period has already handed over. */
  lemma PeriodScopeNeverRefuses(l: Ledger, g: nat, lim: Limits, now: Time)
    requires PeriodActive(now, lim)
    ensures HandoffTime(l, g, lim, now).None? <==>
              && (lim.tokenPeriod <= 0 || Used(l, PeriodWindow(g, lim, now), Tokens) < lim.tokenPeriod)
              && (lim.amountPeriod <= 0 || Used(l, PeriodWindow(g, lim, now), Money) < lim.amountPeriod)
    ensures HandoffTime(l, g, lim, now).None? ==> PeriodOrWeekCheck(l, g, lim, now) == None
    ensures PeriodOrWeekCheck(l, g, lim, now).Some? ==>
              && PeriodOrWeekCheck(l, g, lim, now).value.QuotaExceeded?
              && PeriodOrWeekCheck(l, g, lim, now).value.window == Weekly
  {
    var w := PeriodWindow(g, lim, now);
    RowsTotal(l.keyRows, w, Tokens, l.nextKeyRow);
    RowsTotal(l.keyRows, w, Money, l.nextKeyRow);
    Period.HandoffIsFirstReach(Rows(l.keyRows, w, l.nextKeyRow), lim);
  }

  /** The handoff instant lies inside the period. */
  lemma HandoffInsidePeriod(l: Ledger, g: nat, lim: Limits, now: Time)
    requires PeriodActive(now, lim) && HandoffTime(l, g, lim, now).Some?
    ensures lim.periodStart.value <= HandoffTime(l, g, lim, now).value <= now
    ensures HandoffTime(l, g, lim, now).value < PeriodEnd(lim)
  {
    var list := Rows(l.keyRows, PeriodWindow(g, lim, now), l.nextKeyRow);
    Period.HandoffIsFirstReach(list, lim);
    var k := RowsAreRows(l.keyRows, PeriodWindow(g, lim, now), l.nextKeyRow, Period.Handoff(list, lim).value);
  }

  /** Nothing is lost or counted twice at the handoff: the period total is what came up to it plus the weekly sum after it. */
  lemma HandoffConserves(l: Ledger, g: nat, lim: Limits, now: Time, m: Measure)
    requires PeriodActive(now, lim) && HandoffTime(l, g, lim, now).Some?
    ensures var t := HandoffTime(l, g, lim, now).value;
            Used(l, PeriodWindow(g, lim, now), m)
            == Used(l, PeriodWindow(g, lim, now).(until := Some(t)), m) + Used(l, AfterHandoffWindow(g, t, now), m)
  {
    HandoffInsidePeriod(l, g, lim, now);
    var t := HandoffTime(l, g, lim, now).value;
    SharesSplit(l.keyRows, PeriodWindow(g, lim, now), PeriodWindow(g, lim, now).(until := Some(t)),
                AfterHandoffWindow(g, t, now), m, l.nextKeyRow);
  }

  /** A later admission, dated no earlier than any row, leaves the handoff where it is. */
  lemma AdmissionKeepsHandoff(l: Ledger, t: Ticket, g: nat, lim: Limits, now: Time, later: Time)
    requires PeriodActive(now, lim) && PeriodActive(later, lim) && now <= later
    requires HandoffTime(l, g, lim, now).Some?
    requires forall k :: k in l.keyRows ==> k < l.nextKeyRow && l.keyRows[k].created <= now
    ensures HandoffTime(Insert(l, t), g, lim, later) == HandoffTime(l, g, lim, now)
  {
    var w, w' := PeriodWindow(g, lim, now), PeriodWindow(g, lim, later);
    var l' := Insert(l, t);
    SameRows(l.keyRows, w, l'.keyRows, w', l.nextKeyRow);
    var list, list' := Rows(l.keyRows, w, l.nextKeyRow), Rows(l'.keyRows, w', l'.nextKeyRow);
    assert list <= list';
    Period.HandoffIsFirstReach(list, lim);
    Period.HandoffIgnoresLaterRows(list, list', lim);
  }

  lemma {:induction false} SameRows(rows: map<nat, KeyRow>, w: Window, rows': map<nat, KeyRow>, w': Window, n: nat)
    requires forall k: nat :: k < n ==> (k in rows && Includes(w, rows[k]) <==> k in rows' && Includes(w', rows'[k]))
    requires forall k: nat :: k < n && k in rows && Includes(w, rows[k]) ==> rows[k] == rows'[k]
    ensures Rows(rows, w, n) == Rows(rows', w', n)
  {
    if n > 0 {
      SameRows(rows, w, rows', w', n - 1);
    }
  }
}
