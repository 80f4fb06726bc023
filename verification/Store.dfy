/**
 * The imperative side of settlement: the store's transactions on its tables,
 * the retry loop, `Lease.Close` and the reconciler, each proved against the
 * ledger functions that the transition system uses.
 */
module Store {
  import opened Base
  import opened Ledger
  import opened Calendar
  import opened Windows
  import Period
  import opened Admission
  import opened Gates
  import opened Outcomes
  import opened Leases
  import System

  function Positive(ids: seq<int>): set<int> { set i | i in ids && i > 0 }

  /** Refuse once a positive limit is used up, tokens first. */
  method Overdraw(name: WindowName, tokens: nat, amount: nat, tokenLimit: int, amountLimit: int) returns (refusal: Option<Refusal>)
    ensures refusal.None? <==> !Overdrawn(tokens, tokenLimit) && !Overdrawn(amount, amountLimit)
    ensures refusal.Some? ==>
              refusal.value == if Overdrawn(tokens, tokenLimit) then QuotaExceeded(name, Tokens, tokens, tokenLimit)
                               else QuotaExceeded(name, Money, amount, amountLimit)
  {
    if tokenLimit > 0 && tokens >= tokenLimit {
      return Some(QuotaExceeded(name, Tokens, tokens, tokenLimit));
    }
    if amountLimit > 0 && amount >= amountLimit {
      return Some(QuotaExceeded(name, Money, amount, amountLimit));
    }
    return None;
  }

  /** The ids of both snapshots that can be reservations. */
  method Exclusions(activeIDs: seq<int>, pendingIDs: seq<int>) returns (excluded: set<int>)
    ensures excluded == Positive(activeIDs) + Positive(pendingIDs)
    ensures forall id :: id in excluded <==> id > 0 && (id in activeIDs || id in pendingIDs)
  {
    excluded := {};
    var i := 0;
    while i < |activeIDs|
      invariant 0 <= i <= |activeIDs|
      invariant excluded == Positive(activeIDs[..i])
    {
      if activeIDs[i] > 0 {
        excluded := excluded + {activeIDs[i]};
      }
      i := i + 1;
    }
    assert activeIDs[..i] == activeIDs;
    i := 0;
    while i < |pendingIDs|
      invariant 0 <= i <= |pendingIDs|
      invariant excluded == Positive(activeIDs) + Positive(pendingIDs[..i])
    {
      if pendingIDs[i] > 0 {
        excluded := excluded + {pendingIDs[i]};
      }
      i := i + 1;
    }
    assert pendingIDs[..i] == pendingIDs;
  }

  class Store {
    var requests: map<nat, RequestRow>
    var keyRows: map<nat, KeyRow>
    var nextRequest: nat
    var nextKeyRow: nat

    function View(): Ledger
      reads this
    {
      Ledger(requests, keyRows, nextRequest, nextKeyRow)
    }

    constructor ()
      ensures View() == EMPTY
    {
      requests, keyRows, nextRequest, nextKeyRow := map[], map[], 1, 1;
    }

    // ----- The queries of the reservation transaction, row by row

    method CountOpen(key: nat) returns (count: nat)
      ensures count == OpenBelow(keyRows, key, nextKeyRow)
    {
      count := 0;
      var k := 0;
      while k < nextKeyRow
        invariant 0 <= k <= nextKeyRow && count == OpenBelow(keyRows, key, k)
      {
        if k in keyRows && keyRows[k].key == key && keyRows[k].status == Reserved {
          count := count + 1;
        }
        k := k + 1;
      }
    }

    method CountDated(from: Time, until: Time) returns (count: nat)
      ensures count == DatedBelow(requests, from, until, nextRequest)
    {
      count := 0;
      var r := 0;
      while r < nextRequest
        invariant 0 <= r <= nextRequest && count == DatedBelow(requests, from, until, r)
      {
        if r in requests && from <= requests[r].created <= until {
          count := count + 1;
        }
        r := r + 1;
      }
    }

    method SumWindow(w: Window) returns (tokens: nat, amount: nat)
      ensures tokens == Used(View(), w, Tokens) && amount == Used(View(), w, Money)
    {
      tokens, amount := 0, 0;
      var k := 0;
      while k < nextKeyRow
        invariant 0 <= k <= nextKeyRow
        invariant tokens == UsedBelow(keyRows, w, Tokens, k) && amount == UsedBelow(keyRows, w, Money, k)
      {
        if k in keyRows && Includes(w, keyRows[k]) {
          tokens := tokens + keyRows[k].reservedTokens + keyRows[k].chargedTokens;
          amount := amount + keyRows[k].chargedAmount + keyRows[k].reservedAmount;
        }
        k := k + 1;
      }
    }

    method ListRows(w: Window) returns (list: seq<KeyRow>)
      ensures list == Rows(keyRows, w, nextKeyRow)
    {
      list := [];
      var k := 0;
      while k < nextKeyRow
        invariant 0 <= k <= nextKeyRow && list == Rows(keyRows, w, k)
      {
        if k in keyRows && Includes(w, keyRows[k]) {
          list := list + [keyRows[k]];
        }
        k := k + 1;
      }
    }

    method CheckWindow(name: WindowName, w: Window, tokenLimit: int, amountLimit: int) returns (refusal: Option<Refusal>)
      ensures refusal == Check(View(), name, w, tokenLimit, amountLimit)
    {
      var tokens, amount := SumWindow(w);
      refusal := Overdraw(name, tokens, amount, tokenLimit, amountLimit);
    }

    /** A running period is either used up and handed over to the weekly window, or checked itself. */
    method CheckPeriodOrWeek(g: nat, lim: Limits, now: Time) returns (refusal: Option<Refusal>)
      ensures refusal == PeriodOrWeekCheck(View(), g, lim, now)
    {
      var (weekStart, active) := WeeklyWindowStart(now, lim);
      if !active {
        refusal := CheckWindow(Weekly, WeeklyWindow(g, weekStart, now), lim.tokenWeekly, lim.amountWeekly);
        return;
      }
      var w := PeriodWindow(g, lim, now);
      var list := ListRows(w);
      RowsTotal(keyRows, w, Tokens, nextKeyRow);
      RowsTotal(keyRows, w, Money, nextKeyRow);
      var handoff, tokens, amount := Period.PeriodQuotaTransition(list, lim);
      if handoff.Some? {
        refusal := CheckWindow(Weekly, AfterHandoffWindow(g, handoff.value, now), lim.tokenWeekly, lim.amountWeekly);
      } else {
        refusal := Overdraw(Custom, tokens, amount, lim.tokenPeriod, lim.amountPeriod);
      }
    }

    method CheckQuotas(key: nat, p: Policy, now: Time) returns (refusal: Option<Refusal>)
      ensures var group := GroupCheck(View(), p.group, p.limits, now);
              refusal == if group.Some? then group else KeyCheck(View(), key, p)
    {
      refusal := CheckWindow(FiveHours, FiveHourWindow(p.group, now), p.limits.token5h, p.limits.amount5h);
      if refusal.Some? {
        return;
      }
      refusal := CheckWindow(Daily, DailyWindow(p.group, now), p.limits.tokenDaily, p.limits.amountDaily);
      if refusal.Some? {
        return;
      }
      refusal := CheckPeriodOrWeek(p.group, p.limits, now);
      if refusal.Some? {
        return;
      }
      refusal := CheckWindow(KeyTotal, KeyWindow(key),
                             if p.keyTokens.Some? then p.keyTokens.value else 0,
                             if p.keyAmount.Some? then p.keyAmount.value else 0);
    }

    /**
     * The transaction: counts, sums and the search for the handoff are loops over
     * the rows; the decision and the tables are those of `Decide` and `Reserve`.
     */
    method ReserveRequest(d: Demand, p: Policy) returns (decision: Decision)
      modifies this
      ensures decision == Decide(old(View()), d, p)
      ensures View() == Reserve(old(View()), d, p)
    {
      if d.token == "" || d.key == 0 || d.model == 0 || d.provider == 0 {
        return Refused(BadRequest);
      }
      if d.output <= 0 || d.input + d.output > MAX_INT64 || p.rpm <= 0 {
        return Refused(BadRequest);
      }
      if !p.enabled {
        return Refused(KeyDisabled);
      }
      var open := CountOpen(d.key);
      if open >= p.concurrency {
        return Refused(ConcurrencyExceeded);
      }
      if p.group == 0 || p.quote.None? {
        return Refused(NotAuthorized);
      }
      var amount := AmountFor(p.quote.value, d.input, d.output);
      if !amount.Ok? {
        return Refused(PriceOverflow);
      }
      var recent := CountDated(d.created - 60 * SECOND, d.created);
      if recent >= p.rpm {
        return Refused(RpmExceeded);
      }
      var refusal := CheckQuotas(d.key, p, d.created);
      if refusal.Some? {
        return Refused(refusal.value);
      }
      if !TokenFree(View(), d.token) {
        return Refused(TokenTaken);
      }
      AmountIsAccepted(p.quote.value, d.input, d.output);
      var t := Ticket(d.token, d.key, d.model, d.provider, p.group, d.created, DayOf(d.created), d.input, d.input + d.output, amount.value);
      InsertPair(t);
      return Admitted(t);
    }

    method InsertPair(t: Ticket)
      modifies this
      ensures View() == Insert(old(View()), t)
    {
      requests := requests[nextRequest :=
        RequestRow(t.token, Some(t.key), Some(t.model), Some(t.provider), t.group, t.created, t.day,
                   Reserved, t.tokens, 0, Usage(t.input, 0, 0, t.amount), NO_NOTES, None)];
      keyRows := keyRows[nextKeyRow :=
        KeyRow(t.token, t.key, t.model, t.group, t.created, t.day, Reserved, t.tokens, t.amount, 0, 0, None)];
      nextRequest := nextRequest + 1;
      nextKeyRow := nextKeyRow + 1;
    }

    method FinishReservation(id: int, settlement: Settlement, now: Time) returns (result: SettleResult)
      modifies this
      ensures (View(), result) == Finish(old(View()), id, settlement, now)
    {
      if !ValidSettlement(id, settlement) {
        return Invalid;
      }
      var s := Normalized(settlement);
      if id !in requests {
        return NotFound;
      }
      var row := requests[id];
      if row.status != Reserved {
        if SameOutcome(row, s) {
          return AlreadySettled;
        }
        return Conflict;
      }
      var n := nextKeyRow;
      while n > 0 && !(n - 1 in keyRows && keyRows[n - 1].token == row.token && keyRows[n - 1].status == Reserved)
        invariant 0 <= n <= nextKeyRow
        invariant NewestReserved(keyRows, row.token, nextKeyRow) == NewestReserved(keyRows, row.token, n)
      {
        n := n - 1;
      }
      if n == 0 {
        return NotFound;
      }
      keyRows := keyRows[n - 1 := SettledKeyRow(keyRows[n - 1], s, now)];
      requests := requests[id := SettledRequest(row, s, now)];
      return Settled;
    }

    /** The exclusion list is built from both snapshots; ids that are not positive never were reservations. Without a cutoff nothing is done. */
    method ReapOrphanReservations(limit: Option<Time>, activeIDs: seq<int>, pendingIDs: seq<int>, now: Time) returns (reaped: Option<nat>)
      modifies this
      ensures limit.None? ==> reaped.None? && View() == old(View())
      ensures limit.Some? ==>
                var excluded := Positive(activeIDs) + Positive(pendingIDs);
                && View() == Reap(old(View()), limit.value, excluded, now)
                && reaped == Some(|set k | k in old(keyRows) && DueKeyRow(old(View()), k, limit.value, excluded)|)
    {
      if limit.None? {
        return None;
      }
      var cutoff := limit.value;
      var excluded := Exclusions(activeIDs, pendingIDs);
      var before := View();
      reaped := Some(|set k | k in keyRows && DueKeyRow(before, k, cutoff, excluded)|);
      keyRows := map k | k in before.keyRows ::
        if DueKeyRow(before, k, cutoff, excluded) then AbortedKeyRow(before.keyRows[k], now) else before.keyRows[k];
      requests := map r | r in before.requests ::
        if DueRequest(before, r, cutoff, excluded) then AbortedRequest(before.requests[r], now) else before.requests[r];
    }
  }

  // ----- settleWithRetry -------------------------------------------------------

  /** Submitting the same outcome again changes nothing and is confirmed. */
  lemma FinishIsIdempotent(l: Ledger, id: int, s: Settlement, now: Time, later: Time)
    requires Finish(l, id, s, now).1 == Settled || Finish(l, id, s, now).1 == AlreadySettled
    ensures Finish(Finish(l, id, s, now).0, id, s, later) == (Finish(l, id, s, now).0, AlreadySettled)
  {
  }

  /** A different outcome for a final row is refused, and changes nothing. */
  lemma FinishDetectsConflict(l: Ledger, id: int, s: Settlement, other: Settlement, now: Time, later: Time)
    requires Finish(l, id, s, now).1 == Settled && ValidSettlement(id, other)
    ensures var l' := Finish(l, id, s, now).0;
            Finish(l', id, other, later) == (l', if Normalized(other) == Normalized(s) then AlreadySettled else Conflict)
  {
  }

  /**
   * Why a later Close must not bring a trace: once the first submission is on
   * record, a second one is confirmed exactly when its trace adds nothing.
   */
  lemma TracedRetryConflicts(l: Ledger, id: int, s: Settlement, own: string, trace: Option<Trace>, retry: Option<Trace>, now: Time, later: Time)
    requires Finish(l, id, Enrich(s, own, trace), now).1 == Settled
    requires ValidSettlement(id, Enrich(Enrich(s, own, trace), own, retry))
    ensures var kept := Enrich(s, own, trace);
            Finish(Finish(l, id, kept, now).0, id, Enrich(kept, own, retry), later).1 ==
            if retry.None? || AddsNothing(kept, retry.value) then AlreadySettled else Conflict
  {
    var kept := Enrich(s, own, trace);
    var again := Enrich(kept, own, retry);
    RetrySubmitsTheSame(s, own, trace, retry);
    FinishDetectsConflict(l, id, kept, again, now, later);
    assert again.usageSource == kept.usageSource && again.protocol == kept.protocol;
    assert Normalized(again) == Normalized(kept) <==> again == kept by {
      assert Normalized(again).(usageSource := kept.usageSource, protocol := kept.protocol) == again;
      assert Normalized(kept).(usageSource := kept.usageSource, protocol := kept.protocol) == kept;
    }
  }

  /** The answers that end a settlement well. */
  predicate Accepts(result: SettleResult) { result.Settled? || result.AlreadySettled? }

  /** The answer was lost to an error worth another attempt. */
  predicate LosesRetryably(fault: System.Fault) { !fault.NoFault? && fault.retryable }

  /** Attempt `j` is made: every one before it was lost to such an error, and a wait does not outlast the deadline. */
  predicate Tries(faults: seq<System.Fault>, expires: nat, j: nat)
    requires |faults| == 3
  {
    j < 3 && (j > 0 ==> j < expires) && forall i :: 0 <= i < j ==> LosesRetryably(faults[i])
  }

  /** Some attempt gets its answer back ... */
  ghost predicate Answered(faults: seq<System.Fault>, expires: nat)
    requires |faults| == 3
  {
    exists j: nat :: Tries(faults, expires, j) && faults[j].NoFault?
  }

  /** ... or at least reaches the tables. */
  ghost predicate Arrives(faults: seq<System.Fault>, expires: nat)
    requires |faults| == 3
  {
    exists j: nat :: Tries(faults, expires, j) && !faults[j].LostBefore?
  }

  /**
   * Exactly the attempts that are to be made are made. The settlement is in the
   * tables if one of them arrives, and it is confirmed if and only if the store
   * accepts it and one of them is answered.
   */
  method SettleWithRetry(store: Store, id: int, s: Settlement, faults: seq<System.Fault>, expires: nat, now: Time)
    returns (confirmed: bool, attempts: nat)
    requires |faults| == 3
    modifies store
    ensures forall j: nat :: Tries(faults, expires, j) <==> j < attempts
    ensures store.View() == if Arrives(faults, expires) then Finish(old(store.View()), id, s, now).0 else old(store.View())
    ensures confirmed <==> Accepts(Finish(old(store.View()), id, s, now).1) && Answered(faults, expires)
  {
    ghost var before := store.View();
    attempts := 0;
    while attempts < 3
      invariant 0 <= attempts <= 3
      invariant attempts > 0 ==> attempts - 1 < expires || attempts == 1
      invariant forall i :: 0 <= i < attempts ==> LosesRetryably(faults[i])
      invariant store.View() == before || store.View() == Finish(before, id, s, now).0
      invariant (exists i :: 0 <= i < attempts && !faults[i].LostBefore?) ==> store.View() == Finish(before, id, s, now).0
      invariant (forall i :: 0 <= i < attempts ==> faults[i].LostBefore?) ==> store.View() == before
    {
      if attempts > 0 && attempts >= expires {
        return false, attempts;
      }
      var fault := faults[attempts];
      assert Tries(faults, expires, attempts);
      attempts := attempts + 1;
      if !fault.LostBefore? {
        FinishAgain(before, id, s, now);
        var result := store.FinishReservation(id, s, now);
        if fault.NoFault? {
          return Accepts(result), attempts;
        }
      }
      if !fault.retryable {
        return false, attempts;
      }
    }
    return false, attempts;
  }

  /** A second submission finds the tables as the first left them, and is accepted exactly if that one was. */
  lemma FinishAgain(l: Ledger, id: int, s: Settlement, now: Time)
    ensures var (l', result) := Finish(l, id, s, now);
            Finish(l', id, s, now).0 == l' && (Accepts(Finish(l', id, s, now).1) <==> Accepts(result))
  {
    if Finish(l, id, s, now).1.Settled? {
      FinishIsIdempotent(l, id, s, now, now);
    }
  }

  /** What one attempt of the transition system does to the request and to the tables. */
  ghost predicate Attempted(s: System.State, f: nat, faults: seq<System.Fault>, expires: nat, n: nat, after: System.State)
    requires |faults| == 3 && n < 3 && System.At(s, f) && s.flights[f].frozen.Some?
  {
    var (l', result) := System.FinishNow(s, f);
    && System.At(after, f) && after.flights[f].frozen == s.flights[f].frozen && after.flights[f].id == s.flights[f].id
    && after.world.now == s.world.now
    && after.world.l == (if faults[n].LostBefore? then s.world.l else l')
    && after.flights[f].pc == if faults[n].NoFault? then (if Accepts(result) then System.Confirmed else System.AddingPending)
                              else if Tries(faults, expires, n + 1) then System.Closing(n + 1) else System.AddingPending
  }

  /** One attempt of a request that is closing. */
  ghost function Attempt(s: System.State, f: nat, fault: System.Fault, expired: bool): System.State
    requires System.At(s, f)
  {
    if s.flights[f].pc.Closing? && s.flights[f].frozen.Some?
    then System.SettleStep(s, f, fault, expired, System.FinishNow(s, f).0, System.FinishNow(s, f).1)
    else s
  }

  lemma AttemptIsSettling(c: System.Config, s: System.State, f: nat, fault: System.Fault, expired: bool)
    requires System.At(s, f)
    ensures var a := System.Settling(f, fault, expired);
            Attempt(s, f, fault, expired) == if System.Enabled(c, s, a) then System.Next(c, s, a) else s
  {
  }

  /** It makes the decision of the loop. */
  lemma AttemptDecides(s: System.State, f: nat, faults: seq<System.Fault>, expires: nat, n: nat)
    requires |faults| == 3 && System.At(s, f) && s.flights[f].frozen.Some? && s.flights[f].pc == System.Closing(n)
    requires Tries(faults, expires, n)
    ensures Attempted(s, f, faults, expires, n, Attempt(s, f, faults[n], n + 1 >= expires))
  {
  }

  /** All attempts of a closing request, one after another. */
  ghost function Attempts(s: System.State, f: nat, faults: seq<System.Fault>, expires: nat, n: nat): (after: System.State)
    requires |faults| == 3 && n <= 3 && System.At(s, f)
    ensures System.At(after, f)
  {
    if n == 0 then s else Attempt(Attempts(s, f, faults, expires, n - 1), f, faults[n - 1], n >= expires)
  }

  /** Where the request stands after `n` of them, if its first attempt would leave tables `l'` and answer `result`. */
  ghost predicate SoFar(s: System.State, f: nat, l': Ledger, result: SettleResult, faults: seq<System.Fault>, expires: nat, n: nat, after: System.State)
    requires |faults| == 3 && n <= 3 && System.At(s, f)
  {
    && System.At(after, f) && after.flights[f].frozen == s.flights[f].frozen && after.flights[f].id == s.flights[f].id
    && after.world.now == s.world.now
    && (after.world.l == if exists j: nat :: j < n && Tries(faults, expires, j) && !faults[j].LostBefore? then l' else s.world.l)
    && after.flights[f].pc == if Accepts(result) && exists j: nat :: j < n && Tries(faults, expires, j) && faults[j].NoFault? then System.Confirmed
                              else if Tries(faults, expires, n) then System.Closing(n)
                              else System.AddingPending
  }

  lemma AttemptGoesOn(s: System.State, f: nat, faults: seq<System.Fault>, expires: nat, n: nat, before: System.State, after: System.State)
    requires |faults| == 3 && n < 3 && System.At(s, f) && System.At(before, f) && s.flights[f].frozen.Some?
    requires SoFar(s, f, System.FinishNow(s, f).0, System.FinishNow(s, f).1, faults, expires, n, before)
    requires if before.flights[f].pc == System.Closing(n) then Attempted(before, f, faults, expires, n, after) else after == before
    ensures SoFar(s, f, System.FinishNow(s, f).0, System.FinishNow(s, f).1, faults, expires, n + 1, after)
  {
    FinishAgain(s.world.l, s.flights[f].id, s.flights[f].frozen.value, s.world.now);
  }

  lemma AttemptIsMade(s: System.State, f: nat, faults: seq<System.Fault>, expires: nat, n: nat, before: System.State)
    requires |faults| == 3 && n < 3 && System.At(s, f) && System.At(before, f) && s.flights[f].frozen.Some?
    requires SoFar(s, f, System.FinishNow(s, f).0, System.FinishNow(s, f).1, faults, expires, n, before)
    ensures SoFar(s, f, System.FinishNow(s, f).0, System.FinishNow(s, f).1, faults, expires, n + 1, Attempt(before, f, faults[n], n + 1 >= expires))
  {
    if before.flights[f].pc == System.Closing(n) {
      AttemptDecides(before, f, faults, expires, n);
    }
    AttemptGoesOn(s, f, faults, expires, n, before, Attempt(before, f, faults[n], n + 1 >= expires));
  }

  lemma AttemptsSoFar(s: System.State, f: nat, faults: seq<System.Fault>, expires: nat, n: nat)
    requires |faults| == 3 && n <= 3 && System.At(s, f) && s.flights[f].pc == System.Closing(0) && s.flights[f].frozen.Some?
    ensures SoFar(s, f, System.FinishNow(s, f).0, System.FinishNow(s, f).1, faults, expires, n, Attempts(s, f, faults, expires, n))
  {
    if n > 0 {
      AttemptsSoFar(s, f, faults, expires, n - 1);
      AttemptIsMade(s, f, faults, expires, n - 1, Attempts(s, f, faults, expires, n - 1));
    }
  }

  /**
   * The transition system decides as the loop does: its attempts end confirmed
   * if and only if the outcome is accepted and one of them is answered, pending
   * otherwise, and with the same tables.
   */
  lemma AttemptsFollowTheLoop(s: System.State, f: nat, faults: seq<System.Fault>, expires: nat)
    requires |faults| == 3 && System.At(s, f) && s.flights[f].pc == System.Closing(0) && s.flights[f].frozen.Some?
    ensures var after, (l', result) := Attempts(s, f, faults, expires, 3), System.FinishNow(s, f);
            && System.At(after, f)
            && after.world.l == (if Arrives(faults, expires) then l' else s.world.l)
            && after.flights[f].pc == if Accepts(result) && Answered(faults, expires) then System.Confirmed else System.AddingPending
  {
    AttemptsSoFar(s, f, faults, expires, 3);
  }

  // ----- Lease.Close -----------------------------------------------------------

  class Service {
    const store: Store
    var global: GateState
    var keys: Registry
    var active: set<int>
    var pending: map<nat, Lease>

    constructor (store: Store, limit: int)
      ensures this.store == store && global == Fresh(limit) && keys == NO_GATES && active == {} && pending == map[]
    {
      this.store, global, keys, active, pending := store, Fresh(limit), NO_GATES, {}, map[];
    }

    /** `Add` and `Remove` of the reconciler. */
    method AddPending(lease: Lease)
      modifies this`pending
      ensures pending == old(pending)[lease.id := lease]
    {
      pending := pending[lease.id := lease];
    }

    method RemovePending(id: nat)
      modifies this`pending
      ensures pending == old(pending) - {id}
    {
      pending := pending - {id};
    }
  }

  class Lease {
    const service: Service
    const id: nat
    const key: nat
    const clientRequest: string
    var frozen: Option<Settlement>
    var settled: bool

    /** What this call submits to the store. */
    function Submission(outcome: Outcome, trace: Option<Trace>): Settlement
      reads this
    {
      Enrich(if frozen.Some? then frozen.value else Freeze(outcome), clientRequest, trace)
    }

    constructor (service: Service, id: nat, key: nat, clientRequest: string)
      ensures this.service == service && this.id == id && this.key == key && this.clientRequest == clientRequest
      ensures frozen == None && !settled
    {
      this.service, this.id, this.key, this.clientRequest := service, id, key, clientRequest;
      frozen, settled := None, false;
    }

    /**
     * A settled lease is left alone. Otherwise the outcome is frozen and the
     * store is asked. If it accepts the outcome and one attempt is answered, the
     * lease is settled, off both lists, and its two slots are given back; if
     * not, it is pending, off the active list, and keeps its slots.
     */
    method Close(outcome: Outcome, trace: Option<Trace>, faults: seq<System.Fault>, expires: nat, now: Time) returns (ok: bool)
      requires |faults| == 3
      requires key in service.keys.gates ==> service.keys.gates[key] in service.keys.entries
      modifies this, service, service.store
      ensures old(settled) ==> ok && unchanged(this) && unchanged(service) && unchanged(service.store)
      ensures !old(settled) ==> frozen == Some(old(Submission(outcome, trace))) && settled == ok
      ensures !old(settled) ==>
                && (ok <==> Accepts(Finish(old(service.store.View()), id, old(Submission(outcome, trace)), now).1) && Answered(faults, expires))
                && service.store.View() == if Arrives(faults, expires) then Finish(old(service.store.View()), id, old(Submission(outcome, trace)), now).0
                                           else old(service.store.View())
      ensures !old(settled) && ok ==>
                && service.pending == old(service.pending) - {id} && service.active == old(service.active) - {id}
                && service.keys == Release(old(service.keys), key) && service.global == Free(old(service.global))
      ensures !old(settled) && !ok ==>
                && service.pending == old(service.pending)[id := this] && service.active == old(service.active) - {id}
                && service.keys == old(service.keys) && service.global == old(service.global)
    {
      if settled {
        return true;
      }
      var submission := Submission(outcome, trace);
      frozen := Some(submission);
      var attempts;
      ok, attempts := SettleWithRetry(service.store, id, submission, faults, expires, now);
      if !ok {
        service.AddPending(this);
        service.active := service.active - {id};
        return;
      }
      settled := true;
      service.RemovePending(id);
      service.active := service.active - {id};
      service.keys := Release(service.keys, key);
      service.global := Free(service.global);
    }
  }

  // ----- The reconciler: `pending` of the service ---------------------------------

  predicate KeysLinked(reg: Registry) { forall k :: k in reg.gates ==> reg.gates[k] in reg.entries }

  /** A lease as the reconciler holds it: frozen, not settled, and with nothing left to fill in. */
  ghost predicate Waits(lease: Lease, service: Service, id: nat, s: Settlement)
    reads lease
  {
    lease.id == id && lease.service == service && lease.frozen == Some(s) && !lease.settled && Enrich(s, lease.clientRequest, None) == s
  }

  lemma ReleaseLinks(reg: Registry, key: nat)
    requires KeysLinked(reg)
    ensures KeysLinked(Release(reg, key))
  {
  }

  /** The slots of these keys given back one after another. */
  function ReleaseAll(reg: Registry, keys: seq<nat>): (r: Registry)
    requires KeysLinked(reg)
    ensures KeysLinked(r)
  {
    if keys == [] then reg
    else
      var before := ReleaseAll(reg, keys[..|keys| - 1]);
      ReleaseLinks(before, keys[|keys| - 1]);
      Release(before, keys[|keys| - 1])
  }

  lemma ReleasedNext(reg: Registry, keys: seq<nat>, key: nat)
    requires KeysLinked(reg)
    ensures ReleaseAll(reg, keys + [key]) == Release(ReleaseAll(reg, keys), key)
  {
    assert (keys + [key])[..|keys|] == keys;
  }

  function FreeTimes(g: GateState, n: nat): GateState { if n == 0 then g else Free(FreeTimes(g, n - 1)) }

  /** A closed lease is settled by another attempt exactly if the store accepts its outcome and answers. */
  ghost predicate WillSettle(l: Ledger, id: nat, s: Settlement, faults: seq<System.Fault>, now: Time)
    requires |faults| == 3
  {
    Accepts(Finish(l, id, s, now).1) && Answered(faults, 3)
  }

  /** No two request rows share a token; the schema demands it. */
  predicate TokensApart(rows: map<nat, RequestRow>) {
    forall r, r' :: r in rows && r' in rows && rows[r].token == rows[r'].token ==> r == r'
  }

  lemma {:induction false} OthersAreNotTouched(rows: map<nat, KeyRow>, rows': map<nat, KeyRow>, token: string, n: nat)
    requires forall k: nat :: k < n ==> (k in rows && rows[k].token == token <==> k in rows' && rows'[k].token == token)
    requires forall k: nat :: k < n && k in rows && rows[k].token == token ==> rows'[k] == rows[k]
    ensures NewestReserved(rows', token, n) == NewestReserved(rows, token, n)
  {
    if n > 0 {
      OthersAreNotTouched(rows, rows', token, n - 1);
    }
  }

  /** Settling one request leaves open what the store says to another. */
  lemma SettlingsAreIndependent(l: Ledger, id: nat, s: Settlement, other: nat, s': Settlement, now: Time)
    requires TokensApart(l.requests) && other != id
    ensures var l' := Finish(l, id, s, now).0;
            TokensApart(l'.requests) && Finish(l', other, s', now).1 == Finish(l, other, s', now).1
  {
    var l' := Finish(l, id, s, now).0;
    if Finish(l, id, s, now).1.Settled? && other in l.requests {
      OthersAreNotTouched(l.keyRows, l'.keyRows, l.requests[other].token, l.nextKeyRow);
    }
  }

  /** The leases that a pass over these outcomes settles. */
  ghost function Willing(l: Ledger, outcomes: map<nat, Settlement>, faults: nat -> seq<System.Fault>, now: Time): set<nat>
    requires forall id :: |faults(id)| == 3
  {
    set id | id in outcomes && WillSettle(l, id, outcomes[id], faults(id), now)
  }

  /** What the store will say to the leases still to be visited is known. */
  ghost predicate Foreseen(l: Ledger, outcomes: map<nat, Settlement>, willing: set<nat>, todo: set<nat>, faults: nat -> seq<System.Fault>, now: Time)
    requires forall id :: |faults(id)| == 3
  {
    TokensApart(l.requests) && todo <= outcomes.Keys && forall id {:trigger WillSettle(l, id, outcomes[id], faults(id), now)} :: id in todo ==> (id in willing <==> WillSettle(l, id, outcomes[id], faults(id), now))
  }

  /** Of the leases visited the willing ones are gone. */
  ghost predicate Visited(all: set<nat>, willing: set<nat>, todo: set<nat>, held: set<nat>) {
    held == all - (willing - todo)
  }

  lemma VisitedNext(all: set<nat>, willing: set<nat>, todo: set<nat>, held: set<nat>, id: nat, held': set<nat>)
    requires Visited(all, willing, todo, held) && id in todo && held' == if id in willing then held - {id} else held
    ensures Visited(all, willing, todo - {id}, held')
  {
  }

  ghost predicate OnCourse(l: Ledger, outcomes: map<nat, Settlement>, willing: set<nat>, todo: set<nat>, held: set<nat>, faults: nat -> seq<System.Fault>, now: Time)
    requires forall id :: |faults(id)| == 3
  {
    Foreseen(l, outcomes, willing, todo, faults, now) && Visited(outcomes.Keys, willing, todo, held)
  }

  lemma Foresee(l: Ledger, outcomes: map<nat, Settlement>, faults: nat -> seq<System.Fault>, now: Time)
    requires (forall id :: |faults(id)| == 3) && TokensApart(l.requests)
    ensures OnCourse(l, outcomes, Willing(l, outcomes, faults, now), outcomes.Keys, outcomes.Keys, faults, now)
  {
  }

  lemma ForeseenStep(l: Ledger, l': Ledger, outcomes: map<nat, Settlement>, willing: set<nat>, todo: set<nat>, faults: nat -> seq<System.Fault>, id: nat, now: Time)
    requires forall id :: |faults(id)| == 3
    requires Foreseen(l, outcomes, willing, todo, faults, now) && id in todo
    requires l' == l || l' == Finish(l, id, outcomes[id], now).0
    ensures Foreseen(l', outcomes, willing, todo - {id}, faults, now)
  {
    SettlingsAreIndependent(l, id, outcomes[id], id + 1, outcomes[id], now);
    forall other | other in todo - {id}
      ensures other in willing <==> WillSettle(l', other, outcomes[other], faults(other), now)
    {
      SettlingsAreIndependent(l, id, outcomes[id], other, outcomes[other], now);
      assert WillSettle(l, other, outcomes[other], faults(other), now) == WillSettle(l', other, outcomes[other], faults(other), now);
    }
  }

  lemma VisitedMeans(all: set<nat>, willing: set<nat>, todo: set<nat>, held: set<nat>)
    requires Visited(all, willing, todo, held)
    ensures all - willing <= held && (todo == {} ==> held == all - willing)
  {
  }

  /** `Close` with a blank outcome and no trace: the frozen outcome is submitted, and its row alone may change. */
  method CloseAgain(lease: Lease, faults: seq<System.Fault>, now: Time) returns (ok: bool)
    requires |faults| == 3 && KeysLinked(lease.service.keys)
    requires lease.frozen.Some? && Waits(lease, lease.service, lease.id, lease.frozen.value)
    modifies lease, lease.service, lease.service.store
    ensures lease.frozen == old(lease.frozen) && lease.settled == ok
    ensures KeysLinked(lease.service.keys)
    ensures lease.service.keys == if ok then Release(old(lease.service.keys), lease.key) else old(lease.service.keys)
    ensures lease.service.pending == if ok then old(lease.service.pending) - {lease.id} else old(lease.service.pending)[lease.id := lease]
    ensures lease.service.active == old(lease.service.active) - {lease.id}
    ensures lease.service.global == if ok then Free(old(lease.service.global)) else old(lease.service.global)
    ensures ok <==> WillSettle(old(lease.service.store.View()), lease.id, lease.frozen.value, faults, now)
    ensures lease.service.store.View() == if Arrives(faults, 3) then Finish(old(lease.service.store.View()), lease.id, lease.frozen.value, now).0
                                          else old(lease.service.store.View())
    ensures ok ==> RecordedIn(lease.service.store.requests, lease.id, lease.frozen.value)
    ensures KeptOutside(old(lease.service.store.requests), lease.service.store.requests, {lease.id})
  {
    FinishTouchesOneRow(lease.service.store.View(), lease.id, lease.frozen.value, now);
    ReleaseLinks(lease.service.keys, lease.key);
    ok := lease.Close(BLANK, None, faults, 3, now);
  }

  /** In the middle of a pass over `snapshot`: what is still pending waits as it did, the rest is settled. */
  ghost predicate InPass(service: Service, snapshot: map<nat, Lease>, outcomes: map<nat, Settlement>, leases: set<Lease>)
    reads service, leases
  {
    && (forall id :: id in snapshot ==> snapshot[id] in leases)
    && service.pending.Keys <= snapshot.Keys && snapshot.Keys == outcomes.Keys && KeysLinked(service.keys)
    && (forall id :: id in service.pending ==> service.pending[id] == snapshot[id])
    && (forall id :: id in snapshot ==> snapshot[id].id == id && snapshot[id].service == service)
    && (forall id :: id in snapshot ==>
          if id in service.pending then Waits(snapshot[id], service, id, outcomes[id]) else snapshot[id].settled)
  }

  /** One lease of the pass. */
  method RetryLease(service: Service, ghost snapshot: map<nat, Lease>, ghost outcomes: map<nat, Settlement>, ghost leases: set<Lease>,
                    lease: Lease, faults: seq<System.Fault>, now: Time) returns (ok: bool)
    requires |faults| == 3 && InPass(service, snapshot, outcomes, leases) && lease.id in service.pending && service.pending[lease.id] == lease
    modifies service, service.store, lease
    ensures InPass(service, snapshot, outcomes, leases)
    ensures service.pending == if ok then old(service.pending) - {lease.id} else old(service.pending)
    ensures service.global == if ok then Free(old(service.global)) else old(service.global)
    ensures service.keys == if ok then Release(old(service.keys), lease.key) else old(service.keys)
    ensures ok <==> WillSettle(old(service.store.View()), lease.id, outcomes[lease.id], faults, now)
    ensures service.store.View() == old(service.store.View())
            || service.store.View() == Finish(old(service.store.View()), lease.id, outcomes[lease.id], now).0
    ensures ok ==> RecordedIn(service.store.requests, lease.id, outcomes[lease.id])
    ensures KeptOutside(old(service.store.requests), service.store.requests, {lease.id})
  {
    ok := CloseAgain(lease, faults, now);
    assert !ok ==> old(service.pending)[lease.id := lease] == old(service.pending);
  }

  lemma OneLess(m: map<nat, Lease>, id: nat)
    requires id in m
    ensures |m - {id}| == |m| - 1 && (m - {id}).Keys == m.Keys - {id}
  {
    assert (m - {id}).Keys == m.Keys - {id};
  }

  lemma OneFewer(ids: set<nat>, rest: set<nat>, held: set<nat>, held': set<nat>, id: nat)
    requires id in ids && rest == ids - {id} && ids <= held && (held' == held || held' == held - {id})
    ensures |rest| == |ids| - 1 && rest <= held'
  {
  }

  /** The gates after the slots of these keys were given back, with one global slot each. */
  datatype BothGates = BothGates(global: GateState, keys: Registry)

  ghost predicate GivenBack(before: BothGates, global: GateState, keys: Registry, released: seq<nat>) {
    KeysLinked(before.keys) && global == FreeTimes(before.global, |released|) && keys == ReleaseAll(before.keys, released)
  }

  lemma GivesBackNext(before: BothGates, global: GateState, keys: Registry, released: seq<nat>, key: nat)
    requires GivenBack(before, global, keys, released)
    ensures KeysLinked(keys) && GivenBack(before, Free(global), Release(keys, key), released + [key])
  {
    ReleasedNext(before.keys, released, key);
  }

  /** The same, with what the pass has recorded and given back; `start` are the request rows before the pass, `todo` what it still visits. */
  method RetryOne(service: Service, ghost snapshot: map<nat, Lease>, ghost outcomes: map<nat, Settlement>, ghost leases: set<Lease>,
                  ghost start: map<nat, RequestRow>, ghost apart: bool, ghost willing: set<nat>, ghost todo: set<nat>,
                  ghost gates: BothGates, ghost released: seq<nat>, lease: Lease, faults: nat -> seq<System.Fault>, now: Time) returns (ok: bool, ghost released': seq<nat>)
    requires InPass(service, snapshot, outcomes, leases) && lease.id in service.pending && service.pending[lease.id] == lease
    requires Reconciled(outcomes, service.pending.Keys, start, service.store.requests)
    requires forall id :: |faults(id)| == 3
    requires lease.id in todo && todo <= service.pending.Keys
    requires apart ==> OnCourse(service.store.View(), outcomes, willing, todo, service.pending.Keys, faults, now)
    requires GivenBack(gates, service.global, service.keys, released)
    modifies service, service.store, lease
    ensures InPass(service, snapshot, outcomes, leases)
    ensures Reconciled(outcomes, service.pending.Keys, start, service.store.requests)
    ensures apart ==> OnCourse(service.store.View(), outcomes, willing, todo - {lease.id}, service.pending.Keys, faults, now)
    ensures GivenBack(gates, service.global, service.keys, released') && |released'| == |released| + if ok then 1 else 0
    ensures todo - {lease.id} <= service.pending.Keys && |todo - {lease.id}| == |todo| - 1
    ensures |service.pending| == |old(service.pending)| - if ok then 1 else 0
  {
    ghost var held, l := service.pending.Keys, service.store.View();
    OneLess(service.pending, lease.id);
    GivesBackNext(gates, service.global, service.keys, released, lease.key);
    ok := RetryLease(service, snapshot, outcomes, leases, lease, faults(lease.id), now);
    ReconciledStep(outcomes, held, service.pending.Keys, start, l.requests, service.store.requests, lease.id);
    if apart {
      ForeseenStep(l, service.store.View(), outcomes, willing, todo, faults, lease.id, now);
      VisitedNext(outcomes.Keys, willing, todo, held, lease.id, service.pending.Keys);
    }
    OneFewer(todo, todo - {lease.id}, held, service.pending.Keys, lease.id);
    released' := if ok then released + [lease.key] else released;
  }

  /** The loop of a pass over the snapshot; `left` is what it did not come to. */
  method VisitAll(service: Service, snapshot: map<nat, Lease>, ghost outcomes: map<nat, Settlement>, ghost leases: set<Lease>,
                  ghost apart: bool, ghost willing: set<nat>, faults: nat -> seq<System.Fault>, budget: nat, now: Time)
    returns (settled: nat, clean: bool, ghost released: seq<nat>, ghost left: set<nat>)
    requires forall id :: |faults(id)| == 3
    requires snapshot == service.pending && InPass(service, snapshot, outcomes, leases)
    requires apart ==> OnCourse(service.store.View(), outcomes, willing, snapshot.Keys, snapshot.Keys, faults, now)
    modifies service, service.store, leases
    ensures InPass(service, snapshot, outcomes, leases)
    ensures Reconciled(outcomes, service.pending.Keys, old(service.store.requests), service.store.requests)
    ensures settled + |service.pending| == |snapshot|
    ensures clean <==> service.pending == map[]
    ensures |released| == settled && GivenBack(BothGates(old(service.global), old(service.keys)), service.global, service.keys, released)
    ensures apart ==> OnCourse(service.store.View(), outcomes, willing, left, service.pending.Keys, faults, now)
    ensures budget >= |snapshot| ==> left == {}
  {
    var todo := snapshot.Keys;
    var failed := 0;
    settled, released := 0, [];
    ghost var start, gates := service.store.requests, BothGates(service.global, service.keys);
    while todo != {}
      invariant InPass(service, snapshot, outcomes, leases) && todo <= service.pending.Keys
      invariant Reconciled(outcomes, service.pending.Keys, start, service.store.requests)
      invariant apart ==> OnCourse(service.store.View(), outcomes, willing, todo, service.pending.Keys, faults, now)
      invariant settled + failed + |todo| == |snapshot| && settled + |service.pending| == |snapshot|
      invariant |released| == settled && GivenBack(gates, service.global, service.keys, released)
      decreases todo
    {
      if settled + failed >= budget {
        return settled, false, released, todo;
      }
      var id :| id in todo;
      var ok;
      ok, released := RetryOne(service, snapshot, outcomes, leases, start, apart, willing, todo, gates, released, snapshot[id], faults, now);
      todo := todo - {id};
      if ok {
        settled := settled + 1;
      } else {
        failed := failed + 1;
      }
    }
    return settled, failed == 0, released, todo;
  }

  /**
   * One pass over a snapshot of the pending leases, in any order, stopping early
   * when cancelled. A lease leaves the list only settled, with its outcome on
   * record and its slots given back; the others wait as before, with their
   * slots; rows of other requests are not touched; and a pass without an error
   * has emptied the list. A pass that is not cut short leaves exactly the leases
   * whose outcome the store refuses or does not answer.
   */
  method RunOnce(service: Service, ghost outcomes: map<nat, Settlement>, ghost leases: set<Lease>, faults: nat -> seq<System.Fault>, budget: nat, now: Time)
    returns (settled: nat, clean: bool, ghost released: seq<nat>)
    requires forall id :: |faults(id)| == 3
    requires InPass(service, service.pending, outcomes, leases)
    modifies service, service.store, leases
    ensures InPass(service, old(service.pending), outcomes, leases)
    ensures Reconciled(outcomes, service.pending.Keys, old(service.store.requests), service.store.requests)
    ensures settled + |service.pending| == |old(service.pending)|
    ensures clean <==> service.pending == map[]
    ensures |released| == settled && GivenBack(BothGates(old(service.global), old(service.keys)), service.global, service.keys, released)
    ensures TokensApart(old(service.store.requests)) ==>
              && old(service.pending).Keys - Willing(old(service.store.View()), outcomes, faults, now) <= service.pending.Keys
              && (budget >= |old(service.pending)| ==>
                    service.pending.Keys == old(service.pending).Keys - Willing(old(service.store.View()), outcomes, faults, now))
  {
    ghost var apart, willing := TokensApart(service.store.requests), Willing(service.store.View(), outcomes, faults, now);
    if apart {
      Foresee(service.store.View(), outcomes, faults, now);
    }
    ghost var left;
    settled, clean, released, left := VisitAll(service, service.pending, outcomes, leases, apart, willing, faults, budget, now);
    if apart {
      VisitedMeans(outcomes.Keys, willing, left, service.pending.Keys);
    }
  }

  ghost predicate RecordedIn(rows: map<nat, RequestRow>, id: nat, s: Settlement) {
    id in rows && Recorded(rows[id], s)
  }

  ghost predicate KeptOutside(before: map<nat, RequestRow>, after: map<nat, RequestRow>, ids: set<nat>) {
    forall r :: r in before && r !in ids ==> r in after && after[r] == before[r]
  }

  /** What a pass may have done so far: each outcome is still held, or on record. */
  ghost predicate Reconciled(outcomes: map<nat, Settlement>, held: set<nat>, before: map<nat, RequestRow>, after: map<nat, RequestRow>) {
    && held <= outcomes.Keys
    && (forall id :: id in outcomes && id !in held ==> RecordedIn(after, id, outcomes[id]))
    && KeptOutside(before, after, outcomes.Keys)
  }

  lemma ReconciledStep(outcomes: map<nat, Settlement>, held: set<nat>, held': set<nat>,
                       before: map<nat, RequestRow>, rows: map<nat, RequestRow>, rows': map<nat, RequestRow>, id: nat)
    requires Reconciled(outcomes, held, before, rows) && id in held
    requires KeptOutside(rows, rows', {id})
    requires held' == held || (held' == held - {id} && RecordedIn(rows', id, outcomes[id]))
    ensures Reconciled(outcomes, held', before, rows')
  {
  }

  lemma FinishTouchesOneRow(l: Ledger, id: int, s: Settlement, now: Time)
    ensures forall r :: r in l.requests && r != id ==> r in Finish(l, id, s, now).0.requests && Finish(l, id, s, now).0.requests[r] == l.requests[r]
    ensures Finish(l, id, s, now).1.Settled? || Finish(l, id, s, now).1.AlreadySettled? ==>
              id in Finish(l, id, s, now).0.requests && Recorded(Finish(l, id, s, now).0.requests[id], s)
  {
  }
}
