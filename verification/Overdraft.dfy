/**
 * The overdraft bound. A request is admitted while a limit is not used up, so
 * usage can pass the limit, but only by the last reservation and by whatever
 * settlements charged beyond their own reservations.
 */
module Overdraft {
  import opened Base
  import opened Ledger
  import opened Calendar
  import opened Windows
  import opened Admission
  import opened Pairing
  import opened LedgerRuns

  /** A quota that does not rotate within the run: a key's total, or a group's one billing day. */
  datatype Quota = KeyQuota(key: nat) | DayQuota(group: nat, day: int)

  function QuotaWindow(q: Quota): Window {
    match q
    case KeyQuota(k) => KeyWindow(k)
    case DayQuota(g, day) => Window(OfGroup(g), None, None, None, None, Some(day))
  }

  predicate Draws(q: Quota, d: Demand, p: Policy) {
    match q
    case KeyQuota(k) => d.key == k
    case DayQuota(g, day) => p.group == g && DayOf(d.created) == day
  }

  function LimitFor(q: Quota, p: Policy, m: Measure): int {
    match q
    case KeyQuota(_) =>
      var limit := if m == Tokens then p.keyTokens else p.keyAmount;
      if limit.Some? then limit.value else 0
    case DayQuota(_, _) => if m == Tokens then p.limits.tokenDaily else p.limits.amountDaily
  }

  function TicketWeight(t: Ticket, m: Measure): nat { if m == Tokens then t.tokens else t.amount }

  function UsedOf(l: Ledger, q: Quota, m: Measure): nat { Used(l, QuotaWindow(q), m) }

  /** By how much a settlement charges more than its row held before. */
  function Overcharge(l: Ledger, step: Step, m: Measure): nat {
    if step.Settle? && ValidSettlement(step.id, step.s) && step.id in l.requests then
      match NewestReserved(l.keyRows, l.requests[step.id].token, l.nextKeyRow)
      case None => 0
      case Some(k) =>
        var charged := if m == Tokens then step.s.usage.input + step.s.usage.output else step.s.usage.amount;
        if charged > Weight(l.keyRows[k], m) then charged - Weight(l.keyRows[k], m) else 0
    else 0
  }

  function Overcharged(w: World, steps: seq<Step>, m: Measure): nat {
    if steps == [] then 0
    else
      var before := steps[..|steps| - 1];
      Overcharged(w, before, m) + Overcharge(Run(w, before).l, steps[|steps| - 1], m)
  }

  /** One share may rise by `extra`; the others do not rise. */
  lemma {:induction false} SharesRise(
    rows: map<nat, KeyRow>, rows': map<nat, KeyRow>, w: Window, m: Measure, at: nat, extra: nat, n: nat)
    requires forall k: nat :: k < n ==> Share(rows', w, m, k) <= Share(rows, w, m, k) + if k == at then extra else 0
    ensures UsedBelow(rows', w, m, n) <= UsedBelow(rows, w, m, n) + if at < n then extra else 0
  {
    if n > 0 {
      SharesRise(rows, rows', w, m, at, extra, n - 1);
    }
  }

  lemma SettleRaises(l: Ledger, id: int, s: Settlement, now: Time, w: Window, m: Measure)
    ensures Used(Finish(l, id, s, now).0, w, m) <= Used(l, w, m) + Overcharge(l, Settle(id, s), m)
  {
    if Finish(l, id, s, now).1 == Settled {
      var k := NewestReserved(l.keyRows, l.requests[id].token, l.nextKeyRow).value;
      SharesRise(l.keyRows, Finish(l, id, s, now).0.keyRows, w, m, k, Overcharge(l, Settle(id, s), m), l.nextKeyRow);
    }
  }

  /** Where only one row changes, the sum changes by that row alone. */
  lemma {:induction false} SharesChangeAt(rows: map<nat, KeyRow>, rows': map<nat, KeyRow>, w: Window, m: Measure, at: nat, n: nat)
    requires forall k: nat :: k < n && k != at ==> Share(rows', w, m, k) == Share(rows, w, m, k)
    ensures UsedBelow(rows', w, m, n) + (if at < n then Share(rows, w, m, at) else 0)
            == UsedBelow(rows, w, m, n) + if at < n then Share(rows', w, m, at) else 0
  {
    if n > 0 {
      SharesChangeAt(rows, rows', w, m, at, n - 1);
    }
  }

  /**
   * A settlement exchanges exactly its own reservation for exactly its own
   * charge: in every window the usage changes by that and by nothing else.
   */
  lemma SettlementConserves(l: Ledger, id: int, s: Settlement, now: Time, w: Window, m: Measure) returns (k: nat)
    requires TwoRow(l) && Finish(l, id, s, now).1 == Settled
    ensures var l' := Finish(l, id, s, now).0;
            && Linked(l, id, k) && Linked(l', id, k)
            && l'.keyRows == l.keyRows[k := l'.keyRows[k]] && l'.requests == l.requests[id := l'.requests[id]]
            && Weight(l.keyRows[k], Tokens) == l.requests[id].reserved && Weight(l.keyRows[k], Money) == l.requests[id].usage.amount
            && Weight(l'.keyRows[k], Tokens) == s.usage.input + s.usage.output == l'.requests[id].charged
            && Weight(l'.keyRows[k], Money) == s.usage.amount == l'.requests[id].usage.amount
            && Used(l', w, m) + Share(l.keyRows, w, m, k) == Used(l, w, m) + Share(l'.keyRows, w, m, k)
  {
    k := ReservedPairIsUnique(l, id);
    var l' := Finish(l, id, s, now).0;
    SharesChangeAt(l.keyRows, l'.keyRows, w, m, k, l.nextKeyRow);
  }

  lemma OthersDoNotRaise(world: World, step: Step, w: Window, m: Measure)
    requires IdsBelowNext(world.l) && !step.Admit? && !step.Settle?
    ensures Used(Do(world, step).l, w, m) <= Used(world.l, w, m)
  {
    var l, l' := world.l, Do(world, step).l;
    SharesBound(l.keyRows, w, l'.keyRows, w, m, l.nextKeyRow);
    if step.Reissue? {
      if l'.nextKeyRow < l.nextKeyRow {
        IdsAboveAddNothing(l.keyRows, w, m, l'.nextKeyRow, l.nextKeyRow);
      } else {
        IdsAboveAddNothing(l.keyRows, w, m, l.nextKeyRow, l'.nextKeyRow);
      }
    }
  }

  lemma InsertAdds(l: Ledger, t: Ticket, w: Window, m: Measure)
    requires IdsBelowNext(l)
    ensures Used(Insert(l, t), w, m)
            == Used(l, w, m) + if Includes(w, Insert(l, t).keyRows[l.nextKeyRow]) then TicketWeight(t, m) else 0
  {
    SharesAgree(l.keyRows, w, Insert(l, t).keyRows, w, m, l.nextKeyRow);
  }

  /** An admission that draws on the quota found it not used up. */
  lemma AdmittedBelowLimit(world: World, d: Demand, p: Policy, q: Quota, m: Measure)
    requires Dated(world) && world.last <= d.created
    requires Decide(world.l, d, p).Admitted? && Draws(q, d, p) && LimitFor(q, p, m) > 0
    ensures UsedOf(world.l, q, m) < LimitFor(q, p, m)
  {
    AdmissionMeans(world.l, d, p);
    if q.DayQuota? {
      SharesAgree(world.l.keyRows, DailyWindow(q.group, d.created), world.l.keyRows, QuotaWindow(q), m, world.l.nextKeyRow);
    }
  }

  /** Every admission that draws on the quota met a positive limit of at most `limit` and reserved at most `largest`. */
  ghost predicate Disciplined(w: World, steps: seq<Step>, q: Quota, m: Measure, limit: nat, largest: nat) {
    forall i :: 0 <= i < |steps| && steps[i].Admit? && Draws(q, steps[i].d, steps[i].p) ==>
      && 0 < LimitFor(q, steps[i].p, m) <= limit
      && (Decide(Run(w, steps[..i]).l, steps[i].d, steps[i].p).Admitted? ==>
            TicketWeight(Decide(Run(w, steps[..i]).l, steps[i].d, steps[i].p).ticket, m) <= largest)
  }

  lemma AdmitStaysBounded(w: World, d: Demand, p: Policy, q: Quota, m: Measure, limit: nat, largest: nat, extra: nat)
    requires Dated(w) && IdsBelowNext(w.l) && w.last <= d.created && Decide(w.l, d, p).Admitted?
    requires Draws(q, d, p) ==> 0 < LimitFor(q, p, m) <= limit && TicketWeight(Decide(w.l, d, p).ticket, m) <= largest
    requires limit > 0 && UsedOf(w.l, q, m) <= limit - 1 + largest + extra
    ensures UsedOf(Reserve(w.l, d, p), q, m) <= limit - 1 + largest + extra
  {
    InsertAdds(w.l, Decide(w.l, d, p).ticket, QuotaWindow(q), m);
    if Draws(q, d, p) {
      AdmittedBelowLimit(w, d, p, q, m);
    }
  }

  /**
   * For any number of concurrent requests and any run: the usage of a key, or
   * of a group within one billing day, never exceeds the limit by more than the
   * largest single reservation less one, plus what settlements overcharged.
   */
  lemma {:induction false} OverdraftBound(
    c: Timing, now: Time, steps: seq<Step>, q: Quota, m: Measure, limit: nat, largest: nat)
    requires PossibleRun(c, Start(now), steps) && limit > 0
    requires Disciplined(Start(now), steps, q, m, limit, largest)
    ensures UsedOf(Run(Start(now), steps).l, q, m) <= limit - 1 + largest + Overcharged(Start(now), steps, m)
  {
    if steps != [] {
      var before := steps[..|steps| - 1];
      var w, step := Run(Start(now), before), steps[|steps| - 1];
      forall i | 0 <= i < |before|
        ensures before[i] == steps[i] && before[..i] == steps[..i]
      {
      }
      OverdraftBound(c, now, before, q, m, limit, largest);
      RunsAreSound(c, now, before);
      match step {
        case Admit(d, p) =>
          if Decide(w.l, d, p).Admitted? {
            AdmitStaysBounded(w, d, p, q, m, limit, largest, Overcharged(Start(now), before, m));
          }
        case Settle(id, s) =>
          SettleRaises(w.l, id, s, w.now, QuotaWindow(q), m);
        case _ =>
          OthersDoNotRaise(w, step, QuotaWindow(q), m);
      }
    } else {
      assert UsedBelow(EMPTY.keyRows, QuotaWindow(q), m, 1) == 0;
    }
  }

  predicate NeverOvercharges(w: World, steps: seq<Step>, m: Measure) {
    forall i :: 0 <= i < |steps| ==> Overcharge(Run(w, steps[..i]).l, steps[i], m) == 0
  }

  lemma {:induction false} NothingOvercharged(w: World, steps: seq<Step>, m: Measure)
    requires NeverOvercharges(w, steps, m)
    ensures Overcharged(w, steps, m) == 0
  {
    if steps != [] {
      var before := steps[..|steps| - 1];
      forall i | 0 <= i < |before|
        ensures before[i] == steps[i] && before[..i] == steps[..i]
      {
      }
      NothingOvercharged(w, before, m);
    }
  }

  /** The plain form: settlements that charge no more than they reserved keep usage at or below L - 1 + R. */
  lemma OverdraftBoundWithoutOvercharges(
    c: Timing, now: Time, steps: seq<Step>, q: Quota, m: Measure, limit: nat, largest: nat)
    requires PossibleRun(c, Start(now), steps) && limit > 0
    requires Disciplined(Start(now), steps, q, m, limit, largest)
    requires NeverOvercharges(Start(now), steps, m)
    ensures UsedOf(Run(Start(now), steps).l, q, m) <= limit - 1 + largest
  {
    OverdraftBound(c, now, steps, q, m, limit, largest);
    NothingOvercharged(Start(now), steps, m);
  }
}
