/** What the relay guarantees in every run, for every interleaving and every store failure. */
module Guarantees {
  import opened Base
  import opened Ledger
  import opened Pairing
  import opened Windows
  import opened Admission
  import opened LedgerRuns
  import opened Outcomes
  import opened System
  import opened Leases
  import Slots
  import RateLimit
  import Overdraft

  // ----- Every step keeps the lease invariant --------------------------------

  lemma TransactKeeps(c: Config, s: State, f: nat, d: Demand, p: Policy, client: string, fault: Fault, decision: Decision)
    requires Reasonable(c) && LeasesOk(c, s) && s.up && IdsBelowNext(s.world.l) && f < |s.flights| && s.flights[f].pc.GotKey?
    requires s.world.now <= d.created + c.timing.gap && TokenUnused(s, d.token)
    requires decision.Admitted? ==> decision.ticket.token == d.token != "" && decision.ticket.created == d.created
    ensures LeasesOk(c, TransactStep(s, f, Admit(d, p), client, fault, decision))
  {
    var s' := TransactStep(s, f, Admit(d, p), client, fault, decision);
    if fault.LostBefore? || decision.Refused? {
      GateMoveKeeps(c, s, s', f);
    } else {
      ReservingKeeps(c, s, s', f, decision.ticket);
    }
  }

  lemma DecideNames(l: Ledger, d: Demand, p: Policy)
    requires Decide(l, d, p).Admitted?
    ensures Decide(l, d, p).ticket.token == d.token != "" && Decide(l, d, p).ticket.created == d.created
  {
  }

  lemma SettlingKeeps(c: Config, s: State, f: nat, fault: Fault, expired: bool)
    requires LeasesOk(c, s) && s.up && TwoRow(s.world.l)
    requires f < |s.flights| && s.flights[f].pc.Closing? && s.flights[f].frozen.Some?
    ensures LeasesOk(c, SettleStep(s, f, fault, expired, FinishNow(s, f).0, FinishNow(s, f).1))
  {
    var (after, result) := FinishNow(s, f);
    assert FlightOk(c, s, f);
    FinishOnLease(s.world.l, s.flights[f], s.world.now);
    SettleShape(s, f, fault, expired, after, result);
    SettleKeeps(c, s, SettleStep(s, f, fault, expired, after, result), f, after, result);
  }

  lemma ArriveKeeps(c: Config, s: State, key: nat)
    requires LeasesOk(c, s) && s.up
    ensures LeasesOk(c, ArriveStep(s, key))
  {
    var s' := ArriveStep(s, key);
    assert forall g, h :: SameToken(s'.flights, g, h) ==> SameToken(s.flights, g, h);
    forall g: nat | g < |s'.flights|
      ensures FlightOk(c, s', g)
    {
      if g < |s.flights| {
        assert FlightOk(c, s, g);
      }
    }
  }

  lemma RequestStepKeeps(c: Config, s: State, a: Action)
    requires Reasonable(c) && LeasesOk(c, s) && TwoRow(s.world.l) && Enabled(c, s, a)
    requires a.Reject? || a.Turn? || a.EnterKey? || a.Close? || a.Retry?
    ensures LeasesOk(c, Next(c, s, a))
  {
    if a.Reject? {
      GateMoveKeeps(c, s, Next(c, s, a), a.f);
    } else if a.Turn? {
      if IsPlain(s.flights[a.f].pc) {
        PlainKeeps(c, s, a.f);
      } else {
        GateTurnMoves(s, a.f);
        GateMoveKeeps(c, s, TurnStep(s, a.f), a.f);
      }
    } else if a.EnterKey? {
      EnterMoves(s, a.f, a.limit);
      GateMoveKeeps(c, s, EnterStep(s, a.f, a.limit), a.f);
    } else if a.Close? {
      CloseKeeps(c, s, a.f, a.outcome, a.trace);
    } else {
      CloseKeeps(c, s, a.f, BLANK, None);
    }
  }

  lemma BackgroundStepKeeps(c: Config, s: State, a: Action)
    requires Reasonable(c) && LeasesOk(c, s) && Enabled(c, s, a)
    requires a.Reaping? || a.Reaped? || a.Pruning? || a.Deleting? || a.Reissuing? || a.Ticking?
    ensures LeasesOk(c, Next(c, s, a))
  {
    var s' := Next(c, s, a);
    if a.Reaping? {
      ReapingKeeps(c, s);
    } else if a.Reaped? {
      var reaped := s'.(reaper := s.reaper);
      ReapedKeeps(c, s, reaped);
      IdleReaperKeeps(c, reaped);
    } else if a.Pruning? {
      PruningKeeps(c, s, s', a.cutoff);
    } else if a.Deleting? {
      DeletingKeeps(c, s, s', a.keys, a.models, a.providers);
    } else if a.Reissuing? {
      ReissuingKeeps(c, s, s', a.nextRequest, a.nextKeyRow);
    } else {
      TickingKeeps(c, s, s', a.to);
    }
  }

  lemma StepKeepsLeases(c: Config, s: State, a: Action)
    requires Reasonable(c) && LeasesOk(c, s) && TwoRow(s.world.l) && Enabled(c, s, a)
    ensures LeasesOk(c, Next(c, s, a))
  {
    if a.Arrive? {
      ArriveKeeps(c, s, a.key);
    } else if a.Transact? {
      if Decide(s.world.l, a.d, a.p).Admitted? {
        DecideNames(s.world.l, a.d, a.p);
      }
      TransactKeeps(c, s, a.f, a.d, a.p, a.clientRequest, a.fault, Decide(s.world.l, a.d, a.p));
    } else if a.Settling? {
      SettlingKeeps(c, s, a.f, a.fault, a.expired);
    } else if a.Reject? || a.Turn? || a.EnterKey? || a.Close? || a.Retry? {
      RequestStepKeeps(c, s, a);
    } else if a.Limiting? || a.Draining? {
      forall g: nat | g < |s.flights|
        ensures FlightOk(c, Next(c, s, a), g)
      {
        assert FlightOk(c, s, g);
      }
    } else if !a.Crash? && !a.Recover? {
      BackgroundStepKeeps(c, s, a);
    }
  }

  // ----- System runs are ledger runs -----------------------------------------

  predicate Logged(c: Config, start: Time, s: State) {
    s.world == Run(Start(start), s.log) && PossibleRun(c.timing, Start(start), s.log)
  }

  lemma LoggedOnce(c: Config, start: Time, s: State, s': State, step: Step)
    requires Logged(c, start, s) && Possible(c.timing, s.world, step)
    requires s'.log == s.log + [step] && s'.world == Do(s.world, step)
    ensures Logged(c, start, s')
  {
    assert s'.log[..|s.log|] == s.log;
  }

  /** The ledger step an action performs, if any. */
  function StepOf(c: Config, s: State, a: Action): Option<Step>
    requires Enabled(c, s, a)
  {
    match a
    case Transact(_, d, p, _, fault) =>
      if fault.LostBefore? || Decide(s.world.l, d, p).Refused? then None else Some(Admit(d, p))
    case Settling(f, fault, _) =>
      if fault.LostBefore? then None else Some(LedgerRuns.Settle(s.flights[f].id, s.flights[f].frozen.value))
    case Reaped => Some(Abort(s.reaper.cutoff, s.reaper.ids))
    case Recover(cutoff) => Some(Abort(cutoff, {}))
    case Pruning(cutoff) => Some(Retire(cutoff))
    case Deleting(keys, models, providers) => Some(Remove(keys, models, providers))
    case Reissuing(nr, nk) => Some(Reissue(nr, nk))
    case Ticking(to) => Some(Pass(to))
    case _ => None
  }

  predicate Performs(c: Config, s: State, s': State, step: Option<Step>) {
    match step
    case None => s'.world == s.world && s'.log == s.log
    case Some(t) => s'.world == Do(s.world, t) && s'.log == s.log + [t] && Possible(c.timing, s.world, t)
  }

  lemma TransactPerforms(c: Config, s: State, a: Action)
    requires Enabled(c, s, a) && a.Transact?
    ensures Performs(c, s, Next(c, s, a), StepOf(c, s, a))
  {
    if Decide(s.world.l, a.d, a.p).Admitted? {
      DecideNames(s.world.l, a.d, a.p);
    }
  }

  lemma QuietPerforms(c: Config, s: State, a: Action)
    requires Enabled(c, s, a) && StepOf(c, s, a).None? && !a.Transact?
    ensures Performs(c, s, Next(c, s, a), None)
  {
  }

  lemma LedgerActionPerforms(c: Config, s: State, a: Action)
    requires Enabled(c, s, a) && StepOf(c, s, a).Some? && !a.Transact?
    ensures Performs(c, s, Next(c, s, a), StepOf(c, s, a))
  {
  }

  lemma StepIsLogged(c: Config, start: Time, s: State, a: Action)
    requires Enabled(c, s, a) && Logged(c, start, s)
    ensures Logged(c, start, Next(c, s, a))
  {
    var step := StepOf(c, s, a);
    if a.Transact? {
      TransactPerforms(c, s, a);
    } else if step.Some? {
      LedgerActionPerforms(c, s, a);
    } else {
      QuietPerforms(c, s, a);
    }
    if step.Some? {
      LoggedOnce(c, start, s, Next(c, s, a), step.value);
    }
  }

  // ----- The invariant of every run ------------------------------------------

  ghost predicate Good(c: Config, start: Time, s: State) {
    Logged(c, start, s) && Sound(s.world) && LeasesOk(c, s)
  }

  lemma StepIsGood(c: Config, start: Time, s: State, a: Action)
    requires Reasonable(c) && Good(c, start, s) && Enabled(c, s, a)
    ensures Good(c, start, Next(c, s, a))
  {
    StepIsLogged(c, start, s, a);
    RunsAreSound(c.timing, start, Next(c, s, a).log);
    StepKeepsLeases(c, s, a);
  }

  lemma {:induction false} EveryRunIsGood(c: Config, start: Time, limit: int, acts: seq<Action>)
    requires Reasonable(c)
    ensures Good(c, start, Exec(c, Init(start, limit), acts))
  {
    if acts == [] {
      RunsAreSound(c.timing, start, []);
    } else {
      EveryRunIsGood(c, start, limit, acts[..|acts| - 1]);
      var s := Exec(c, Init(start, limit), acts[..|acts| - 1]);
      if Enabled(c, s, acts[|acts| - 1]) {
        StepIsGood(c, start, s, acts[|acts| - 1]);
      }
    }
  }

  // ----- The guarantees --------------------------------------------------------

  /**
   * Exactly-once settlement. In every run each lease commits at most once and
   * is never answered "conflict" or "not found"; what the ledger records under
   * its token is the outcome frozen by the first Close; and its slots are given
   * back at most once each, the key's before the global one, and only after the
   * store confirmed.
   */
  lemma ExactlyOnceSettlement(c: Config, start: Time, limit: int, acts: seq<Action>, f: nat)
    requires Reasonable(c) && f < |Exec(c, Init(start, limit), acts).flights|
    ensures var s := Exec(c, Init(start, limit), acts);
            var fl := s.flights[f];
            && fl.commits <= 1
            && fl.refusals == 0
            && (SettledPc(fl.pc) ==> fl.commits == 1)
            && (fl.commits == 1 ==>
                  && fl.first.Some? && fl.first == fl.frozen
                  && forall r :: r in s.world.l.requests && s.world.l.requests[r].token == fl.token
                       ==> Recorded(s.world.l.requests[r], fl.first.value))
            && (Owed(fl) ==> fl.id in s.world.l.requests && s.world.l.requests[fl.id].status == Reserved)
            && fl.globalReleases <= fl.keyReleases <= 1
            && (fl.keyReleases == 1 ==> SettledPc(fl.pc) && !Slots.Holds(Slots.KeySlot(fl.entry), fl))
            && (fl.globalReleases == 1 <==> fl.pc.Done?)
  {
    EveryRunIsGood(c, start, limit, acts);
    assert FlightOk(c, Exec(c, Init(start, limit), acts), f);
  }

  /** The first frozen outcome stays the same, whoever closes the lease again and with what. */
  lemma FrozenOutcomeIsForever(c: Config, start: Time, s: State, a: Action, f: nat)
    requires Reasonable(c) && Good(c, start, s) && Enabled(c, s, a) && !a.Crash?
    requires f < |s.flights| && s.flights[f].first.Some?
    ensures f < |Next(c, s, a).flights| && Next(c, s, a).flights[f].first == s.flights[f].first
    ensures Next(c, s, a).flights[f].frozen == s.flights[f].first
  {
    assert FlightOk(c, s, f);
    StepIsGood(c, start, s, a);
    RequestsAdvance(c, s, a, f);
    assert FlightOk(c, Next(c, s, a), f);
  }

  /** Its Begin failed, or a Close on it has returned. */
  predicate ClosedOnce(fl: Flight) { fl.pc.TurnedAway? || fl.pc.Done? || fl.wasPending }

  /** Its Begin failed, or the store has confirmed its settlement. */
  predicate Over(fl: Flight) { fl.pc.TurnedAway? || SettledPc(fl.pc) }

  /** A request only moves forward: it keeps the first outcome it froze and the row of its lease, and stays closed and over. */
  predicate Advances(s: State, s': State, f: nat) {
    && f < |s.flights| && f < |s'.flights|
    && (s.flights[f].first.Some? ==> s'.flights[f].first == s.flights[f].first)
    && (HasLease(s.flights[f].pc) ==> s'.flights[f].id == s.flights[f].id)
    && (ClosedOnce(s.flights[f]) ==> ClosedOnce(s'.flights[f]))
    && (Over(s.flights[f]) ==> Over(s'.flights[f]))
  }

  lemma TurnAdvances(s: State, g: nat, f: nat)
    requires g < |s.flights| && CanTurn(s, s.flights[g]) && f < |s.flights|
    ensures Advances(s, TurnStep(s, g), f)
  {
    if !IsPlain(s.flights[g].pc) {
      GateTurnMoves(s, g);
    }
  }

  lemma SettleAdvances(
    s: State, g: nat, fault: Fault, expired: bool, after: Ledger, result: SettleResult, f: nat)
    requires g < |s.flights| && s.flights[g].pc.Closing? && s.flights[g].frozen.Some? && f < |s.flights|
    ensures Advances(s, SettleStep(s, g, fault, expired, after, result), f)
  {
  }

  lemma TransactAdvances(s: State, g: nat, step: Step, client: string, fault: Fault, decision: Decision, f: nat)
    requires g < |s.flights| && f < |s.flights| && s.flights[g].pc.GotKey?
    ensures Advances(s, TransactStep(s, g, step, client, fault, decision), f)
  {
  }

  lemma EnterAdvances(s: State, g: nat, limit: int, f: nat)
    requires g < |s.flights| && f < |s.flights| && s.flights[g].pc.Checked?
    requires s.flights[g].key in s.reg.gates ==> KeyLinked(s, s.flights[g])
    ensures Advances(s, EnterStep(s, g, limit), f)
  {
    EnterMoves(s, g, limit);
  }

  lemma RequestsAdvance(c: Config, s: State, a: Action, f: nat)
    requires Enabled(c, s, a) && !a.Crash? && f < |s.flights|
    ensures Advances(s, Next(c, s, a), f)
  {
    if a.Turn? {
      TurnAdvances(s, a.f, f);
    } else if a.EnterKey? {
      EnterAdvances(s, a.f, a.limit, f);
    } else if a.Settling? {
      SettleAdvances(s, a.f, a.fault, a.expired, FinishNow(s, a.f).0, FinishNow(s, a.f).1, f);
    } else if a.Transact? {
      TransactAdvances(s, a.f, Admit(a.d, a.p), a.clientRequest, a.fault, Decide(s.world.l, a.d, a.p), f);
    }
  }

  /** A store that answers settles a lease on the next attempt, whatever was lost before, exactly if the outcome is valid. */
  lemma HealthyStoreConfirms(c: Config, start: Time, s: State, f: nat)
    requires Reasonable(c) && Good(c, start, s) && s.up && f < |s.flights| && s.flights[f].pc.Closing?
    ensures s.flights[f].frozen.Some?
    ensures SettleStep(s, f, NoFault, false, FinishNow(s, f).0, FinishNow(s, f).1).flights[f].pc == Confirmed <==>
            ValidSettlement(s.flights[f].id, s.flights[f].frozen.value)
  {
    assert FlightOk(c, s, f);
    FinishOnLease(s.world.l, s.flights[f], s.world.now);
  }

  /** A lease stuck for good: unsettled, its row reserved, both slots held. */
  predicate Stuck(s: State, fl: Flight) {
    && Unsettled(fl.pc) && fl.commits == 0 && fl.keyReleases == 0 && fl.globalReleases == 0
    && HoldsGlobal(fl.pc) && HoldsKey(fl.pc)
    && fl.id in s.world.l.requests && s.world.l.requests[fl.id].status == Reserved
  }

  lemma InvalidOutcomeSticks(c: Config, start: Time, s: State, f: nat)
    requires Good(c, start, s) && f < |s.flights| && s.flights[f].frozen.Some?
    requires !ValidSettlement(s.flights[f].id, s.flights[f].frozen.value)
    ensures Stuck(s, s.flights[f])
  {
    assert FlightOk(c, s, f);
  }

  lemma ExecSplits(c: Config, s: State, acts: seq<Action>, a: Action)
    ensures Exec(c, s, acts + [a]) == if Enabled(c, Exec(c, s, acts), a) then Next(c, Exec(c, s, acts), a) else Exec(c, s, acts)
  {
    assert (acts + [a])[..|acts|] == acts;
  }

  /**
   * A lease closed with an outcome that the store calls invalid, a negative
   * token count say, is never settled: in every continuation without a crash it
   * keeps its reserved row and both its slots, and by `ReaperSafety` the reaper
   * leaves it alone.
   */
  lemma {:induction false} InvalidOutcomeIsNeverSettled(c: Config, start: Time, limit: int, acts: seq<Action>, more: seq<Action>, f: nat)
    requires Reasonable(c) && forall i :: 0 <= i < |more| ==> !more[i].Crash?
    requires var s := Exec(c, Init(start, limit), acts);
             f < |s.flights| && s.flights[f].frozen.Some? && !ValidSettlement(s.flights[f].id, s.flights[f].frozen.value)
    ensures var s, s' := Exec(c, Init(start, limit), acts), Exec(c, Init(start, limit), acts + more);
            && f < |s'.flights| && s'.flights[f].frozen == s.flights[f].frozen && s'.flights[f].id == s.flights[f].id
            && Stuck(s', s'.flights[f])
    decreases |more|
  {
    var init := Init(start, limit);
    EveryRunIsGood(c, start, limit, acts + more);
    if more == [] {
      assert acts + more == acts;
    } else {
      var before, a := more[..|more| - 1], more[|more| - 1];
      InvalidOutcomeIsNeverSettled(c, start, limit, acts, before, f);
      assert acts + more == acts + before + [a];
      ExecSplits(c, init, acts + before, a);
      EveryRunIsGood(c, start, limit, acts + before);
      var s := Exec(c, init, acts + before);
      assert FlightOk(c, s, f);
      if Enabled(c, s, a) {
        FrozenOutcomeIsForever(c, start, s, a, f);
        RequestsAdvance(c, s, a, f);
      }
    }
    InvalidOutcomeSticks(c, start, Exec(c, init, acts + more), f);
  }

  /**
   * Reaper safety. In every run, whenever the reaper commits, the row of every
   * lease that is registered or being registered and not yet settled is left
   * exactly as it was.
   */
  lemma ReaperSafety(c: Config, start: Time, limit: int, acts: seq<Action>, f: nat)
    requires Reasonable(c)
    requires var s := Exec(c, Init(start, limit), acts); Enabled(c, s, Reaped) && f < |s.flights| && Owed(s.flights[f])
    ensures var s := Exec(c, Init(start, limit), acts);
            var id := s.flights[f].id;
            id in s.world.l.requests && Next(c, s, Reaped).world.l.requests[id] == s.world.l.requests[id]
  {
    EveryRunIsGood(c, start, limit, acts);
    ReaperSparesLeases(c, Exec(c, Init(start, limit), acts), f);
  }

  /** The two-row invariant holds in every run, through crashes and restarts. */
  lemma TwoRowInvariant(c: Config, start: Time, limit: int, acts: seq<Action>)
    requires Reasonable(c)
    ensures TwoRow(Exec(c, Init(start, limit), acts).world.l)
    ensures Chronological(Exec(c, Init(start, limit), acts).world.l)
  {
    EveryRunIsGood(c, start, limit, acts);
  }

  /** Right after recovery no row of either table is reserved. */
  lemma RecoveryIsComplete(c: Config, start: Time, limit: int, acts: seq<Action>, cutoff: Time)
    requires Reasonable(c) && Enabled(c, Exec(c, Init(start, limit), acts), Recover(cutoff))
    ensures var l := Next(c, Exec(c, Init(start, limit), acts), Recover(cutoff)).world.l;
            && TwoRow(l)
            && (forall r :: r in l.requests ==> l.requests[r].status != Reserved)
            && (forall k :: k in l.keyRows ==> l.keyRows[k].status != Reserved)
  {
    EveryRunIsGood(c, start, limit, acts);
    var s := Exec(c, Init(start, limit), acts);
    RecoveryLeavesNothingReserved(s.world.l, cutoff, s.world.now);
  }

  /** The rate limit and the overdraft bound hold of the relay as they hold of its ledger. */
  lemma QuotasHoldOfTheRelay(
    c: Config, start: Time, limit: int, acts: seq<Action>,
    rpm: nat, a: Time, q: Overdraft.Quota, m: Measure, quota: nat, largest: nat)
    requires Reasonable(c) && quota > 0
    requires var log := Exec(c, Init(start, limit), acts).log;
             RateLimit.RpmAtMost(log, rpm) && Overdraft.Disciplined(Start(start), log, q, m, quota, largest)
    ensures var s := Exec(c, Init(start, limit), acts);
            && RateLimit.InMinute(s.world.admitted, a) <= rpm
            && Overdraft.UsedOf(s.world.l, q, m) <= quota - 1 + largest + Overdraft.Overcharged(Start(start), s.log, m)
  {
    EveryRunIsGood(c, start, limit, acts);
    var s := Exec(c, Init(start, limit), acts);
    RateLimit.SlidingRateLimit(c.timing, start, s.log, rpm);
    Overdraft.OverdraftBound(c.timing, start, s.log, q, m, quota, largest);
  }

  // ----- Pruning under a lease ---------------------------------------------------

  lemma PrunedRow(l: Ledger, id: nat, cutoff: Time)
    requires id in l.requests
    ensures id in Prune(l, cutoff).requests <==> l.requests[id].status == Reserved || cutoff <= l.requests[id].created
    ensures id in Prune(l, cutoff).requests ==> Prune(l, cutoff).requests[id] == l.requests[id]
  {
  }

  lemma PruneKeepsRecord(l: Ledger, fl: Flight, cutoff: Time)
    requires RowOk(l.requests, fl) && RecordOk(l.requests, fl) && HasLease(fl.pc)
    requires fl.commits == 0 || cutoff <= fl.created
    ensures RowOk(Prune(l, cutoff).requests, fl) && RecordOk(Prune(l, cutoff).requests, fl)
  {
    PrunedRow(l, fl.id, cutoff);
  }

  /**
   * The condition on pruning is exact. In every run, after pruning at any cutoff
   * the next attempt of a lease with a valid outcome is confirmed if and only if
   * its settlement was not committed yet or its row is not older than the
   * cutoff; otherwise every attempt answers "not found".
   */
  lemma PruningLosesLeaseIff(c: Config, start: Time, limit: int, acts: seq<Action>, f: nat, cutoff: Time)
    requires Reasonable(c)
    requires var s := Exec(c, Init(start, limit), acts);
             f < |s.flights| && HasLease(s.flights[f].pc) && s.flights[f].frozen.Some?
             && ValidSettlement(s.flights[f].id, s.flights[f].frozen.value)
    ensures var s := Exec(c, Init(start, limit), acts);
            var fl := s.flights[f];
            var result := Finish(Prune(s.world.l, cutoff), fl.id, fl.frozen.value, s.world.now).1;
            && (result.Settled? || result.AlreadySettled? <==> fl.commits == 0 || cutoff <= fl.created)
            && (result.Settled? || result.AlreadySettled? || result.NotFound?)
  {
    EveryRunIsGood(c, start, limit, acts);
    var s := Exec(c, Init(start, limit), acts);
    var fl := s.flights[f];
    assert FlightOk(c, s, f);
    if fl.commits == 0 || cutoff <= fl.created {
      PruneKeeps(s.world.l, cutoff);
      PruneKeepsRecord(s.world.l, fl, cutoff);
      FinishOnLease(Prune(s.world.l, cutoff), fl, s.world.now);
    } else {
      PrunedRow(s.world.l, fl.id, cutoff);
      assert Recorded(s.world.l.requests[fl.id], fl.frozen.value);
    }
  }
}
