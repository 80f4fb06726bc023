/**
 * Exactly-once settlement and reaper safety: what is true of every lease in
 * every interleaving of handlers, reconciler, reaper, pruning and deletes, with
 * the store losing answers before or after its commits.
 */
module Leases {
  import opened Base
  import opened Ledger
  import opened Pairing
  import opened Outcomes
  import opened System

  type Requests = map<nat, RequestRow>

  /** The row is final and records this outcome. */
  predicate Recorded(row: RequestRow, s: Settlement) {
    row.status != Reserved && SameOutcome(row, Normalized(s))
  }

  /** Still owed to the store: a lease whose settlement has not been committed. */
  predicate Owed(fl: Flight) { HasLease(fl.pc) && fl.commits == 0 }

  /** The lease's own row: present, its own, and reserved for as long as nothing was committed. */
  predicate RowOk(rows: Requests, fl: Flight) {
    HasLease(fl.pc) ==>
      && fl.id in rows && rows[fl.id].token == fl.token && rows[fl.id].created == fl.created
      && (fl.commits == 0 ==> rows[fl.id].status == Reserved)
  }

  /** Whatever row still carries the token of a committed lease records its frozen outcome. */
  ghost predicate RecordOk(rows: Requests, fl: Flight) {
    fl.commits == 1 ==>
      fl.frozen.Some? && forall r :: r in rows && rows[r].token == fl.token ==> Recorded(rows[r], fl.frozen.value)
  }

  /** Program counter, frozen outcome and history belong together. */
  predicate HistoryOk(fl: Flight) {
    && fl.commits <= 1
    && fl.refusals == 0
    && fl.first == fl.frozen
    && (fl.frozen.Some? ==> Enrich(fl.frozen.value, fl.clientRequest, None) == fl.frozen.value)
    && (SettledPc(fl.pc) ==> fl.commits == 1)
    && (fl.commits == 1 ==> fl.frozen.Some? && ValidSettlement(fl.id, fl.frozen.value))
    && (!HasLease(fl.pc) && !fl.pc.Done? ==> fl.commits == 0 && fl.frozen.None? && !fl.wasPending && fl.token == "")
    && (HasLease(fl.pc) || fl.pc.Done? ==> fl.token != "")
    && (fl.pc.Registering? ==> fl.commits == 0 && fl.frozen.None? && !fl.wasPending)
    && ((HasLease(fl.pc) && !fl.pc.Registering? && !fl.pc.Live?) || fl.wasPending || fl.commits == 1 ==> fl.frozen.Some?)
    && fl.keyReleases == (if fl.pc.OutOfKey? || fl.pc.Done? then 1 else 0)
    && fl.globalReleases == (if fl.pc.Done? then 1 else 0)
  }

  /** A registered, unsettled lease is in the active set until its first failure, and pending after it. */
  predicate ListedOk(active: set<int>, pending: map<int, nat>, f: nat, fl: Flight) {
    && (Unsettled(fl.pc) && !fl.wasPending ==> fl.id in active)
    && (Unsettled(fl.pc) && (fl.wasPending || fl.pc.LeavingActive?) ==> fl.id in pending && pending[fl.id] == f)
  }

  /** What the reaper holds in its hands cannot hit this lease. */
  predicate GuardedOk(c: Config, reaper: Reaper, now: Time, pending: map<int, nat>, fl: Flight) {
    && (fl.pc.Registering? ==> now <= fl.created + c.timing.gap)
    && (Owed(fl) ==>
          match reaper
          case Idle => true
          case SawActive(ids, at) => fl.id in ids || fl.id in pending || at <= fl.created + c.timing.gap
          case SawBoth(ids, at) => fl.id in ids || at <= fl.created + c.timing.gap
          case Armed(ids, cutoff) => fl.id in ids || cutoff <= fl.created)
  }

  predicate ReaperOk(c: Config, reaper: Reaper, now: Time) {
    match reaper
    case Idle => true
    case SawActive(_, at) => at <= now <= at + c.delay
    case SawBoth(_, at) => at <= now <= at + c.delay
    case Armed(_, cutoff) => cutoff <= now - c.reapAge
  }

  ghost predicate FlightOk(c: Config, s: State, f: nat)
    requires f < |s.flights|
  {
    && RowOk(s.world.l.requests, s.flights[f])
    && RecordOk(s.world.l.requests, s.flights[f])
    && HistoryOk(s.flights[f])
    && ListedOk(s.active, s.pending, f, s.flights[f])
    && GuardedOk(c, s.reaper, s.world.now, s.pending, s.flights[f])
  }

  ghost predicate SameToken(flights: seq<Flight>, f: nat, g: nat) {
    f < |flights| && g < |flights| && flights[f].token == flights[g].token != ""
  }

  ghost predicate TokensDistinct(flights: seq<Flight>) {
    forall f, g :: SameToken(flights, f, g) ==> f == g
  }

  ghost predicate LeasesOk(c: Config, s: State) {
    && TokensDistinct(s.flights)
    && ReaperOk(c, s.reaper, s.world.now)
    && (!s.up ==> s.flights == [])
    && (forall f: nat :: f < |s.flights| ==> FlightOk(c, s, f))
  }

  /** Two leases never share a request row. */
  lemma IdsDiffer(c: Config, s: State, f: nat, g: nat)
    requires LeasesOk(c, s) && f < |s.flights| && g < |s.flights| && f != g
    requires HasLease(s.flights[f].pc) && HasLease(s.flights[g].pc)
    ensures s.flights[f].id != s.flights[g].id && s.flights[f].token != s.flights[g].token
  {
    assert FlightOk(c, s, f) && FlightOk(c, s, g);
    assert !SameToken(s.flights, f, g);
  }

  // ----- Steps that leave the ledger alone ----------------------------------

  /** One request moves, and nothing else that the invariant looks at. */
  predicate OnlyFlight(s: State, s': State, f: nat) {
    && f < |s.flights| && |s'.flights| == |s.flights|
    && s'.flights == s.flights[f := s'.flights[f]] && s'.flights[f].token == s.flights[f].token
    && s'.world == s.world && s'.active == s.active && s'.pending == s.pending
    && s'.reaper == s.reaper && s'.up == s.up
  }

  lemma OnlyFlightKeeps(c: Config, s: State, s': State, f: nat)
    requires LeasesOk(c, s) && s.up && OnlyFlight(s, s', f)
    requires FlightOk(c, s', f)
    ensures LeasesOk(c, s')
  {
    assert forall g, h :: SameToken(s'.flights, g, h) ==> SameToken(s.flights, g, h);
    forall g: nat | g < |s'.flights|
      ensures FlightOk(c, s', g)
    {
      assert FlightOk(c, s, g);
    }
  }

  /** A request outside any lease moves on inside Begin. */
  predicate BeginMove(fl: Flight, fl': Flight) {
    && !HasLease(fl.pc) && !fl.pc.Done? && !HasLease(fl'.pc) && !fl'.pc.Done?
    && fl' == fl.(pc := fl'.pc, entry := fl'.entry)
  }

  /** The two releases at the end of a Close that succeeded. */
  predicate ReleaseMove(fl: Flight, fl': Flight) {
    || (fl.pc.OutOfActive? && fl' == fl.(pc := OutOfKey, keyReleases := fl.keyReleases + 1))
    || (fl.pc.OutOfKey? && fl' == fl.(pc := Done, globalReleases := fl.globalReleases + 1))
  }

  lemma GateMoveKeepsHistory(fl: Flight, fl': Flight)
    requires HistoryOk(fl) && (BeginMove(fl, fl') || ReleaseMove(fl, fl'))
    ensures HistoryOk(fl') && fl'.commits == fl.commits && fl'.id == fl.id && fl'.token == fl.token && fl'.frozen == fl.frozen
    ensures !Unsettled(fl'.pc) && !Owed(fl') && (HasLease(fl'.pc) ==> HasLease(fl.pc) && fl.created == fl'.created)
  {
  }

  lemma GateMoveKeeps(c: Config, s: State, s': State, f: nat)
    requires LeasesOk(c, s) && s.up && OnlyFlight(s, s', f)
    requires BeginMove(s.flights[f], s'.flights[f]) || ReleaseMove(s.flights[f], s'.flights[f])
    ensures LeasesOk(c, s')
  {
    assert FlightOk(c, s, f);
    GateMoveKeepsHistory(s.flights[f], s'.flights[f]);
    assert FlightOk(c, s', f);
    OnlyFlightKeeps(c, s, s', f);
  }

  /** The steps on the global gate. */
  lemma GlobalTurnMoves(s: State, f: nat, s': State)
    requires f < |s.flights| && (s.flights[f].pc.Arrived? || s.flights[f].pc.DropGlobal? || s.flights[f].pc.OutOfKey?)
    requires s' == TurnStep(s, f)
    ensures OnlyFlight(s, s', f) && (BeginMove(s.flights[f], s'.flights[f]) || ReleaseMove(s.flights[f], s'.flights[f]))
  {
  }

  /** The steps on the key's gate. */
  lemma KeyTurnMoves(s: State, f: nat, s': State)
    requires f < |s.flights| && CanTurn(s, s.flights[f])
    requires s.flights[f].pc.KeyTried? || s.flights[f].pc.KeyLost? || s.flights[f].pc.DropKey? || s.flights[f].pc.OutOfActive?
    requires s' == TurnStep(s, f)
    ensures OnlyFlight(s, s', f) && (BeginMove(s.flights[f], s'.flights[f]) || ReleaseMove(s.flights[f], s'.flights[f]))
  {
  }

  /** Begin's steps on the gates, and Close's two releases. */
  lemma GateTurnMoves(s: State, f: nat)
    requires f < |s.flights| && CanTurn(s, s.flights[f]) && !IsPlain(s.flights[f].pc)
    ensures OnlyFlight(s, TurnStep(s, f), f)
    ensures BeginMove(s.flights[f], TurnStep(s, f).flights[f]) || ReleaseMove(s.flights[f], TurnStep(s, f).flights[f])
  {
    if s.flights[f].pc.Arrived? || s.flights[f].pc.DropGlobal? || s.flights[f].pc.OutOfKey? {
      GlobalTurnMoves(s, f, TurnStep(s, f));
    } else {
      KeyTurnMoves(s, f, TurnStep(s, f));
    }
  }

  lemma EnterMoves(s: State, f: nat, limit: int)
    requires f < |s.flights| && s.flights[f].pc.Checked?
    requires s.flights[f].key in s.reg.gates ==> KeyLinked(s, s.flights[f])
    ensures OnlyFlight(s, EnterStep(s, f, limit), f) && BeginMove(s.flights[f], EnterStep(s, f, limit).flights[f])
  {
  }

  /** The first Close freezes its outcome; a retry finds it frozen and keeps it, whatever it was given. */
  lemma CloseKeeps(c: Config, s: State, f: nat, outcome: Outcome, trace: Option<Trace>)
    requires LeasesOk(c, s) && s.up && f < |s.flights| && s.flights[f].pc.Live?
    requires SafeTrace(s.flights[f], trace)
    ensures LeasesOk(c, CloseStep(s, f, outcome, trace))
    ensures s.flights[f].frozen.Some? ==> CloseStep(s, f, outcome, trace).flights[f].frozen == s.flights[f].frozen
  {
    var s' := CloseStep(s, f, outcome, trace);
    assert FlightOk(c, s, f);
    RetrySubmitsTheSame(Freeze(outcome), s.flights[f].clientRequest, trace, None);
    if s.flights[f].frozen.Some? {
      RetrySubmitsTheSame(s.flights[f].frozen.value, s.flights[f].clientRequest, None, trace);
    }
    assert FlightOk(c, s', f);
    OnlyFlightKeeps(c, s, s', f);
  }

  /** The steps that add to or remove from the active and pending sets touch only their own id. */
  lemma PlainKeepsOthers(c: Config, s: State, f: nat, g: nat)
    requires LeasesOk(c, s) && f < |s.flights| && g < |s.flights| && f != g && IsPlain(s.flights[f].pc)
    ensures FlightOk(c, PlainStep(s, f), g)
  {
    assert FlightOk(c, s, g);
    if HasLease(s.flights[f].pc) && HasLease(s.flights[g].pc) {
      IdsDiffer(c, s, f, g);
    }
  }

  /** The request itself after such a step. */
  function PlainFlight(fl: Flight, draining: bool): Flight
    requires IsPlain(fl.pc)
  {
    fl.(pc := PlainPc(fl.pc, draining), wasPending := fl.wasPending || fl.pc.LeavingActive?)
  }

  lemma PlainHistory(fl: Flight, draining: bool)
    requires HistoryOk(fl) && IsPlain(fl.pc)
    ensures HistoryOk(PlainFlight(fl, draining))
    ensures HasLease(PlainFlight(fl, draining).pc) <==> HasLease(fl.pc)
  {
  }

  lemma PlainListed(active: set<int>, pending: map<int, nat>, f: nat, fl: Flight, draining: bool)
    requires ListedOk(active, pending, f, fl) && HistoryOk(fl) && IsPlain(fl.pc)
    ensures ListedOk(PlainActive(active, fl), PlainPending(pending, f, fl), f, PlainFlight(fl, draining))
  {
  }

  lemma PlainGuarded(c: Config, reaper: Reaper, now: Time, pending: map<int, nat>, f: nat, fl: Flight, draining: bool)
    requires GuardedOk(c, reaper, now, pending, fl) && HistoryOk(fl) && IsPlain(fl.pc)
    ensures GuardedOk(c, reaper, now, PlainPending(pending, f, fl), PlainFlight(fl, draining))
  {
  }

  lemma PlainKeepsSelf(c: Config, s: State, f: nat)
    requires f < |s.flights| && FlightOk(c, s, f) && IsPlain(s.flights[f].pc)
    ensures FlightOk(c, PlainStep(s, f), f)
  {
    PlainHistory(s.flights[f], s.draining);
    PlainListed(s.active, s.pending, f, s.flights[f], s.draining);
    PlainGuarded(c, s.reaper, s.world.now, s.pending, f, s.flights[f], s.draining);
    assert PlainStep(s, f).flights[f] == PlainFlight(s.flights[f], s.draining);
  }

  lemma PlainKeeps(c: Config, s: State, f: nat)
    requires LeasesOk(c, s) && s.up && f < |s.flights| && IsPlain(s.flights[f].pc)
    ensures LeasesOk(c, PlainStep(s, f))
  {
    var s' := PlainStep(s, f);
    assert forall g, h :: SameToken(s'.flights, g, h) ==> SameToken(s.flights, g, h);
    forall g: nat | g < |s'.flights|
      ensures FlightOk(c, s', g)
    {
      if g == f {
        PlainKeepsSelf(c, s, f);
      } else {
        PlainKeepsOthers(c, s, f, g);
      }
    }
  }

  // ----- Steps that change the ledger ---------------------------------------

  predicate SameRecord(row: RequestRow, row': RequestRow) {
    row'.status == row.status && row'.usage == row.usage && row'.notes == row.notes
  }

  /** The lease's own row survives, and stays reserved while it is owed. */
  predicate KeepsRow(rows: Requests, rows': Requests, fl: Flight) {
    HasLease(fl.pc) && fl.id in rows ==>
      && fl.id in rows' && rows'[fl.id].token == rows[fl.id].token && rows'[fl.id].created == rows[fl.id].created
      && (Owed(fl) && rows[fl.id].status == Reserved ==> rows'[fl.id].status == Reserved)
  }

  /** Final rows under a token are neither added nor rewritten. */
  ghost predicate KeepsRecords(rows: Requests, rows': Requests, token: string) {
    forall r :: r in rows' && rows'[r].token == token ==>
      r in rows && rows[r].token == token && (rows[r].status != Reserved ==> SameRecord(rows[r], rows'[r]))
  }

  lemma RecordsKept(rows: Requests, rows': Requests, fl: Flight)
    requires RecordOk(rows, fl) && (fl.commits == 1 ==> KeepsRecords(rows, rows', fl.token))
    ensures RecordOk(rows', fl)
  {
  }

  /** The ledger changed around a request that did not move. */
  lemma LedgerKeepsFlight(c: Config, s: State, s': State, g: nat)
    requires g < |s.flights| && g < |s'.flights| && s'.flights[g] == s.flights[g] && FlightOk(c, s, g)
    requires s'.active == s.active && s'.pending == s.pending && s'.reaper == s.reaper && s'.world.now == s.world.now
    requires KeepsRow(s.world.l.requests, s'.world.l.requests, s.flights[g])
    requires s.flights[g].commits == 1 ==> KeepsRecords(s.world.l.requests, s'.world.l.requests, s.flights[g].token)
    ensures FlightOk(c, s', g)
  {
    RecordsKept(s.world.l.requests, s'.world.l.requests, s.flights[g]);
  }

  /** Only the tables changed, in ways no request minds. */
  lemma LedgerKeepsLeases(c: Config, s: State, s': State)
    requires LeasesOk(c, s)
    requires s'.flights == s.flights && s'.up == s.up
    requires s'.active == s.active && s'.pending == s.pending && s'.reaper == s.reaper && s'.world.now == s.world.now
    requires forall g: nat :: g < |s.flights| ==> KeepsRow(s.world.l.requests, s'.world.l.requests, s.flights[g])
    requires forall g: nat :: g < |s.flights| && s.flights[g].commits == 1 ==>
               KeepsRecords(s.world.l.requests, s'.world.l.requests, s.flights[g].token)
    ensures LeasesOk(c, s')
  {
    forall g: nat | g < |s'.flights|
      ensures FlightOk(c, s', g)
    {
      assert FlightOk(c, s, g);
      LedgerKeepsFlight(c, s, s', g);
    }
  }

  // ----- Settling ------------------------------------------------------------

  /**
   * FinishReservation on behalf of a lease never answers "conflict" or "not
   * found": it settles the reserved pair, or finds exactly this outcome there.
   */
  lemma FinishOnLease(l: Ledger, fl: Flight, now: Time)
    requires TwoRow(l) && HasLease(fl.pc) && fl.frozen.Some?
    requires RowOk(l.requests, fl) && RecordOk(l.requests, fl) && fl.commits <= 1
    ensures var (l', result) := Finish(l, fl.id, fl.frozen.value, now);
            && (result.Settled? || result.AlreadySettled? || result.Invalid?)
            && (result.AlreadySettled? ==> fl.commits == 1)
            && (!result.Settled? ==> l' == l)
            && (result.Settled? ==>
                  && fl.commits == 0
                  && l'.requests == l.requests[fl.id := SettledRequest(l.requests[fl.id], Normalized(fl.frozen.value), now)])
  {
    if fl.commits == 0 {
      var k := ReservedPairIsUnique(l, fl.id);
    } else {
      assert Recorded(l.requests[fl.id], fl.frozen.value);
    }
  }

  lemma SettledIsRecorded(row: RequestRow, s: Settlement, now: Time)
    requires ValidSettlement(1, s)
    ensures Recorded(SettledRequest(row, Normalized(s), now), s)
  {
  }

  /** The settlement of one lease is invisible to every other. */
  lemma SettleKeepsOthers(c: Config, s: State, s': State, f: nat, g: nat, row: RequestRow)
    requires LeasesOk(c, s) && f < |s.flights| && g < |s.flights| && f != g && HasLease(s.flights[f].pc)
    requires |s'.flights| == |s.flights| && s'.flights == s.flights[f := s'.flights[f]]
    requires s'.active == s.active && s'.pending == s.pending && s'.reaper == s.reaper && s'.world.now == s.world.now
    requires row.token == s.flights[f].token && s'.world.l.requests == s.world.l.requests[s.flights[f].id := row]
    ensures FlightOk(c, s', g)
  {
    assert FlightOk(c, s, f) && FlightOk(c, s, g);
    assert !SameToken(s.flights, f, g);
    if HasLease(s.flights[g].pc) {
      IdsDiffer(c, s, f, g);
    }
    LedgerKeepsFlight(c, s, s', g);
  }

  /** The request's new standing after an attempt. */
  lemma SettleHistory(fl: Flight, fl': Flight)
    requires HistoryOk(fl) && fl.pc.Closing?
    requires fl'.pc.Closing? || fl'.pc.AddingPending? || (fl'.pc.Confirmed? && fl'.commits == 1)
    requires fl.commits <= fl'.commits <= 1
    requires fl.commits < fl'.commits ==> fl.frozen.Some? && ValidSettlement(fl.id, fl.frozen.value)
    requires fl' == fl.(pc := fl'.pc, commits := fl'.commits)
    ensures HistoryOk(fl')
  {
  }

  lemma SettleKeepsSelf(c: Config, s: State, s': State, f: nat)
    requires f < |s.flights| && f < |s'.flights| && FlightOk(c, s, f) && s.flights[f].pc.Closing?
    requires s'.active == s.active && s'.pending == s.pending && s'.reaper == s.reaper && s'.world.now == s.world.now
    requires HistoryOk(s'.flights[f]) && s'.flights[f].commits >= s.flights[f].commits
    requires s'.flights[f].pc.Closing? || s'.flights[f].pc.AddingPending? || s'.flights[f].pc.Confirmed?
    requires s'.flights[f] == s.flights[f].(pc := s'.flights[f].pc, commits := s'.flights[f].commits)
    requires RowOk(s'.world.l.requests, s'.flights[f]) && RecordOk(s'.world.l.requests, s'.flights[f])
    ensures FlightOk(c, s', f)
  {
  }

  /** What one attempt does to the request and the tables, case by case. */
  lemma SettleShape(s: State, f: nat, fault: Fault, expired: bool, after: Ledger, result: SettleResult)
    requires f < |s.flights| && s.flights[f].pc.Closing? && s.flights[f].frozen.Some?
    requires result.Settled? || result.AlreadySettled? || result.Invalid?
    ensures var s' := SettleStep(s, f, fault, expired, after, result);
            && |s'.flights| == |s.flights| && s'.flights == s.flights[f := s'.flights[f]]
            && s'.active == s.active && s'.pending == s.pending && s'.reaper == s.reaper && s'.up == s.up
            && s'.world == s.world.(l := if fault.LostBefore? then s.world.l else after)
            && s'.flights[f] == s.flights[f].(pc := s'.flights[f].pc, commits := s'.flights[f].commits)
            && (s'.flights[f].pc.Closing? || s'.flights[f].pc.AddingPending? || s'.flights[f].pc.Confirmed?)
            && s'.flights[f].commits == s.flights[f].commits + (if result.Settled? && !fault.LostBefore? then 1 else 0)
            && (s'.flights[f].pc.Confirmed? ==> fault.NoFault? && !result.Invalid?)
  {
  }

  lemma SettleKeeps(c: Config, s: State, s': State, f: nat, after: Ledger, result: SettleResult)
    requires LeasesOk(c, s) && s.up && TwoRow(s.world.l)
    requires f < |s.flights| && s.flights[f].pc.Closing? && s.flights[f].frozen.Some?
    requires (after, result) == Finish(s.world.l, s.flights[f].id, s.flights[f].frozen.value, s.world.now)
    requires |s'.flights| == |s.flights| && s'.flights == s.flights[f := s'.flights[f]]
    requires s'.active == s.active && s'.pending == s.pending && s'.reaper == s.reaper && s'.up == s.up
    requires s'.world == s.world || s'.world == s.world.(l := after)
    requires s'.flights[f] == s.flights[f].(pc := s'.flights[f].pc, commits := s'.flights[f].commits)
    requires s'.flights[f].pc.Closing? || s'.flights[f].pc.AddingPending? || (s'.flights[f].pc.Confirmed? && !result.Invalid?)
    requires s'.flights[f].pc.Confirmed? ==> s'.world.l == after
    requires s'.flights[f].commits == s.flights[f].commits + (if result.Settled? && s'.world.l == after then 1 else 0)
    ensures LeasesOk(c, s')
  {
    var fl, fl' := s.flights[f], s'.flights[f];
    assert FlightOk(c, s, f);
    FinishOnLease(s.world.l, fl, s.world.now);
    assert forall g, h :: SameToken(s'.flights, g, h) ==> SameToken(s.flights, g, h);
    SettleHistory(fl, fl');
    if result.Settled? && s'.world.l == after {
      SettledIsRecorded(s.world.l.requests[fl.id], fl.frozen.value, s.world.now);
      TokenOwnsOneRow(s.world.l, fl.id);
      SettleKeepsSelf(c, s, s', f);
      forall g: nat | g < |s'.flights|
        ensures FlightOk(c, s', g)
      {
        if g != f {
          SettleKeepsOthers(c, s, s', f, g, after.requests[fl.id]);
        }
      }
    } else {
      assert s'.world.l == s.world.l;
      SettleKeepsSelf(c, s, s', f);
      OnlyFlightKeeps(c, s, s', f);
    }
  }

  lemma TokenOwnsOneRow(l: Ledger, id: nat)
    requires TwoRow(l) && id in l.requests
    ensures forall r :: r in l.requests && l.requests[r].token == l.requests[id].token ==> r == id
  {
    forall r | r in l.requests && l.requests[r].token == l.requests[id].token
      ensures r == id
    {
      assert SameRequest(l, r, id);
    }
  }

  // ----- Reserving -------------------------------------------------------------

  /** A new pair is invisible to the requests that already have a token, and to those that have none yet. */
  lemma InsertKeepsOthers(c: Config, s: State, s': State, t: Ticket, g: nat)
    requires LeasesOk(c, s) && g < |s.flights| && g < |s'.flights| && s'.flights[g] == s.flights[g]
    requires s'.active == s.active && s'.pending == s.pending && s'.reaper == s.reaper && s'.world.now == s.world.now
    requires IdsBelowNext(s.world.l) && s'.world.l == Insert(s.world.l, t) && s.flights[g].token != t.token
    ensures FlightOk(c, s', g)
  {
    assert FlightOk(c, s, g);
    assert s.world.l.nextRequest !in s.world.l.requests;
    LedgerKeepsFlight(c, s, s', g);
  }

  /** A freshly reserved lease: its row is there, and it is too young for any cutoff the reaper may hold. */
  lemma ReservedIsOk(c: Config, s: State, s': State, f: nat, t: Ticket)
    requires Reasonable(c) && f < |s.flights| && FlightOk(c, s, f) && ReaperOk(c, s.reaper, s.world.now) && s.flights[f].pc.GotKey?
    requires s.world.now <= t.created + c.timing.gap && t.token != ""
    requires f < |s'.flights| && s'.world.l == Insert(s.world.l, t)
    requires s'.active == s.active && s'.pending == s.pending && s'.reaper == s.reaper && s'.world.now == s.world.now
    requires s'.flights[f] == s.flights[f].(pc := Registering, id := s.world.l.nextRequest, token := t.token,
                                            created := t.created, clientRequest := s'.flights[f].clientRequest)
    ensures FlightOk(c, s', f)
  {
  }

  lemma ReservingKeeps(c: Config, s: State, s': State, f: nat, t: Ticket)
    requires Reasonable(c) && LeasesOk(c, s) && s.up && IdsBelowNext(s.world.l) && f < |s.flights| && s.flights[f].pc.GotKey?
    requires s.world.now <= t.created + c.timing.gap && t.token != "" && TokenUnused(s, t.token)
    requires |s'.flights| == |s.flights| && s'.flights == s.flights[f := s'.flights[f]]
    requires s'.active == s.active && s'.pending == s.pending && s'.reaper == s.reaper && s'.up == s.up
    requires s'.world.l == Insert(s.world.l, t) && s'.world.now == s.world.now
    requires s'.flights[f] == s.flights[f].(pc := DropKey)
             || s'.flights[f] == s.flights[f].(pc := Registering, id := s.world.l.nextRequest, token := t.token,
                                               created := t.created, clientRequest := s'.flights[f].clientRequest)
    ensures LeasesOk(c, s')
  {
    assert FlightOk(c, s, f);
    assert forall g, h :: SameToken(s'.flights, g, h) ==> g == h || SameToken(s.flights, g, h);
    if s'.flights[f].pc.Registering? {
      ReservedIsOk(c, s, s', f, t);
    } else {
      GateMoveKeepsHistory(s.flights[f], s'.flights[f]);
      assert FlightOk(c, s', f);
    }
    forall g: nat | g < |s'.flights|
      ensures FlightOk(c, s', g)
    {
      if g != f {
        InsertKeepsOthers(c, s, s', t, g);
      }
    }
  }

  // ----- Reaping, pruning, deleting ----------------------------------------------

  /**
   * Reaper safety: whatever the reaper has armed itself with, its transaction
   * leaves the row of every lease that is still owed to the store unchanged.
   */
  lemma ReaperSparesLeases(c: Config, s: State, f: nat)
    requires LeasesOk(c, s) && s.reaper.Armed? && f < |s.flights| && Owed(s.flights[f])
    ensures s.flights[f].id in s.world.l.requests
    ensures Reap(s.world.l, s.reaper.cutoff, s.reaper.ids, s.world.now).requests[s.flights[f].id]
            == s.world.l.requests[s.flights[f].id]
  {
    assert FlightOk(c, s, f);
  }

  lemma ReapedKeeps(c: Config, s: State, s': State)
    requires LeasesOk(c, s) && s.reaper.Armed?
    requires s'.world == s.world.(l := Reap(s.world.l, s.reaper.cutoff, s.reaper.ids, s.world.now))
    requires s'.flights == s.flights && s'.up == s.up && s'.active == s.active && s'.pending == s.pending
    requires s'.reaper == s.reaper
    ensures LeasesOk(c, s')
  {
    var rows, rows' := s.world.l.requests, s'.world.l.requests;
    forall g: nat | g < |s.flights|
      ensures KeepsRow(rows, rows', s.flights[g])
      ensures s.flights[g].commits == 1 ==> KeepsRecords(rows, rows', s.flights[g].token)
    {
      if Owed(s.flights[g]) {
        ReaperSparesLeases(c, s, g);
      }
    }
    LedgerKeepsLeases(c, s, s');
  }

  lemma IdleReaperKeeps(c: Config, s: State)
    requires LeasesOk(c, s)
    ensures LeasesOk(c, s.(reaper := Idle))
  {
    forall g: nat | g < |s.flights|
      ensures FlightOk(c, s.(reaper := Idle), g)
    {
      assert FlightOk(c, s, g);
    }
  }

  /** Each snapshot leaves every owed lease covered: listed, still pending, or young. */
  lemma ReaperStepGuards(c: Config, s: State, f: nat)
    requires Reasonable(c) && f < |s.flights| && FlightOk(c, s, f) && ReaperOk(c, s.reaper, s.world.now)
    ensures GuardedOk(c, ReaperStep(c, s), s.world.now, s.pending, s.flights[f])
  {
  }

  lemma ReapingKeeps(c: Config, s: State)
    requires Reasonable(c) && LeasesOk(c, s)
    ensures LeasesOk(c, s.(reaper := ReaperStep(c, s)))
  {
    var s' := s.(reaper := ReaperStep(c, s));
    forall g: nat | g < |s.flights|
      ensures FlightOk(c, s', g)
    {
      assert FlightOk(c, s, g);
      ReaperStepGuards(c, s, g);
    }
  }

  lemma PruningKeeps(c: Config, s: State, s': State, cutoff: Time)
    requires LeasesOk(c, s)
    requires forall g: nat :: g < |s.flights| && Unconfirmed(s.flights[g]) ==> cutoff <= s.flights[g].created
    requires s'.world == s.world.(l := Prune(s.world.l, cutoff))
    requires s'.flights == s.flights && s'.up == s.up && s'.active == s.active && s'.pending == s.pending && s'.reaper == s.reaper
    ensures LeasesOk(c, s')
  {
    forall g: nat | g < |s.flights|
      ensures KeepsRow(s.world.l.requests, s'.world.l.requests, s.flights[g])
    {
      assert FlightOk(c, s, g);
    }
    LedgerKeepsLeases(c, s, s');
  }

  lemma DeletingKeeps(c: Config, s: State, s': State, keys: set<nat>, models: set<nat>, providers: set<nat>)
    requires LeasesOk(c, s)
    requires s'.world == s.world.(l := Delete(s.world.l, keys, models, providers))
    requires s'.flights == s.flights && s'.up == s.up && s'.active == s.active && s'.pending == s.pending && s'.reaper == s.reaper
    ensures LeasesOk(c, s')
  {
    LedgerKeepsLeases(c, s, s');
  }

  lemma ReissuingKeeps(c: Config, s: State, s': State, nextRequest: nat, nextKeyRow: nat)
    requires LeasesOk(c, s)
    requires s'.world == s.world.(l := ReuseIds(s.world.l, nextRequest, nextKeyRow))
    requires s'.flights == s.flights && s'.up == s.up && s'.active == s.active && s'.pending == s.pending && s'.reaper == s.reaper
    ensures LeasesOk(c, s')
  {
    LedgerKeepsLeases(c, s, s');
  }

  lemma TickingKeeps(c: Config, s: State, s': State, to: Time)
    requires LeasesOk(c, s) && s.world.now <= to
    requires forall g: nat :: g < |s.flights| && s.flights[g].pc.Registering? ==> to <= s.flights[g].created + c.timing.gap
    requires s.reaper.SawActive? || s.reaper.SawBoth? ==> to <= s.reaper.at + c.delay
    requires s'.world == s.world.(now := to)
    requires s'.flights == s.flights && s'.up == s.up && s'.active == s.active && s'.pending == s.pending && s'.reaper == s.reaper
    ensures LeasesOk(c, s')
  {
    forall g: nat | g < |s.flights|
      ensures FlightOk(c, s', g)
    {
      assert FlightOk(c, s, g);
    }
  }
}
