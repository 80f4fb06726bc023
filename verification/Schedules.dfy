/**
 * Runs of the relay that show why the assumptions are there, each a schedule
 * from the initial state, step by step.
 */
module Schedules {
  import opened Base
  import opened Ledger
  import opened Admission
  import opened LedgerRuns
  import opened Gates
  import opened Outcomes
  import opened System
  import RateLimit

  ghost predicate Reaches(c: Config, start: Time, limit: int, acts: seq<Action>, s: State) {
    Exec(c, Init(start, limit), acts) == s
  }

  lemma Extend(c: Config, start: Time, limit: int, acts: seq<Action>, s: State, a: Action, s': State)
    requires Reaches(c, start, limit, acts, s) && Enabled(c, s, a) && Next(c, s, a) == s'
    ensures Reaches(c, start, limit, acts + [a], s')
  {
    assert (acts + [a])[..|acts|] == acts;
  }

  // ----- One request on its way ----------------------------------------------------

  function Request(pc: Pc): Flight { Flight(1, pc, 0, 0, "", 0, "", None, false, None, 0, 0, 0, 0) }

  function Waited(c: Config, start: Time): World { Start(start).(now := start + c.timing.gap) }

  /** The gates while the request is outside its key's gate, and the pass of time at the beginning. */
  function Outside(c: Config, start: Time, limit: int, taken: nat, fl: Flight): State {
    State(Waited(c, start), [Pass(start + c.timing.gap)], GateState(AtLeastOne(limit), taken), NO_GATES, {}, map[], false, [fl], Idle, true)
  }

  function KeyGate(active: nat): Registry { Registry(map[1 := 0], map[0 := Entry(GateState(1, active), 1)], 1) }

  function Inside(c: Config, start: Time, limit: int, active: nat, pc: Pc): State {
    Outside(c, start, limit, 1, Request(pc)).(reg := KeyGate(active))
  }

  lemma WaitsAndArrives(c: Config, start: Time, limit: int) returns (acts: seq<Action>)
    ensures Reaches(c, start, limit, acts, Outside(c, start, limit, 0, Request(Arrived)))
  {
    var waited := Outside(c, start, limit, 0, Request(Arrived)).(flights := []);
    assert [] + [Pass(start + c.timing.gap)] == [Pass(start + c.timing.gap)];
    Extend(c, start, limit, [], Init(start, limit), Ticking(start + c.timing.gap), waited);
    Extend(c, start, limit, [] + [Ticking(start + c.timing.gap)], waited, Arrive(1), Outside(c, start, limit, 0, Request(Arrived)));
    acts := [] + [Ticking(start + c.timing.gap)] + [Arrive(1)];
  }

  lemma TakesGlobal(c: Config, start: Time, limit: int)
    ensures var s := Outside(c, start, limit, 0, Request(Arrived));
            Enabled(c, s, Turn(0)) && Next(c, s, Turn(0)) == Outside(c, start, limit, 1, Request(GotGlobal))
  {
  }

  lemma PassesCheck(c: Config, start: Time, limit: int)
    ensures var s := Outside(c, start, limit, 1, Request(GotGlobal));
            Enabled(c, s, Turn(0)) && Next(c, s, Turn(0)) == Outside(c, start, limit, 1, Request(Checked))
  {
  }

  lemma EntersKey(c: Config, start: Time, limit: int)
    ensures var s := Outside(c, start, limit, 1, Request(Checked));
            Enabled(c, s, EnterKey(0, 1)) && Next(c, s, EnterKey(0, 1)) == Inside(c, start, limit, 0, KeyTried)
  {
  }

  lemma TakesKey(c: Config, start: Time, limit: int)
    ensures var s := Inside(c, start, limit, 0, KeyTried);
            Enabled(c, s, Turn(0)) && Next(c, s, Turn(0)) == Inside(c, start, limit, 1, GotKey)
  {
  }

  lemma ReachesKey(c: Config, start: Time, limit: int) returns (acts: seq<Action>)
    ensures Reaches(c, start, limit, acts, Inside(c, start, limit, 1, GotKey))
  {
    acts := WaitsAndArrives(c, start, limit);
    TakesGlobal(c, start, limit);
    Extend(c, start, limit, acts, Outside(c, start, limit, 0, Request(Arrived)), Turn(0), Outside(c, start, limit, 1, Request(GotGlobal)));
    acts := acts + [Turn(0)];
    PassesCheck(c, start, limit);
    Extend(c, start, limit, acts, Outside(c, start, limit, 1, Request(GotGlobal)), Turn(0), Outside(c, start, limit, 1, Request(Checked)));
    acts := acts + [Turn(0)];
    EntersKey(c, start, limit);
    Extend(c, start, limit, acts, Outside(c, start, limit, 1, Request(Checked)), EnterKey(0, 1), Inside(c, start, limit, 0, KeyTried));
    acts := acts + [EnterKey(0, 1)];
    TakesKey(c, start, limit);
    Extend(c, start, limit, acts, Inside(c, start, limit, 0, KeyTried), Turn(0), Inside(c, start, limit, 1, GotKey));
    acts := acts + [Turn(0)];
  }

  /** The ledger with the one reservation, dated at the start. */
  function Booked(start: Time): Ledger { Reserve(EMPTY, RateLimit.Call(start), RateLimit.ONE_PER_MINUTE) }

  function Lease(start: Time, pc: Pc): Flight { Request(pc).(id := 1, token := "t", created := start) }

  function Booking(start: Time): Step { Admit(RateLimit.Call(start), RateLimit.ONE_PER_MINUTE) }

  /** The reservation is committed and its lease about to be registered, or registered; the reaper stands at `reaper`. */
  function Leased(c: Config, start: Time, limit: int, pc: Pc, active: set<int>, reaper: Reaper): State {
    State(World(Booked(start), start + c.timing.gap, start, [start]), [Pass(start + c.timing.gap), Booking(start)],
          GateState(AtLeastOne(limit), 1), KeyGate(1), active, map[], false, [Lease(start, pc)], reaper, true)
  }

  function Transaction(start: Time): Action { Transact(0, RateLimit.Call(start), RateLimit.ONE_PER_MINUTE, "", NoFault) }

  lemma Books(c: Config, start: Time, limit: int)
    ensures var s := Inside(c, start, limit, 1, GotKey);
            Enabled(c, s, Transaction(start)) && Next(c, s, Transaction(start)) == Leased(c, start, limit, Registering, {}, Idle)
  {
    RateLimit.CallIsAdmitted(EMPTY, start);
    assert [] + [start] == [start];
    assert [Pass(start + c.timing.gap)] + [Booking(start)] == [Pass(start + c.timing.gap), Booking(start)];
  }

  lemma ReachesLease(c: Config, start: Time, limit: int) returns (acts: seq<Action>)
    ensures Reaches(c, start, limit, acts, Leased(c, start, limit, Registering, {}, Idle))
  {
    acts := ReachesKey(c, start, limit);
    Books(c, start, limit);
    Extend(c, start, limit, acts, Inside(c, start, limit, 1, GotKey), Transaction(start), Leased(c, start, limit, Registering, {}, Idle));
    acts := acts + [Transaction(start)];
  }

  // ----- A slow reaper ------------------------------------------------------------

  lemma Registers(c: Config, start: Time, limit: int, reaper: Reaper)
    ensures var s := Leased(c, start, limit, Registering, {}, reaper);
            Enabled(c, s, Turn(0)) && Next(c, s, Turn(0)) == Leased(c, start, limit, Live, {1}, reaper)
  {
  }

  lemma Looks(c: Config, start: Time, limit: int, pc: Pc, active: set<int>, reaper: Reaper)
    ensures var s := Leased(c, start, limit, pc, active, reaper);
            Enabled(c, s, Reaping) && Next(c, s, Reaping) == Leased(c, start, limit, pc, active, ReaperStep(c, s))
  {
  }

  lemma NobodyPending()
    ensures var nothing: set<int>, nobody: map<int, nat> := {}, map[]; nothing + nobody.Keys == nothing
  {
  }

  /** The reaper read the active set before the lease was in it, and the pending set after. */
  lemma ReachesBlindReaper(c: Config, start: Time, limit: int) returns (acts: seq<Action>)
    ensures Reaches(c, start, limit, acts, Leased(c, start, limit, Live, {1}, SawBoth({}, start + c.timing.gap)))
  {
    var first, both := SawActive({}, start + c.timing.gap), SawBoth({}, start + c.timing.gap);
    acts := ReachesLease(c, start, limit);
    Looks(c, start, limit, Registering, {}, Idle);
    Extend(c, start, limit, acts, Leased(c, start, limit, Registering, {}, Idle), Reaping, Leased(c, start, limit, Registering, {}, first));
    acts := acts + [Reaping];
    Registers(c, start, limit, first);
    Extend(c, start, limit, acts, Leased(c, start, limit, Registering, {}, first), Turn(0), Leased(c, start, limit, Live, {1}, first));
    acts := acts + [Turn(0)];
    Looks(c, start, limit, Live, {1}, first);
    NobodyPending();
    Extend(c, start, limit, acts, Leased(c, start, limit, Live, {1}, first), Reaping, Leased(c, start, limit, Live, {1}, both));
    acts := acts + [Reaping];
  }

  function Delayed(c: Config, start: Time, limit: int, reaper: Reaper): State {
    var s := Leased(c, start, limit, Live, {1}, reaper);
    var now := start + c.timing.gap + c.delay;
    s.(world := s.world.(now := now), log := s.log + [Pass(now)])
  }

  lemma Delays(c: Config, start: Time, limit: int)
    ensures var both := SawBoth({}, start + c.timing.gap);
            var s, tick := Leased(c, start, limit, Live, {1}, both), Ticking(start + c.timing.gap + c.delay);
            Enabled(c, s, tick) && Next(c, s, tick) == Delayed(c, start, limit, both)
  {
  }

  lemma Arms(c: Config, start: Time, limit: int)
    ensures var s := Delayed(c, start, limit, SawBoth({}, start + c.timing.gap));
            Enabled(c, s, Reaping)
            && Next(c, s, Reaping) == Delayed(c, start, limit, Armed({}, start + c.timing.gap + c.delay - c.reapAge))
  {
  }

  lemma BookedRow(start: Time, cutoff: Time, now: Time)
    requires start < cutoff
    ensures var l := Booked(start); 1 in l.requests && Reap(l, cutoff, {}, now).requests[1].status == Aborted
  {
    RateLimit.CallIsAdmitted(EMPTY, start);
  }

  /**
   * The condition on the reap age is exact. For every configuration in which the
   * time a request may take to register and the time the reaper may take to
   * compute its cutoff together exceed the reap age, there is a run at whose end
   * the reaper aborts a lease that is registered and live.
   */
  lemma SlowReaperAbortsLiveLease(c: Config, start: Time, limit: int) returns (acts: seq<Action>)
    requires c.timing.gap + c.delay > c.reapAge
    ensures var s := Exec(c, Init(start, limit), acts);
            && Enabled(c, s, Reaped)
            && |s.flights| == 1 && s.flights[0].pc == Live && s.flights[0].id in s.active && s.flights[0].id in s.world.l.requests
            && Next(c, s, Reaped).world.l.requests[s.flights[0].id].status == Aborted
  {
    acts := ReachesBlindReaper(c, start, limit);
    var both, armed := SawBoth({}, start + c.timing.gap), Armed({}, start + c.timing.gap + c.delay - c.reapAge);
    Delays(c, start, limit);
    Extend(c, start, limit, acts, Leased(c, start, limit, Live, {1}, both), Ticking(start + c.timing.gap + c.delay), Delayed(c, start, limit, both));
    acts := acts + [Ticking(start + c.timing.gap + c.delay)];
    Arms(c, start, limit);
    Extend(c, start, limit, acts, Delayed(c, start, limit, both), Reaping, Delayed(c, start, limit, armed));
    acts := acts + [Reaping];
    BookedRow(start, armed.cutoff, start + c.timing.gap + c.delay);
  }

  // ----- Closing the lease --------------------------------------------------------

  function Closed(c: Config, start: Time, limit: int, s: Settlement): State {
    Leased(c, start, limit, Live, {1}, Idle).(flights := [Lease(start, Closing(0)).(frozen := Some(s), first := Some(s))])
  }

  lemma Closes(c: Config, start: Time, limit: int, s: Settlement)
    requires s.clientRequest == ""
    ensures var live, close := Leased(c, start, limit, Live, {1}, Idle), Close(0, Outcome(Some(s.status), s), None);
            Enabled(c, live, close) && Next(c, live, close) == Closed(c, start, limit, s)
  {
  }

  /** Any outcome can be frozen by a live lease, valid or not. */
  lemma ReachesClosed(c: Config, start: Time, limit: int, s: Settlement) returns (acts: seq<Action>)
    requires s.clientRequest == ""
    ensures Reaches(c, start, limit, acts, Closed(c, start, limit, s))
  {
    acts := ReachesLease(c, start, limit);
    Registers(c, start, limit, Idle);
    Extend(c, start, limit, acts, Leased(c, start, limit, Registering, {}, Idle), Turn(0), Leased(c, start, limit, Live, {1}, Idle));
    acts := acts + [Turn(0)];
    Closes(c, start, limit, s);
    Extend(c, start, limit, acts, Leased(c, start, limit, Live, {1}, Idle), Close(0, Outcome(Some(s.status), s), None), Closed(c, start, limit, s));
    acts := acts + [Close(0, Outcome(Some(s.status), s), None)];
  }

  lemma Commits(c: Config, start: Time, limit: int, s: Settlement)
    requires ValidSettlement(1, s)
    ensures var closed, lost := Closed(c, start, limit, s), Settling(0, LostAfter(false), false);
            && Enabled(c, closed, lost)
            && |Next(c, closed, lost).flights| == 1 && Unconfirmed(Next(c, closed, lost).flights[0])
  {
    RateLimit.CallIsAdmitted(EMPTY, start);
    assert NewestReserved(Booked(start).keyRows, "t", 2) == Some(1);
  }

  /** A commit whose answer is lost leaves a lease settled in the ledger and unconfirmed in the process. */
  lemma CommitCanGoUnconfirmed(c: Config, start: Time, limit: int, s: Settlement) returns (acts: seq<Action>)
    requires ValidSettlement(1, s) && s.clientRequest == ""
    ensures var final := Exec(c, Init(start, limit), acts); |final.flights| == 1 && Unconfirmed(final.flights[0])
  {
    acts := ReachesClosed(c, start, limit, s);
    Commits(c, start, limit, s);
    var lost := Settling(0, LostAfter(false), false);
    Extend(c, start, limit, acts, Closed(c, start, limit, s), lost, Next(c, Closed(c, start, limit, s), lost));
    acts := acts + [lost];
  }
}
