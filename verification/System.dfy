/**
 * The relay as one transition system: requests taking and giving back their
 * slots, the reservation transaction, `Lease.Close` with its retries, the
 * reconciler, the reaper, pruning, deletes, crashes and recovery, interleaved
 * at the granularity of the source's critical sections.
 */
module System {
  import opened Base
  import opened Ledger
  import opened Admission
  import opened LedgerRuns
  import opened Gates
  import opened Outcomes

  /**
   * Where a request stands. `Reject` ends it before it holds anything (draining,
   * authentication, validation). Up to `DropGlobal` it is inside Begin; from
   * `Registering` on it owns a lease. `Live` is a lease whose lock is free,
   * `Closing` and later states hold it.
   */
  datatype Pc =
    | Arrived
    | GotGlobal | Checked | KeyTried | KeyLost | GotKey | DropKey | DropGlobal
    | TurnedAway
    | Registering
    | Live
    | Closing(attempt: nat)
    | AddingPending | LeavingActive
    | Confirmed | OutOfPending | OutOfActive | OutOfKey
    | Done

  /** One Begin call and the lease it may become; the last line is history. */
  datatype Flight = Flight(
    key: nat, pc: Pc, entry: nat,
    id: nat, token: string, created: Time, clientRequest: string,
    frozen: Option<Settlement>, wasPending: bool,
    first: Option<Settlement>, commits: nat, refusals: nat, keyReleases: nat, globalReleases: nat)

  datatype Reaper = Idle | SawActive(ids: set<int>, at: Time) | SawBoth(ids: set<int>, at: Time) | Armed(ids: set<int>, cutoff: Time)

  datatype State = State(
    world: World, log: seq<Step>,
    global: GateState, reg: Registry,
    active: set<int>, pending: map<int, nat>, draining: bool,
    flights: seq<Flight>, reaper: Reaper, up: bool)

  /**
   * `reapAge` is the age at which a reservation may be reaped; `delay` bounds
   * the reaper's own time from its first snapshot to computing the cutoff.
   */
  datatype Config = Config(timing: Timing, reapAge: nat, delay: nat)

  predicate Reasonable(c: Config) { Sane(c.timing) && c.timing.gap + c.delay <= c.reapAge }

  /** A store call may lose its answer before or after the commit, with an error worth retrying or not. */
  datatype Fault = NoFault | LostBefore(retryable: bool) | LostAfter(retryable: bool)

  datatype Action =
    | Arrive(key: nat)
    | Reject(f: nat)
    | Turn(f: nat)
    | EnterKey(f: nat, limit: int)
    | Transact(f: nat, d: Demand, p: Policy, clientRequest: string, fault: Fault)
    | Close(f: nat, outcome: Outcome, trace: Option<Trace>)
    | Retry(f: nat)
    | Settling(f: nat, fault: Fault, expired: bool)
    | Reaping
    | Reaped
    | Pruning(cutoff: Time)
    | Deleting(keys: set<nat>, models: set<nat>, providers: set<nat>)
    | Reissuing(nextRequest: nat, nextKeyRow: nat)
    | Ticking(to: Time)
    | Limiting(limit: int)
    | Draining
    | Crash
    | Recover(cutoff: Time)

  function Init(now: Time, limit: int): State {
    State(Start(now), [], Fresh(limit), NO_GATES, {}, map[], false, [], Idle, true)
  }

  // ----- Classes of program counters --------------------------------------

  predicate HoldsGlobal(pc: Pc) { !pc.Arrived? && !pc.TurnedAway? && !pc.Done? }

  /** Own a slot of the key's gate. */
  predicate HoldsKey(pc: Pc) {
    pc.GotKey? || pc.DropKey? || (HasLease(pc) && !pc.OutOfKey?)
  }

  /** Refer to the key's entry: holders and attempts under way. */
  predicate RefersToKey(pc: Pc) { HoldsKey(pc) || pc.KeyTried? || pc.KeyLost? }

  /** The lease exists and its final Close has not returned. */
  predicate HasLease(pc: Pc) {
    pc.Registering? || Unsettled(pc) || pc.Confirmed? || pc.OutOfPending? || pc.OutOfActive? || pc.OutOfKey?
  }

  /** Registered, and the store has not confirmed a settlement. */
  predicate Unsettled(pc: Pc) { pc.Live? || pc.Closing? || pc.AddingPending? || pc.LeavingActive? }

  /** The store has confirmed the settlement: `settled` is true. */
  predicate SettledPc(pc: Pc) {
    pc.Confirmed? || pc.OutOfPending? || pc.OutOfActive? || pc.OutOfKey? || pc.Done?
  }

  /** The settlement is committed, but the final Close has not returned. */
  predicate Unconfirmed(fl: Flight) { HasLease(fl.pc) && fl.commits == 1 }

  // ----- Steps -------------------------------------------------------------

  /** A ledger transaction of some request or background task: the new tables, and a note of the step. */
  function Log(s: State, after: Ledger, step: Step): State {
    s.(world := s.world.(l := after), log := s.log + [step])
  }

  function LogAdmit(s: State, t: Ticket, step: Step): State {
    s.(world := World(Insert(s.world.l, t), s.world.now, t.created, s.world.admitted + [t.created]), log := s.log + [step])
  }

  function Put(s: State, f: nat, fl: Flight): State
    requires f < |s.flights|
  {
    s.(flights := s.flights[f := fl])
  }

  predicate KeyLinked(s: State, fl: Flight) {
    fl.key in s.reg.gates && s.reg.gates[fl.key] in s.reg.entries
  }

  /** Sections that touch no gate: the draining check, and the bookkeeping in the active and pending sets. */
  predicate IsPlain(pc: Pc) {
    pc.GotGlobal? || pc.Registering? || pc.AddingPending? || pc.LeavingActive? || pc.Confirmed? || pc.OutOfPending?
  }

  function PlainPc(pc: Pc, draining: bool): Pc
    requires IsPlain(pc)
  {
    match pc
    case GotGlobal => if draining then DropGlobal else Checked
    case Registering => Live
    case AddingPending => LeavingActive
    case LeavingActive => Live
    case Confirmed => OutOfPending
    case OutOfPending => OutOfActive
  }

  function PlainActive(active: set<int>, fl: Flight): set<int> {
    if fl.pc.Registering? then active + {fl.id}
    else if fl.pc.LeavingActive? || fl.pc.OutOfPending? then active - {fl.id}
    else active
  }

  function PlainPending(pending: map<int, nat>, f: nat, fl: Flight): map<int, nat> {
    if fl.pc.AddingPending? then pending[fl.id := f]
    else if fl.pc.Confirmed? then pending - {fl.id}
    else pending
  }

  function PlainStep(s: State, f: nat): State
    requires f < |s.flights| && IsPlain(s.flights[f].pc)
  {
    var fl := s.flights[f];
    s.(active := PlainActive(s.active, fl), pending := PlainPending(s.pending, f, fl),
       flights := s.flights[f := fl.(pc := PlainPc(fl.pc, s.draining), wasPending := fl.wasPending || fl.pc.LeavingActive?)])
  }

  /** A request moves on by itself: each turn is one critical section of Begin or Close. */
  predicate CanTurn(s: State, fl: Flight) {
    || IsPlain(fl.pc)
    || fl.pc.Arrived? || fl.pc.DropGlobal? || fl.pc.OutOfKey?
    || ((fl.pc.KeyTried? || fl.pc.KeyLost?) && fl.entry in s.reg.entries)
    || ((fl.pc.DropKey? || fl.pc.OutOfActive?) && (fl.key in s.reg.gates ==> KeyLinked(s, fl)))
  }

  function TurnStep(s: State, f: nat): State
    requires f < |s.flights| && CanTurn(s, s.flights[f])
  {
    var fl := s.flights[f];
    if IsPlain(fl.pc) then PlainStep(s, f)
    else if fl.pc.Arrived? then
      var (g, ok) := Try(s.global);
      Put(s.(global := g), f, fl.(pc := if ok then GotGlobal else TurnedAway))
    else if fl.pc.KeyTried? then
      var (reg, ok) := Attempt(s.reg, fl.entry);
      Put(s.(reg := reg), f, fl.(pc := if ok then GotKey else KeyLost))
    else if fl.pc.KeyLost? then Put(s.(reg := Leave(s.reg, fl.key, fl.entry)), f, fl.(pc := DropGlobal))
    else if fl.pc.DropKey? then Put(s.(reg := Release(s.reg, fl.key)), f, fl.(pc := DropGlobal))
    else if fl.pc.OutOfActive? then
      Put(s.(reg := Release(s.reg, fl.key)), f, fl.(pc := OutOfKey, keyReleases := fl.keyReleases + 1))
    else if fl.pc.DropGlobal? then Put(s.(global := Free(s.global)), f, fl.(pc := TurnedAway))
    else Put(s.(global := Free(s.global)), f, fl.(pc := Done, globalReleases := fl.globalReleases + 1))
  }

  /** The reservation transaction. A lost answer after the commit leaves an orphan for the reaper. */
  function TransactStep(s: State, f: nat, step: Step, clientRequest: string, fault: Fault, decision: Decision): State
    requires f < |s.flights|
  {
    var fl := s.flights[f];
    if fault.LostBefore? || decision.Refused? then Put(s, f, fl.(pc := DropKey))
    else
      var t := decision.ticket;
      if fault.LostAfter? then Put(LogAdmit(s, t, step), f, fl.(pc := DropKey))
      else
        Put(LogAdmit(s, t, step), f,
            fl.(pc := Registering, id := s.world.l.nextRequest, token := t.token, created := t.created,
                clientRequest := clientRequest))
  }

  /** Close takes the lease's lock and freezes the outcome on the first call. */
  function CloseStep(s: State, f: nat, outcome: Outcome, trace: Option<Trace>): State
    requires f < |s.flights|
  {
    var fl := s.flights[f];
    var base := if fl.frozen.Some? then fl.frozen.value else Freeze(outcome);
    var kept := Enrich(base, fl.clientRequest, trace);
    Put(s, f, fl.(pc := Closing(0), frozen := Some(kept), first := if fl.first.Some? then fl.first else Some(kept)))
  }

  /** One attempt of settleWithRetry; at most three, and only busy or locked errors are retried. */
  function SettleStep(s: State, f: nat, fault: Fault, expired: bool, after: Ledger, result: SettleResult): State
    requires f < |s.flights| && s.flights[f].pc.Closing? && s.flights[f].frozen.Some?
  {
    var fl := s.flights[f];
    var settle := LedgerRuns.Settle(fl.id, fl.frozen.value);
    var commits := fl.commits + if result.Settled? then 1 else 0;
    var again := if expired || fl.pc.attempt >= 2 then AddingPending else Closing(fl.pc.attempt + 1);
    match fault
    case NoFault =>
      if result.Settled? || result.AlreadySettled? then Put(Log(s, after, settle), f, fl.(pc := Confirmed, commits := commits))
      else
        Put(Log(s, after, settle), f,
            fl.(pc := AddingPending, refusals := fl.refusals + if result.Invalid? then 0 else 1))
    case LostBefore(retryable) => Put(s, f, fl.(pc := if retryable then again else AddingPending))
    case LostAfter(retryable) =>
      Put(Log(s, after, settle), f, fl.(commits := commits, pc := if retryable then again else AddingPending))
  }

  function FinishNow(s: State, f: nat): (Ledger, SettleResult)
    requires f < |s.flights| && s.flights[f].frozen.Some?
  {
    Finish(s.world.l, s.flights[f].id, s.flights[f].frozen.value, s.world.now)
  }

  /** The reaper's sections before its transaction: both snapshots, then the cutoff. */
  function ReaperStep(c: Config, s: State): Reaper {
    match s.reaper
    case Idle => SawActive(s.active, s.world.now)
    case SawActive(ids, at) => SawBoth(ids + s.pending.Keys, at)
    case SawBoth(ids, _) => Armed(ids, s.world.now - c.reapAge)
    case Armed(_, _) => Idle
  }

  function ArriveStep(s: State, key: nat): State {
    s.(flights := s.flights + [Flight(key, Arrived, 0, 0, "", 0, "", None, false, None, 0, 0, 0, 0)])
  }

  function EnterStep(s: State, f: nat, limit: int): State
    requires f < |s.flights| && (s.flights[f].key in s.reg.gates ==> KeyLinked(s, s.flights[f]))
  {
    var fl := s.flights[f];
    if fl.key == 0 then Put(s, f, fl.(pc := DropGlobal))
    else
      var (reg, e) := Enter(s.reg, fl.key, AtLeastOne(limit));
      Put(s.(reg := reg), f, fl.(pc := KeyTried, entry := e))
  }

  /** The process dies: memory is gone, the ledger stays. */
  function CrashStep(s: State): State {
    State(s.world, s.log, Fresh(s.global.limit), NO_GATES, {}, map[], false, [], Idle, false)
  }

  /** A token is drawn at random for each request and has not been used before. */
  predicate TokenUnused(s: State, token: string) {
    forall g :: 0 <= g < |s.flights| ==> s.flights[g].token != token
  }

  /** A Close after the first one comes without a trace, or with one that has nothing to add. */
  predicate SafeTrace(fl: Flight, trace: Option<Trace>) {
    fl.frozen.None? || trace.None? || AddsNothing(fl.frozen.value, trace.value)
  }

  predicate At(s: State, f: nat) { s.up && f < |s.flights| }

  predicate Enabled(c: Config, s: State, a: Action) {
    match a
    case Arrive(_) => s.up
    case Reject(f) => At(s, f) && s.flights[f].pc.Arrived?
    case Turn(f) => At(s, f) && CanTurn(s, s.flights[f])
    case EnterKey(f, _) =>
      At(s, f) && s.flights[f].pc.Checked? && (s.flights[f].key in s.reg.gates ==> KeyLinked(s, s.flights[f]))
    case Transact(f, d, p, _, _) =>
      && At(s, f) && s.flights[f].pc.GotKey? && d.key == s.flights[f].key
      && Possible(c.timing, s.world, Admit(d, p))
      && TokenUnused(s, d.token)
    case Close(f, _, trace) => At(s, f) && s.flights[f].pc.Live? && SafeTrace(s.flights[f], trace)
    case Retry(f) => At(s, f) && s.flights[f].pc.Live? && s.flights[f].wasPending
    case Settling(f, _, _) => At(s, f) && s.flights[f].pc.Closing? && s.flights[f].frozen.Some?
    case Reaping => s.up
    case Reaped => s.up && s.reaper.Armed?
    case Pruning(cutoff) =>
      && s.up && Possible(c.timing, s.world, Retire(cutoff))
      && (forall g :: 0 <= g < |s.flights| && Unconfirmed(s.flights[g]) ==> cutoff <= s.flights[g].created)
    case Deleting(_, _, _) => s.up
    case Reissuing(_, _) => s.up
    case Ticking(to) =>
      && s.world.now <= to
      && (forall g :: 0 <= g < |s.flights| && s.flights[g].pc.Registering? ==> to <= s.flights[g].created + c.timing.gap)
      && (s.reaper.SawActive? || s.reaper.SawBoth? ==> to <= s.reaper.at + c.delay)
    case Limiting(_) => s.up
    case Draining => s.up
    case Crash => true
    case Recover(cutoff) => !s.up && s.world.now < cutoff
  }

  function Next(c: Config, s: State, a: Action): State
    requires Enabled(c, s, a)
  {
    match a
    case Arrive(key) => ArriveStep(s, key)
    case Reject(f) => Put(s, f, s.flights[f].(pc := TurnedAway))
    case Turn(f) => TurnStep(s, f)
    case EnterKey(f, limit) => EnterStep(s, f, limit)
    case Transact(f, d, p, client, fault) => TransactStep(s, f, Admit(d, p), client, fault, Decide(s.world.l, d, p))
    case Close(f, outcome, trace) => CloseStep(s, f, outcome, trace)
    case Retry(f) => CloseStep(s, f, BLANK, None)
    case Settling(f, fault, expired) => SettleStep(s, f, fault, expired, FinishNow(s, f).0, FinishNow(s, f).1)
    case Reaping => s.(reaper := ReaperStep(c, s))
    case Reaped =>
      Log(s, Reap(s.world.l, s.reaper.cutoff, s.reaper.ids, s.world.now), Abort(s.reaper.cutoff, s.reaper.ids)).(reaper := Idle)
    case Pruning(cutoff) => Log(s, Prune(s.world.l, cutoff), Retire(cutoff))
    case Deleting(keys, models, providers) => Log(s, Delete(s.world.l, keys, models, providers), Remove(keys, models, providers))
    case Reissuing(nr, nk) => Log(s, ReuseIds(s.world.l, nr, nk), Reissue(nr, nk))
    case Ticking(to) => s.(world := s.world.(now := to), log := s.log + [Pass(to)])
    case Limiting(limit) => s.(global := s.global.(limit := AtLeastOne(limit)))
    case Draining => s.(draining := true)
    case Crash => CrashStep(s)
    case Recover(cutoff) => Log(s, Reap(s.world.l, cutoff, {}, s.world.now), Abort(cutoff, {})).(up := true)
  }

  /** A run is any sequence of actions; one that is not enabled when its turn comes does nothing. */
  function Exec(c: Config, s: State, acts: seq<Action>): State {
    if acts == [] then s
    else
      var before := Exec(c, s, acts[..|acts| - 1]);
      if Enabled(c, before, acts[|acts| - 1]) then Next(c, before, acts[|acts| - 1]) else before
  }
}
