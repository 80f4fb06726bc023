/**
 * What can always still happen: from every reachable state a closing lease, also
 * one that was left pending, is settled and gives everything back as soon as the
 * store answers; and what no longer happens once the relay is draining.
 */
module Completion {
  import opened Base
  import opened Ledger
  import opened Gates
  import opened System
  import opened Leases
  import opened Slots
  import opened Guarantees
  import opened Transactions

  /** All but the request itself and these parts is as before. */
  predicate OnlyMoves(s: State, s': State, f: nat, fl: Flight) {
    && f < |s.flights| && s'.flights == s.flights[f := fl]
    && s'.world == s.world && s'.up == s.up && s'.draining == s.draining && s'.reaper == s.reaper
  }

  predicate SameGates(s: State, s': State) { s'.global == s.global && s'.reg == s.reg }

  // ----- The four sections after a confirmation -------------------------------

  lemma LeavesPending(s: State, f: nat)
    requires At(s, f) && s.flights[f].pc.Confirmed?
    ensures CanTurn(s, s.flights[f])
    ensures var s', fl := TurnStep(s, f), s.flights[f];
            OnlyMoves(s, s', f, fl.(pc := OutOfPending)) && SameGates(s, s') && s'.pending == s.pending - {fl.id} && s'.active == s.active
  {
  }

  lemma LeavesActive(s: State, f: nat)
    requires At(s, f) && s.flights[f].pc.OutOfPending?
    ensures CanTurn(s, s.flights[f])
    ensures var s', fl := TurnStep(s, f), s.flights[f];
            OnlyMoves(s, s', f, fl.(pc := OutOfActive)) && SameGates(s, s') && s'.active == s.active - {fl.id} && s'.pending == s.pending
  {
  }

  predicate OneFreed(g: GateState, g': GateState) { g'.limit == g.limit && g'.active == g.active - 1 }

  /** Its key gate has one holder less, and every other gate is as before. */
  ghost predicate GivesKeyBack(reg: Registry, reg': Registry, e: nat) {
    && e in reg.entries && e in reg'.entries && reg'.entries[e].gate.limit == reg.entries[e].gate.limit
    && reg'.entries[e].gate.active == reg.entries[e].gate.active - 1 && reg'.entries[e].refs == reg.entries[e].refs - 1
    && reg'.entries == reg.entries[e := reg'.entries[e]]
  }

  lemma LeavesKey(s: State, f: nat)
    requires At(s, f) && Conserved(s) && s.flights[f].pc.OutOfActive?
    ensures CanTurn(s, s.flights[f])
    ensures var s', fl := TurnStep(s, f), s.flights[f];
            && OnlyMoves(s, s', f, fl.(pc := OutOfKey, keyReleases := fl.keyReleases + 1)) && s'.global == s.global
            && s'.active == s.active && s'.pending == s.pending && GivesKeyBack(s.reg, s'.reg, fl.entry)
  {
    var fl := s.flights[f];
    ReleaseConserves(s.reg, s.flights, f, fl.(pc := OutOfKey, keyReleases := fl.keyReleases + 1));
  }

  lemma LeavesGlobal(s: State, f: nat)
    requires At(s, f) && Conserved(s) && s.flights[f].pc.OutOfKey?
    ensures CanTurn(s, s.flights[f])
    ensures var s', fl := TurnStep(s, f), s.flights[f];
            && OnlyMoves(s, s', f, fl.(pc := Done, globalReleases := fl.globalReleases + 1)) && s'.reg == s.reg
            && s'.active == s.active && s'.pending == s.pending
            && OneFreed(s.global, s'.global)
  {
    GlobalCovers(s, f);
  }

  // ----- From an answer to the end ---------------------------------------------

  /** The request is over: off both lists, one slot of each gate given back, and its outcome on record. */
  ghost predicate IsOver(s: State, s': State, f: nat) {
    && f < |s.flights| && |s'.flights| == |s.flights|
    && var fl, fl' := s.flights[f], s'.flights[f];
    && fl' == fl.(pc := Done, frozen := fl'.frozen, first := fl'.first, commits := 1, keyReleases := fl.keyReleases + 1, globalReleases := fl.globalReleases + 1)
    && s'.flights == s.flights[f := fl']
    && s'.pending == s.pending - {fl.id} && s'.active == s.active - {fl.id}
    && OneFreed(s.global, s'.global) && GivesKeyBack(s.reg, s'.reg, fl.entry)
    && fl.id in s'.world.l.requests && fl'.frozen.Some? && Recorded(s'.world.l.requests[fl.id], fl'.frozen.value)
  }

  function Step1(c: Config, s: State, a: Action): State { if Enabled(c, s, a) then Next(c, s, a) else s }

  lemma {:induction false} ExecOne(c: Config, s: State, a: Action)
    ensures Exec(c, s, [a]) == Step1(c, s, a)
  {
    assert [a][..0] == [];
  }

  lemma {:induction false} ExecAppend(c: Config, s: State, acts: seq<Action>, more: seq<Action>)
    ensures Exec(c, s, acts + more) == Exec(c, Exec(c, s, acts), more)
    decreases |more|
  {
    if more == [] {
      assert acts + more == acts;
    } else {
      assert (acts + more)[..|acts + more| - 1] == acts + more[..|more| - 1];
      ExecAppend(c, s, acts, more[..|more| - 1]);
    }
  }

  lemma TurnIsStep(c: Config, s: State, f: nat)
    requires At(s, f) && CanTurn(s, s.flights[f])
    ensures Step1(c, s, Turn(f)) == TurnStep(s, f)
  {
  }

  function FourTurns(f: nat): seq<Action> { [Turn(f), Turn(f)] + [Turn(f), Turn(f)] }

  lemma ExecTwo(c: Config, s: State, a: Action, b: Action)
    ensures Exec(c, s, [a, b]) == Step1(c, Step1(c, s, a), b)
  {
    ExecOne(c, s, a);
    assert [a, b][..1] == [a];
  }

  lemma LeavesLists(s: State, f: nat) returns (s': State)
    requires At(s, f) && Conserved(s) && s.flights[f].pc.Confirmed?
    ensures CanTurn(s, s.flights[f]) && CanTurn(TurnStep(s, f), TurnStep(s, f).flights[f]) && s' == TurnStep(TurnStep(s, f), f)
    ensures var fl := s.flights[f];
            && OnlyMoves(s, s', f, fl.(pc := OutOfActive)) && SameGates(s, s') && Conserved(s')
            && s'.pending == s.pending - {fl.id} && s'.active == s.active - {fl.id}
  {
    LeavesPending(s, f);
    TurnConserves(s, f);
    var s1 := TurnStep(s, f);
    LeavesActive(s1, f);
    TurnConserves(s1, f);
    s' := TurnStep(s1, f);
  }

  lemma LeavesGates(s: State, f: nat) returns (s': State)
    requires At(s, f) && Conserved(s) && s.flights[f].pc.OutOfActive?
    ensures CanTurn(s, s.flights[f]) && CanTurn(TurnStep(s, f), TurnStep(s, f).flights[f]) && s' == TurnStep(TurnStep(s, f), f)
    ensures var fl := s.flights[f];
            && OnlyMoves(s, s', f, fl.(pc := Done, keyReleases := fl.keyReleases + 1, globalReleases := fl.globalReleases + 1))
            && s'.pending == s.pending && s'.active == s.active
            && OneFreed(s.global, s'.global) && GivesKeyBack(s.reg, s'.reg, fl.entry)
  {
    LeavesKey(s, f);
    TurnConserves(s, f);
    var s1 := TurnStep(s, f);
    LeavesGlobal(s1, f);
    s' := TurnStep(s1, f);
  }

  /** Two turns that can be taken, as a run. */
  lemma TwoTurns(c: Config, s: State, f: nat)
    requires At(s, f) && CanTurn(s, s.flights[f]) && At(TurnStep(s, f), f) && CanTurn(TurnStep(s, f), TurnStep(s, f).flights[f])
    ensures Exec(c, s, [Turn(f), Turn(f)]) == TurnStep(TurnStep(s, f), f)
  {
    TurnIsStep(c, s, f);
    TurnIsStep(c, TurnStep(s, f), f);
    ExecTwo(c, s, Turn(f), Turn(f));
  }

  lemma TurnStays(s: State, f: nat)
    requires At(s, f) && CanTurn(s, s.flights[f])
    ensures At(TurnStep(s, f), f)
  {
  }

  /** Both halves together. */
  lemma GivesBack(s: State, f: nat) returns (s2: State, s4: State)
    requires At(s, f) && Conserved(s) && s.flights[f].pc.Confirmed?
    ensures CanTurn(s, s.flights[f]) && At(TurnStep(s, f), f) && CanTurn(TurnStep(s, f), TurnStep(s, f).flights[f]) && s2 == TurnStep(TurnStep(s, f), f)
    ensures At(s2, f) && CanTurn(s2, s2.flights[f]) && At(TurnStep(s2, f), f) && CanTurn(TurnStep(s2, f), TurnStep(s2, f).flights[f])
    ensures s4 == TurnStep(TurnStep(s2, f), f) && GaveBack(s, s4, f)
  {
    s2 := LeavesLists(s, f);
    TurnStays(s, f);
    s4 := LeavesGates(s2, f);
    TurnStays(s2, f);
    BothHalves(s, s2, s4, f);
  }

  /** A confirmed lease is over: off both lists, with one slot of each gate given back. */
  ghost predicate GaveBack(s: State, s': State, f: nat) {
    && f < |s.flights|
    && var fl := s.flights[f];
    && OnlyMoves(s, s', f, fl.(pc := Done, keyReleases := fl.keyReleases + 1, globalReleases := fl.globalReleases + 1))
    && s'.pending == s.pending - {fl.id} && s'.active == s.active - {fl.id}
    && OneFreed(s.global, s'.global) && GivesKeyBack(s.reg, s'.reg, fl.entry)
  }

  lemma BothHalves(s: State, s2: State, s4: State, f: nat)
    requires f < |s.flights| && OnlyMoves(s, s2, f, s.flights[f].(pc := OutOfActive)) && SameGates(s, s2)
    requires s2.pending == s.pending - {s.flights[f].id} && s2.active == s.active - {s.flights[f].id}
    requires var fl := s2.flights[f];
             && OnlyMoves(s2, s4, f, fl.(pc := Done, keyReleases := fl.keyReleases + 1, globalReleases := fl.globalReleases + 1))
             && s4.pending == s2.pending && s4.active == s2.active
             && OneFreed(s2.global, s4.global) && GivesKeyBack(s2.reg, s4.reg, fl.entry)
    ensures GaveBack(s, s4, f)
  {
  }

  lemma HalvesRun(c: Config, s: State, s2: State, s4: State, first: seq<Action>, second: seq<Action>)
    requires Exec(c, s, first) == s2 && Exec(c, s2, second) == s4
    ensures Exec(c, s, first + second) == s4
  {
    ExecAppend(c, s, first, second);
  }

  /** A confirmed lease needs four turns of its own and nothing from anyone else. */
  lemma ConfirmedGivesBack(c: Config, s: State, f: nat) returns (s': State)
    requires At(s, f) && Conserved(s) && s.flights[f].pc.Confirmed?
    ensures s' == Exec(c, s, FourTurns(f)) && GaveBack(s, s', f)
  {
    var s2;
    s2, s' := GivesBack(s, f);
    TwoTurns(c, s, f);
    TwoTurns(c, s2, f);
    HalvesRun(c, s, s2, s', [Turn(f), Turn(f)], [Turn(f), Turn(f)]);
  }

  /** An attempt that is answered. */
  lemma AnswerIsTaken(s: State, f: nat, after: Ledger, result: SettleResult)
    requires At(s, f) && s.flights[f].pc.Closing? && s.flights[f].frozen.Some? && (result.Settled? || result.AlreadySettled?)
    ensures var s', fl := SettleStep(s, f, NoFault, false, after, result), s.flights[f];
            && s'.flights == s.flights[f := fl.(pc := Confirmed, commits := fl.commits + if result.Settled? then 1 else 0)]
            && SameGates(s, s') && s'.up && s'.pending == s.pending && s'.active == s.active && s'.world.l == after
  {
  }

  lemma SettlingIsStep(c: Config, s: State, f: nat, fault: Fault, expired: bool)
    requires At(s, f) && s.flights[f].pc.Closing? && s.flights[f].frozen.Some?
    ensures Step1(c, s, Settling(f, fault, expired)) == SettleStep(s, f, fault, expired, FinishNow(s, f).0, FinishNow(s, f).1)
  {
  }

  /** What an answered attempt of a lease with a valid outcome does. */
  lemma AnswerConfirms(c: Config, start: Time, s: State, f: nat)
    requires Reasonable(c) && Good(c, start, s) && At(s, f) && s.flights[f].pc.Closing? && s.flights[f].frozen.Some?
    requires ValidSettlement(s.flights[f].id, s.flights[f].frozen.value)
    ensures var s', fl := Step1(c, s, Settling(f, NoFault, false)), s.flights[f];
            && s'.flights == s.flights[f := fl.(pc := Confirmed, commits := 1)] && SameGates(s, s') && s'.up
            && s'.pending == s.pending && s'.active == s.active
            && fl.id in s'.world.l.requests && Recorded(s'.world.l.requests[fl.id], fl.frozen.value)
  {
    assert FlightOk(c, s, f);
    FinishOnLease(s.world.l, s.flights[f], s.world.now);
    SettlingIsStep(c, s, f, NoFault, false);
    AnswerIsTaken(s, f, FinishNow(s, f).0, FinishNow(s, f).1);
  }

  /** From a closing lease to its end: the answer, and four turns. */
  lemma AnsweredIsOver(s: State, s1: State, s': State, f: nat)
    requires At(s, f) && s.flights[f].frozen.Some? && GaveBack(s1, s', f)
    requires var fl := s.flights[f];
             && s1.flights == s.flights[f := fl.(pc := Confirmed, commits := 1)] && SameGates(s, s1)
             && s1.pending == s.pending && s1.active == s.active
             && fl.id in s1.world.l.requests && Recorded(s1.world.l.requests[fl.id], fl.frozen.value)
    ensures IsOver(s, s', f) && s'.flights[f].frozen == s.flights[f].frozen
  {
  }

  /**
   * From every reachable state: a closing lease with a valid outcome is over
   * after one answered attempt and four turns of its own. It is off both lists,
   * its outcome is on record, and each gate counts one holder less.
   */
  lemma ClosingCanFinish(c: Config, start: Time, limit: int, acts: seq<Action>, f: nat) returns (s': State)
    requires Reasonable(c)
    requires var s := Exec(c, Init(start, limit), acts);
             && At(s, f) && s.flights[f].pc.Closing? && s.flights[f].frozen.Some?
             && ValidSettlement(s.flights[f].id, s.flights[f].frozen.value)
    ensures var s := Exec(c, Init(start, limit), acts);
            && s' == Exec(c, Init(start, limit), acts + [Settling(f, NoFault, false)] + FourTurns(f))
            && IsOver(s, s', f) && s'.flights[f].frozen == s.flights[f].frozen
  {
    var init, a := Init(start, limit), Settling(f, NoFault, false);
    var s := Exec(c, init, acts);
    EveryRunIsGood(c, start, limit, acts);
    AnswerConfirms(c, start, s, f);
    ExecSplits(c, init, acts, a);
    var s1 := Step1(c, s, a);
    SlotsAreConserved(c, start, limit, acts + [a]);
    s' := ConfirmedGivesBack(c, s1, f);
    HalvesRun(c, init, s1, s', acts + [a], FourTurns(f));
    AnsweredIsOver(s, s1, s', f);
  }

  /** A pending lease is taken up again with the outcome it has. */
  lemma RetryCloses(c: Config, start: Time, s: State, f: nat)
    requires Good(c, start, s) && At(s, f) && s.flights[f].pc.Live? && s.flights[f].wasPending
    ensures s.flights[f].frozen.Some?
    ensures Step1(c, s, Retry(f)) == s.(flights := s.flights[f := s.flights[f].(pc := Closing(0))])
  {
    assert FlightOk(c, s, f);
  }

  lemma RetriedIsOver(s: State, s1: State, s': State, f: nat)
    requires f < |s.flights| && s1 == s.(flights := s.flights[f := s.flights[f].(pc := Closing(0))]) && IsOver(s1, s', f)
    ensures IsOver(s, s', f)
  {
  }

  /** The same for a lease that was left pending, whatever was lost before: the reconciler's next attempt ends it. */
  lemma PendingCanFinish(c: Config, start: Time, limit: int, acts: seq<Action>, f: nat) returns (s': State)
    requires Reasonable(c)
    requires var s := Exec(c, Init(start, limit), acts);
             && At(s, f) && s.flights[f].pc.Live? && s.flights[f].wasPending && s.flights[f].frozen.Some?
             && ValidSettlement(s.flights[f].id, s.flights[f].frozen.value)
    ensures var s := Exec(c, Init(start, limit), acts);
            && s' == Exec(c, Init(start, limit), acts + [Retry(f)] + [Settling(f, NoFault, false)] + FourTurns(f))
            && IsOver(s, s', f) && s'.flights[f].frozen == s.flights[f].frozen
  {
    var init := Init(start, limit);
    var s := Exec(c, init, acts);
    EveryRunIsGood(c, start, limit, acts);
    RetryCloses(c, start, s, f);
    ExecSplits(c, init, acts, Retry(f));
    s' := ClosingCanFinish(c, start, limit, acts + [Retry(f)], f);
    RetriedIsOver(s, Exec(c, init, acts + [Retry(f)]), s', f);
  }

  // ----- Without an answer --------------------------------------------------------

  /** A lease whose last attempt brought no answer is put on the pending list, and only then taken off the active one; it keeps its slots. */
  lemma UnansweredGoesPending(s: State, f: nat)
    requires At(s, f) && s.flights[f].pc.AddingPending?
    ensures CanTurn(s, s.flights[f])
    ensures var s1, fl := TurnStep(s, f), s.flights[f];
            && OnlyMoves(s, s1, f, fl.(pc := LeavingActive)) && SameGates(s, s1)
            && s1.pending == s.pending[fl.id := f] && s1.active == s.active && CanTurn(s1, s1.flights[f])
            && var s2 := TurnStep(s1, f);
            && OnlyMoves(s, s2, f, fl.(pc := Live, wasPending := true)) && SameGates(s, s2)
            && s2.pending == s.pending[fl.id := f] && s2.active == s.active - {fl.id}
  {
  }

  // ----- The reaper -----------------------------------------------------------------

  lemma ReaperMoves(c: Config, s: State)
    requires s.up
    ensures Step1(c, s, Reaping) == s.(reaper := ReaperStep(c, s))
  {
  }

  /** The three sections of the reaper before its transaction, run without a break. */
  lemma ReaperArms(c: Config, s: State)
    requires s.up && s.reaper.Idle?
    ensures var armed := Exec(c, s, [Reaping, Reaping] + [Reaping]);
            armed == s.(reaper := Armed(s.active + s.pending.Keys, s.world.now - c.reapAge))
  {
    ExecTwo(c, s, Reaping, Reaping);
    var both := s.(reaper := SawBoth(s.active + s.pending.Keys, s.world.now));
    ReaperMoves(c, s);
    ReaperMoves(c, s.(reaper := SawActive(s.active, s.world.now)));
    ReaperMoves(c, both);
    ExecOne(c, both, Reaping);
    ExecAppend(c, s, [Reaping, Reaping], [Reaping]);
  }

  /**
   * Orphans do not stay: in every reachable state a reserved request older than
   * the reap age that is on neither list is aborted by the next pass of the
   * reaper, with nothing charged; every other request keeps its row.
   */
  lemma OrphansAreReaped(c: Config, start: Time, limit: int, acts: seq<Action>, r: nat)
    requires Reasonable(c)
    requires var s := Exec(c, Init(start, limit), acts); s.up && s.reaper.Idle? && r in s.world.l.requests
    ensures var s := Exec(c, Init(start, limit), acts);
            var armed := Exec(c, s, [Reaping, Reaping] + [Reaping]);
            var rows, row := s.world.l.requests, s.world.l.requests[r];
            && Enabled(c, armed, Reaped)
            && var after := Next(c, armed, Reaped).world.l.requests;
            && r in after
            && if row.status == Reserved && row.created < s.world.now - c.reapAge && r !in s.active && r !in s.pending
               then after[r].status == Aborted && after[r].charged == 0 && after[r].reserved == 0 && after[r].notes.errorCode == "crash_recovered"
               else after[r] == row
  {
    var s := Exec(c, Init(start, limit), acts);
    EveryRunIsGood(c, start, limit, acts);
    ReaperArms(c, s);
    ReapRecords(s.world.l, s.world.now - c.reapAge, s.active + s.pending.Keys, s.world.now);
  }

  // ----- Getting in ---------------------------------------------------------------

  /**
   * The sections of Begin, from any state in which the gates' books are right. A
   * request takes a global slot exactly if one is free, passes unless the relay
   * is draining, and gives the slot back when it cannot go on.
   */
  lemma BeginMoves(s: State, f: nat)
    requires At(s, f) && Conserved(s)
    ensures s.flights[f].pc.Arrived? || s.flights[f].pc.GotGlobal? || s.flights[f].pc.DropGlobal? || s.flights[f].pc.Registering? ==> CanTurn(s, s.flights[f])
    ensures s.flights[f].pc.Arrived? ==>
              && TurnStep(s, f).flights[f].pc == (if s.global.active < s.global.limit then GotGlobal else TurnedAway)
              && TurnStep(s, f).global.active == s.global.active + if s.global.active < s.global.limit then 1 else 0
    ensures s.flights[f].pc.GotGlobal? ==> TurnStep(s, f).flights[f].pc == if s.draining then DropGlobal else Checked
    ensures s.flights[f].pc.DropGlobal? ==> TurnStep(s, f).flights[f].pc == TurnedAway && OneFreed(s.global, TurnStep(s, f).global)
    ensures s.flights[f].pc.Registering? ==> TurnStep(s, f).flights[f].pc == Live && TurnStep(s, f).active == s.active + {s.flights[f].id}
  {
    if s.flights[f].pc.DropGlobal? {
      GlobalCovers(s, f);
    }
  }

  /** Without a key there is no gate; otherwise the request refers to the gate of its key, a fresh one with a limit of at least one if there is none. */
  lemma KeyIsFound(s: State, f: nat, limit: int)
    requires At(s, f) && Conserved(s) && s.flights[f].pc.Checked?
    ensures s.flights[f].key == 0 ==> EnterStep(s, f, limit).flights[f].pc == DropGlobal && EnterStep(s, f, limit).reg == s.reg
    ensures s.flights[f].key != 0 ==>
              var s', key := EnterStep(s, f, limit), s.flights[f].key;
              && s'.flights[f].pc == KeyTried && key in s'.reg.gates && s'.reg.gates[key] == s'.flights[f].entry
              && s'.flights[f].entry in s'.reg.entries
              && s'.reg.gates - {key} == s.reg.gates - {key}
              && s'.reg.entries[s'.flights[f].entry] ==
                 if key in s.reg.gates then s.reg.entries[s.reg.gates[key]].(refs := s.reg.entries[s.reg.gates[key]].refs + 1)
                 else Entry(GateState(if limit < 1 then 1 else limit, 0), 1)
  {
  }

  /** It takes a slot of its key exactly if one is free; the slot, or the attempt, is given back when it cannot go on. */
  lemma KeyMoves(s: State, f: nat)
    requires At(s, f) && Conserved(s) && (s.flights[f].pc.KeyTried? || s.flights[f].pc.KeyLost? || s.flights[f].pc.DropKey?)
    ensures CanTurn(s, s.flights[f]) && s.flights[f].entry in s.reg.entries
    ensures s.flights[f].pc.KeyTried? ==>
              var gate := s.reg.entries[s.flights[f].entry].gate;
              TurnStep(s, f).flights[f].pc == if gate.active < gate.limit then GotKey else KeyLost
    ensures s.flights[f].pc.KeyLost? ==> TurnStep(s, f).flights[f].pc == DropGlobal && TurnStep(s, f).global == s.global
    ensures s.flights[f].pc.DropKey? ==> TurnStep(s, f).flights[f].pc == DropGlobal && GivesKeyBack(s.reg, TurnStep(s, f).reg, s.flights[f].entry)
  {
    CountedEntry(s, f);
    if s.flights[f].pc.DropKey? {
      ReleaseConserves(s.reg, s.flights, f, s.flights[f].(pc := DropGlobal));
    }
  }

  lemma CountedEntry(s: State, f: nat)
    requires At(s, f) && Conserved(s) && RefersToKey(s.flights[f].pc)
    ensures s.flights[f].entry in s.reg.entries
  {
  }

  // ----- Draining -----------------------------------------------------------------

  /** Not yet past the draining check, or turned away. */
  predicate IsEarly(pc: Pc) { pc.Arrived? || pc.GotGlobal? || pc.DropGlobal? || pc.TurnedAway? }

  lemma TurnStaysEarly(s: State, g: nat, f: nat)
    requires At(s, g) && CanTurn(s, s.flights[g]) && s.draining && f < |s.flights| && IsEarly(s.flights[f].pc)
    ensures var s' := TurnStep(s, g); s'.draining && f < |s'.flights| && IsEarly(s'.flights[f].pc)
  {
  }

  lemma EnterStaysEarly(s: State, g: nat, limit: int, f: nat)
    requires At(s, g) && s.flights[g].pc.Checked? && (s.flights[g].key in s.reg.gates ==> KeyLinked(s, s.flights[g]))
    requires s.draining && f < |s.flights| && IsEarly(s.flights[f].pc)
    ensures var s' := EnterStep(s, g, limit); s'.draining && f < |s'.flights| && IsEarly(s'.flights[f].pc)
  {
  }

  lemma LeaseStaysEarly(c: Config, s: State, a: Action, f: nat)
    requires Enabled(c, s, a) && (a.Transact? || a.Close? || a.Retry? || a.Settling?)
    requires s.draining && f < |s.flights| && IsEarly(s.flights[f].pc)
    ensures var s' := Next(c, s, a); s'.draining && f < |s'.flights| && IsEarly(s'.flights[f].pc)
  {
  }

  lemma RestStaysEarly(c: Config, s: State, a: Action, f: nat)
    requires Enabled(c, s, a) && !a.Crash? && !a.Turn? && !a.EnterKey? && !a.Transact? && !a.Close? && !a.Retry? && !a.Settling?
    requires s.draining && f < |s.flights| && IsEarly(s.flights[f].pc)
    ensures var s' := Next(c, s, a); s'.draining && f < |s'.flights| && IsEarly(s'.flights[f].pc)
  {
  }

  lemma EarlyStaysEarly(c: Config, s: State, a: Action, f: nat)
    requires Enabled(c, s, a) && !a.Crash? && s.draining && f < |s.flights| && IsEarly(s.flights[f].pc)
    ensures var s' := Next(c, s, a); s'.draining && f < |s'.flights| && IsEarly(s'.flights[f].pc)
  {
    if a.Turn? {
      TurnStaysEarly(s, a.f, f);
    } else if a.EnterKey? {
      EnterStaysEarly(s, a.f, a.limit, f);
    } else if a.Transact? || a.Close? || a.Retry? || a.Settling? {
      LeaseStaysEarly(c, s, a, f);
    } else {
      RestStaysEarly(c, s, a, f);
    }
  }

  /** Once the relay is draining, no request that has not passed the check gets any further than being turned away. */
  lemma {:induction false} DrainingAdmitsNothing(c: Config, s: State, acts: seq<Action>, f: nat)
    requires s.draining && (forall i :: 0 <= i < |acts| ==> !acts[i].Crash?)
    requires f < |s.flights| && IsEarly(s.flights[f].pc)
    ensures var s' := Exec(c, s, acts); s'.draining && f < |s'.flights| && IsEarly(s'.flights[f].pc) && !HasLease(s'.flights[f].pc)
  {
    if acts != [] {
      var before, a := acts[..|acts| - 1], acts[|acts| - 1];
      DrainingAdmitsNothing(c, s, before, f);
      if Enabled(c, Exec(c, s, before), a) {
        EarlyStaysEarly(c, Exec(c, s, before), a, f);
      }
    }
  }
}
