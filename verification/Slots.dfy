/**
 * Slot conservation: in every reachable state the gates count exactly the
 * requests that hold a slot, and every attempt or holder refers to the gate its
 * key currently maps to.
 */
module Slots {
  import opened Base
  import opened Gates
  import opened Ledger
  import opened Admission
  import opened LedgerRuns
  import opened Outcomes
  import opened System

  datatype Slot = GlobalSlot | KeySlot(entry: nat) | KeyRef(entry: nat)

  predicate Holds(slot: Slot, fl: Flight) {
    match slot
    case GlobalSlot => HoldsGlobal(fl.pc)
    case KeySlot(e) => fl.entry == e && HoldsKey(fl.pc)
    case KeyRef(e) => fl.entry == e && RefersToKey(fl.pc)
  }

  function Bit(b: bool): nat { if b then 1 else 0 }

  function Count(flights: seq<Flight>, slot: Slot): nat {
    if flights == [] then 0
    else Count(flights[..|flights| - 1], slot) + Bit(Holds(slot, flights[|flights| - 1]))
  }

  lemma CountOfExtended(flights: seq<Flight>, fl: Flight, slot: Slot)
    ensures Count(flights + [fl], slot) == Count(flights, slot) + Bit(Holds(slot, fl))
  {
    assert (flights + [fl])[..|flights|] == flights;
  }

  /** Changing one request changes each count by that request alone. */
  lemma {:induction false} CountOfUpdated(flights: seq<Flight>, f: nat, fl: Flight, slot: Slot)
    requires f < |flights|
    ensures Count(flights[f := fl], slot) + Bit(Holds(slot, flights[f])) == Count(flights, slot) + Bit(Holds(slot, fl))
  {
    var last := |flights| - 1;
    if f == last {
      assert flights[f := fl][..last] == flights[..last];
    } else {
      assert flights[f := fl][..last] == flights[..last][f := fl];
      CountOfUpdated(flights[..last], f, fl, slot);
    }
  }

  /** Nobody holds a slot that counts zero. */
  lemma {:induction false} CountCovers(flights: seq<Flight>, f: nat, slot: Slot)
    requires f < |flights|
    ensures Bit(Holds(slot, flights[f])) <= Count(flights, slot)
  {
    if f < |flights| - 1 {
      CountCovers(flights[..|flights| - 1], f, slot);
    }
  }

  lemma {:induction false} CountOfNone(flights: seq<Flight>, slot: Slot)
    requires forall f :: 0 <= f < |flights| ==> !Holds(slot, flights[f])
    ensures Count(flights, slot) == 0
  {
    if flights != [] {
      CountOfNone(flights[..|flights| - 1], slot);
    }
  }

  // ----- The invariant -----------------------------------------------------

  ghost predicate RegistryOk(reg: Registry) {
    && (forall e :: e in reg.entries ==> e < reg.next)
    && (forall k :: k in reg.gates ==> reg.gates[k] in reg.entries)
    && (forall k, k' :: k in reg.gates && k' in reg.gates && reg.gates[k] == reg.gates[k'] ==> k == k')
  }

  /** Every attempt and every holder refers to the gate its key maps to now. */
  ghost predicate Linked(reg: Registry, flights: seq<Flight>) {
    forall f :: 0 <= f < |flights| && RefersToKey(flights[f].pc) ==>
      flights[f].key in reg.gates && reg.gates[flights[f].key] == flights[f].entry
  }

  ghost predicate EntryCounts(reg: Registry, flights: seq<Flight>, e: nat)
    requires e in reg.entries
  {
    && reg.entries[e].gate.active == Count(flights, KeySlot(e)) <= reg.entries[e].gate.limit
    && reg.entries[e].refs == Count(flights, KeyRef(e))
  }

  ghost predicate KeysConserved(reg: Registry, flights: seq<Flight>) {
    && RegistryOk(reg)
    && Linked(reg, flights)
    && (forall e :: e in reg.entries ==> EntryCounts(reg, flights, e))
  }

  ghost predicate Conserved(s: State) {
    && s.global.active == Count(s.flights, GlobalSlot)
    && KeysConserved(s.reg, s.flights)
  }

  /** A request that keeps its entry and its standing towards its key leaves the key gates' books right. */
  lemma KeysUnmoved(reg: Registry, flights: seq<Flight>, f: nat, fl: Flight)
    requires KeysConserved(reg, flights) && f < |flights|
    requires fl.key == flights[f].key && fl.entry == flights[f].entry
    requires HoldsKey(fl.pc) == HoldsKey(flights[f].pc) && RefersToKey(fl.pc) == RefersToKey(flights[f].pc)
    ensures KeysConserved(reg, flights[f := fl])
  {
    forall e | e in reg.entries
      ensures EntryCounts(reg, flights[f := fl], e)
    {
      CountOfUpdated(flights, f, fl, KeySlot(e));
      CountOfUpdated(flights, f, fl, KeyRef(e));
    }
  }

  /** An entry's books stay right if its counters move with the one request that moves. */
  lemma CountsFollow(reg: Registry, reg': Registry, flights: seq<Flight>, f: nat, fl: Flight, e: nat)
    requires e in reg.entries && e in reg'.entries && EntryCounts(reg, flights, e) && f < |flights|
    requires reg'.entries[e].gate.active + Bit(Holds(KeySlot(e), flights[f])) == reg.entries[e].gate.active + Bit(Holds(KeySlot(e), fl))
    requires reg'.entries[e].refs + Bit(Holds(KeyRef(e), flights[f])) == reg.entries[e].refs + Bit(Holds(KeyRef(e), fl))
    requires reg'.entries[e].gate.active <= reg'.entries[e].gate.limit
    ensures EntryCounts(reg', flights[f := fl], e)
  {
    CountOfUpdated(flights, f, fl, KeySlot(e));
    CountOfUpdated(flights, f, fl, KeyRef(e));
  }

  /** A key without a gate: the entry made for it starts with one reference, the newcomer's. */
  lemma NewEntryCounts(reg: Registry, flights: seq<Flight>, f: nat, fl: Flight, limit: int)
    requires RegistryOk(reg) && Linked(reg, flights) && f < |flights| && limit >= 1
    requires flights[f].pc.Checked? && flights[f].key !in reg.gates
    requires fl == flights[f].(pc := KeyTried, entry := reg.next)
    ensures EntryCounts(Enter(reg, fl.key, limit).0, flights[f := fl], reg.next)
  {
    CountOfNone(flights, KeyRef(reg.next));
    CountOfNone(flights, KeySlot(reg.next));
    CountOfUpdated(flights, f, fl, KeySlot(reg.next));
    CountOfUpdated(flights, f, fl, KeyRef(reg.next));
  }

  /** First section of TryAcquire. */
  lemma EnterConserves(reg: Registry, flights: seq<Flight>, f: nat, fl: Flight, limit: int)
    requires KeysConserved(reg, flights) && f < |flights| && flights[f].pc.Checked? && limit >= 1
    requires fl == flights[f].(pc := KeyTried, entry := Enter(reg, flights[f].key, limit).1)
    ensures KeysConserved(Enter(reg, flights[f].key, limit).0, flights[f := fl])
  {
    var reg' := Enter(reg, flights[f].key, limit).0;
    EnterLinks(reg, reg', flights, f, fl, limit);
    forall e | e in reg'.entries
      ensures EntryCounts(reg', flights[f := fl], e)
    {
      if e in reg.entries {
        CountsFollow(reg, reg', flights, f, fl, e);
      } else {
        NewEntryCounts(reg, flights, f, fl, limit);
      }
    }
  }

  lemma EnterLinks(reg: Registry, reg': Registry, flights: seq<Flight>, f: nat, fl: Flight, limit: int)
    requires RegistryOk(reg) && Linked(reg, flights) && f < |flights| && flights[f].pc.Checked?
    requires (reg', fl.entry) == Enter(reg, flights[f].key, limit) && fl.key == flights[f].key && fl.pc.KeyTried?
    ensures RegistryOk(reg') && Linked(reg', flights[f := fl])
  {
  }

  /** Second section: the gate never fills beyond its limit. */
  lemma AttemptConserves(reg: Registry, flights: seq<Flight>, f: nat, fl: Flight)
    requires KeysConserved(reg, flights) && f < |flights| && flights[f].pc.KeyTried?
    requires flights[f].entry in reg.entries
    requires fl == flights[f].(pc := if Attempt(reg, flights[f].entry).1 then GotKey else KeyLost)
    ensures KeysConserved(Attempt(reg, flights[f].entry).0, flights[f := fl])
  {
    var reg' := Attempt(reg, flights[f].entry).0;
    forall e | e in reg'.entries
      ensures EntryCounts(reg', flights[f := fl], e)
    {
      CountsFollow(reg, reg', flights, f, fl, e);
    }
  }

  /** Third section: the entry deleted from the map has no holder and no other attempt. */
  lemma LeaveConserves(reg: Registry, flights: seq<Flight>, f: nat, fl: Flight)
    requires KeysConserved(reg, flights) && f < |flights| && flights[f].pc.KeyLost?
    requires flights[f].entry in reg.entries
    requires fl == flights[f].(pc := DropGlobal)
    ensures KeysConserved(Leave(reg, flights[f].key, flights[f].entry), flights[f := fl])
  {
    var e0 := flights[f].entry;
    var reg' := Leave(reg, flights[f].key, e0);
    forall e | e in reg'.entries
      ensures EntryCounts(reg', flights[f := fl], e)
    {
      CountsFollow(reg, reg', flights, f, fl, e);
    }
    StillLinked(reg, flights, reg', f, fl);
  }

  lemma StillLinked(reg: Registry, flights: seq<Flight>, reg': Registry, f: nat, fl: Flight)
    requires KeysConserved(reg, flights) && f < |flights| && RefersToKey(flights[f].pc)
    requires fl.entry == flights[f].entry && !RefersToKey(fl.pc)
    requires fl.entry in reg'.entries && EntryCounts(reg', flights[f := fl], fl.entry)
    requires reg'.gates == reg.gates || (reg'.gates == reg.gates - {flights[f].key} && reg'.entries[fl.entry].refs == 0)
    ensures Linked(reg', flights[f := fl])
  {
    forall g | 0 <= g < |flights| && g != f && RefersToKey(flights[g].pc)
      ensures flights[g].key in reg'.gates
    {
      CountCovers(flights[f := fl], g, KeyRef(fl.entry));
    }
  }

  /** Release: the looked-up entry is the holder's own, it is counted, and it goes only with its last reference. */
  lemma ReleaseConserves(reg: Registry, flights: seq<Flight>, f: nat, fl: Flight)
    requires KeysConserved(reg, flights) && f < |flights| && HoldsKey(flights[f].pc)
    requires fl.key == flights[f].key && fl.entry == flights[f].entry && !RefersToKey(fl.pc)
    ensures KeysConserved(Release(reg, flights[f].key), flights[f := fl])
    ensures reg.entries[flights[f].entry].gate.active > 0
  {
    var e0 := flights[f].entry;
    var reg' := Release(reg, flights[f].key);
    CountCovers(flights, f, KeySlot(e0));
    forall e | e in reg'.entries
      ensures EntryCounts(reg', flights[f := fl], e)
    {
      CountsFollow(reg, reg', flights, f, fl, e);
    }
    StillLinked(reg, flights, reg', f, fl);
  }

  // ----- Every step keeps it -------------------------------------------------

  /** A step that moves one request and leaves the gates, and its claims on them, alone. */
  predicate MovesOnly(s: State, s': State, f: nat) {
    && f < |s.flights| && |s'.flights| == |s.flights|
    && s'.flights == s.flights[f := s'.flights[f]] && s'.global == s.global && s'.reg == s.reg
    && s'.flights[f].key == s.flights[f].key && s'.flights[f].entry == s.flights[f].entry
    && HoldsGlobal(s'.flights[f].pc) == HoldsGlobal(s.flights[f].pc)
    && HoldsKey(s'.flights[f].pc) == HoldsKey(s.flights[f].pc)
    && RefersToKey(s'.flights[f].pc) == RefersToKey(s.flights[f].pc)
  }

  lemma MovingConserves(s: State, s': State, f: nat)
    requires Conserved(s) && MovesOnly(s, s', f)
    ensures Conserved(s')
  {
    KeysUnmoved(s.reg, s.flights, f, s'.flights[f]);
    CountOfUpdated(s.flights, f, s'.flights[f], GlobalSlot);
  }

  /** A step that gives or takes a global slot only. */
  lemma GlobalConserves(s: State, s': State, f: nat)
    requires Conserved(s) && f < |s.flights| && |s'.flights| == |s.flights|
    requires s'.flights == s.flights[f := s'.flights[f]] && s'.reg == s.reg
    requires s'.flights[f].key == s.flights[f].key && s'.flights[f].entry == s.flights[f].entry
    requires !RefersToKey(s.flights[f].pc) && !RefersToKey(s'.flights[f].pc)
    requires s'.global.active + Bit(HoldsGlobal(s.flights[f].pc)) == s.global.active + Bit(HoldsGlobal(s'.flights[f].pc))
    ensures Conserved(s')
  {
    KeysUnmoved(s.reg, s.flights, f, s'.flights[f]);
    CountOfUpdated(s.flights, f, s'.flights[f], GlobalSlot);
  }

  /** A step that changes the key gates only. */
  lemma KeyStepConserves(s: State, s': State, f: nat)
    requires Conserved(s) && f < |s.flights| && |s'.flights| == |s.flights|
    requires s'.flights == s.flights[f := s'.flights[f]] && s'.global == s.global
    requires HoldsGlobal(s.flights[f].pc) && HoldsGlobal(s'.flights[f].pc)
    requires KeysConserved(s'.reg, s'.flights)
    ensures Conserved(s')
  {
    CountOfUpdated(s.flights, f, s'.flights[f], GlobalSlot);
  }

  lemma GlobalCovers(s: State, f: nat)
    requires Conserved(s) && f < |s.flights| && HoldsGlobal(s.flights[f].pc)
    ensures s.global.active > 0
  {
    CountCovers(s.flights, f, GlobalSlot);
  }

  lemma TakeGlobalConserves(s: State, f: nat)
    requires Conserved(s) && f < |s.flights| && s.flights[f].pc.Arrived?
    ensures Conserved(TurnStep(s, f))
  {
    GlobalConserves(s, TurnStep(s, f), f);
  }

  lemma FreeGlobalConserves(s: State, f: nat)
    requires Conserved(s) && f < |s.flights| && (s.flights[f].pc.DropGlobal? || s.flights[f].pc.OutOfKey?)
    ensures Conserved(TurnStep(s, f))
  {
    GlobalCovers(s, f);
    GlobalConserves(s, TurnStep(s, f), f);
  }

  lemma TryKeyConserves(s: State, f: nat)
    requires Conserved(s) && f < |s.flights| && s.flights[f].pc.KeyTried? && CanTurn(s, s.flights[f])
    ensures Conserved(TurnStep(s, f))
  {
    AttemptConserves(s.reg, s.flights, f, TurnStep(s, f).flights[f]);
    KeyStepConserves(s, TurnStep(s, f), f);
  }

  lemma LeaveKeyConserves(s: State, f: nat)
    requires Conserved(s) && f < |s.flights| && s.flights[f].pc.KeyLost? && CanTurn(s, s.flights[f])
    ensures Conserved(TurnStep(s, f))
  {
    LeaveConserves(s.reg, s.flights, f, TurnStep(s, f).flights[f]);
    KeyStepConserves(s, TurnStep(s, f), f);
  }

  lemma FreeKeyConserves(s: State, f: nat)
    requires Conserved(s) && f < |s.flights| && CanTurn(s, s.flights[f])
    requires s.flights[f].pc.DropKey? || s.flights[f].pc.OutOfActive?
    ensures Conserved(TurnStep(s, f))
  {
    ReleaseConserves(s.reg, s.flights, f, TurnStep(s, f).flights[f]);
    KeyStepConserves(s, TurnStep(s, f), f);
  }

  lemma OtherTurnsMoveOnly(s: State, f: nat)
    requires f < |s.flights| && IsPlain(s.flights[f].pc)
    ensures MovesOnly(s, TurnStep(s, f), f)
  {
  }

  lemma TurnConserves(s: State, f: nat)
    requires Conserved(s) && f < |s.flights| && CanTurn(s, s.flights[f])
    ensures Conserved(TurnStep(s, f))
  {
    var pc := s.flights[f].pc;
    if pc.Arrived? {
      TakeGlobalConserves(s, f);
    } else if pc.DropGlobal? || pc.OutOfKey? {
      FreeGlobalConserves(s, f);
    } else if pc.KeyTried? {
      TryKeyConserves(s, f);
    } else if pc.KeyLost? {
      LeaveKeyConserves(s, f);
    } else if pc.DropKey? || pc.OutOfActive? {
      FreeKeyConserves(s, f);
    } else {
      OtherTurnsMoveOnly(s, f);
      MovingConserves(s, TurnStep(s, f), f);
    }
  }

  lemma EnterKeyConserves(s: State, f: nat, limit: int)
    requires Conserved(s) && f < |s.flights| && s.flights[f].pc.Checked?
    ensures Conserved(EnterStep(s, f, limit))
  {
    var s' := EnterStep(s, f, limit);
    if s.flights[f].key == 0 {
      MovingConserves(s, s', f);
    } else {
      EnterConserves(s.reg, s.flights, f, s'.flights[f], AtLeastOne(limit));
      KeyStepConserves(s, s', f);
    }
  }

  lemma TransactMovesOnly(s: State, f: nat, step: Step, client: string, fault: Fault, decision: Decision)
    requires f < |s.flights| && s.flights[f].pc.GotKey?
    ensures MovesOnly(s, TransactStep(s, f, step, client, fault, decision), f)
  {
  }

  lemma SettleMovesOnly(s: State, f: nat, fault: Fault, expired: bool, after: Ledger, result: SettleResult)
    requires f < |s.flights| && s.flights[f].pc.Closing? && s.flights[f].frozen.Some?
    ensures MovesOnly(s, SettleStep(s, f, fault, expired, after, result), f)
  {
  }

  lemma ArriveConserves(s: State, fl: Flight)
    requires Conserved(s) && fl.pc.Arrived?
    ensures Conserved(s.(flights := s.flights + [fl]))
  {
    CountOfExtended(s.flights, fl, GlobalSlot);
    forall e | e in s.reg.entries
      ensures EntryCounts(s.reg, s.flights + [fl], e)
    {
      CountOfExtended(s.flights, fl, KeySlot(e));
      CountOfExtended(s.flights, fl, KeyRef(e));
    }
  }

  /** Steps that touch neither requests nor gates. */
  predicate LeavesSlots(s: State, s': State) {
    s'.flights == s.flights && s'.global.active == s.global.active && s'.reg == s.reg
  }

  lemma BackgroundLeavesSlots(c: Config, s: State, a: Action)
    requires Enabled(c, s, a)
    requires a.Reaping? || a.Reaped? || a.Pruning? || a.Deleting? || a.Reissuing? || a.Ticking? || a.Limiting? || a.Draining? || a.Recover?
    ensures LeavesSlots(s, Next(c, s, a))
  {
  }

  lemma LeavingConserves(s: State, s': State)
    requires Conserved(s) && LeavesSlots(s, s')
    ensures Conserved(s')
  {
  }

  lemma CloseMovesOnly(s: State, f: nat, outcome: Outcome, trace: Option<Trace>)
    requires f < |s.flights| && s.flights[f].pc.Live?
    ensures MovesOnly(s, CloseStep(s, f, outcome, trace), f)
  {
  }

  lemma LeaseStepsMoveOnly(c: Config, s: State, a: Action)
    requires Enabled(c, s, a) && (a.Transact? || a.Close? || a.Retry? || a.Settling? || a.Reject?)
    ensures MovesOnly(s, Next(c, s, a), a.f)
  {
    if a.Transact? {
      TransactMovesOnly(s, a.f, Admit(a.d, a.p), a.clientRequest, a.fault, Decide(s.world.l, a.d, a.p));
    } else if a.Settling? {
      SettleMovesOnly(s, a.f, a.fault, a.expired, FinishNow(s, a.f).0, FinishNow(s, a.f).1);
    } else if a.Close? {
      CloseMovesOnly(s, a.f, a.outcome, a.trace);
    } else if a.Retry? {
      CloseMovesOnly(s, a.f, BLANK, None);
    }
  }

  lemma StepConserves(c: Config, s: State, a: Action)
    requires Conserved(s) && Enabled(c, s, a)
    ensures Conserved(Next(c, s, a))
  {
    if a.Transact? || a.Close? || a.Retry? || a.Settling? || a.Reject? {
      LeaseStepsMoveOnly(c, s, a);
      MovingConserves(s, Next(c, s, a), a.f);
    } else if a.Arrive? {
      ArriveConserves(s, Next(c, s, a).flights[|s.flights|]);
    } else if a.Turn? {
      TurnConserves(s, a.f);
    } else if a.EnterKey? {
      EnterKeyConserves(s, a.f, a.limit);
    } else if !a.Crash? {
      BackgroundLeavesSlots(c, s, a);
      LeavingConserves(s, Next(c, s, a));
    }
  }

  /**
   * Slot conservation over every run: the global gate counts the requests that
   * hold a global slot, each key gate counts its holders and stays within the
   * limit it was created with, references are holders plus attempts, and all of
   * them refer to the gate currently in the map.
   */
  lemma {:induction false} SlotsAreConserved(c: Config, now: Time, limit: int, acts: seq<Action>)
    ensures Conserved(Exec(c, Init(now, limit), acts))
  {
    if acts != [] {
      SlotsAreConserved(c, now, limit, acts[..|acts| - 1]);
      var s := Exec(c, Init(now, limit), acts[..|acts| - 1]);
      if Enabled(c, s, acts[|acts| - 1]) {
        StepConserves(c, s, acts[|acts| - 1]);
      }
    }
  }

  // ----- Gates come and go with their users -----------------------------------

  /** Somebody refers to every gate in the map. */
  ghost predicate InUse(reg: Registry) {
    forall k :: k in reg.gates && reg.gates[k] in reg.entries ==> reg.entries[reg.gates[k]].refs > 0
  }

  /** Whoever holds a slot of an entry refers to it. */
  lemma {:induction false} HoldersRefer(flights: seq<Flight>, e: nat)
    ensures Count(flights, KeySlot(e)) <= Count(flights, KeyRef(e))
  {
    if flights != [] {
      HoldersRefer(flights[..|flights| - 1], e);
    }
  }

  lemma EnterStaysInUse(reg: Registry, key: nat, limit: int)
    requires RegistryOk(reg) && InUse(reg)
    ensures InUse(Enter(reg, key, limit).0)
  {
  }

  lemma LeaveStaysInUse(reg: Registry, key: nat, e: nat)
    requires RegistryOk(reg) && InUse(reg) && key in reg.gates && reg.gates[key] == e
    ensures InUse(Leave(reg, key, e))
  {
  }

  /** The last reference goes with the last slot. */
  lemma ReleaseStaysInUse(reg: Registry, flights: seq<Flight>, key: nat)
    requires RegistryOk(reg) && InUse(reg) && KeysConserved(Release(reg, key), flights)
    ensures InUse(Release(reg, key))
  {
    if key in reg.gates {
      HoldersRefer(flights, reg.gates[key]);
      assert EntryCounts(Release(reg, key), flights, reg.gates[key]);
    }
  }

  lemma TurnStaysInUse(s: State, f: nat)
    requires Conserved(s) && InUse(s.reg) && f < |s.flights| && CanTurn(s, s.flights[f])
    ensures InUse(TurnStep(s, f).reg)
  {
    var fl := s.flights[f];
    if fl.pc.KeyLost? {
      LeaveStaysInUse(s.reg, fl.key, fl.entry);
    } else if fl.pc.DropKey? || fl.pc.OutOfActive? {
      TurnConserves(s, f);
      ReleaseStaysInUse(s.reg, TurnStep(s, f).flights, fl.key);
    }
  }

  lemma StepStaysInUse(c: Config, s: State, a: Action)
    requires Conserved(s) && InUse(s.reg) && Enabled(c, s, a)
    ensures InUse(Next(c, s, a).reg)
  {
    if a.Transact? || a.Close? || a.Retry? || a.Settling? || a.Reject? {
      LeaseStepsMoveOnly(c, s, a);
    } else if a.Turn? {
      TurnStaysInUse(s, a.f);
    } else if a.EnterKey? {
      if s.flights[a.f].key != 0 {
        EnterStaysInUse(s.reg, s.flights[a.f].key, AtLeastOne(a.limit));
      }
    } else if !a.Crash? && !a.Arrive? {
      BackgroundLeavesSlots(c, s, a);
    }
  }

  lemma {:induction false} GatesStayInUse(c: Config, now: Time, limit: int, acts: seq<Action>)
    ensures Conserved(Exec(c, Init(now, limit), acts)) && InUse(Exec(c, Init(now, limit), acts).reg)
  {
    SlotsAreConserved(c, now, limit, acts);
    if acts != [] {
      GatesStayInUse(c, now, limit, acts[..|acts| - 1]);
      var s := Exec(c, Init(now, limit), acts[..|acts| - 1]);
      if Enabled(c, s, acts[|acts| - 1]) {
        StepStaysInUse(c, s, acts[|acts| - 1]);
      }
    }
  }

  /** A request that holds or tries for a slot of this key. */
  predicate Uses(fl: Flight, key: nat) { RefersToKey(fl.pc) && fl.key == key }

  /**
   * In every reachable state a key has a gate exactly while some request holds
   * or tries for one of its slots: the last one takes the gate away, so that the
   * next one starts a fresh gate with the limit it finds.
   */
  lemma GatesComeAndGo(c: Config, now: Time, limit: int, acts: seq<Action>, key: nat)
    ensures var s := Exec(c, Init(now, limit), acts);
            key in s.reg.gates <==> exists f :: 0 <= f < |s.flights| && Uses(s.flights[f], key)
  {
    var s := Exec(c, Init(now, limit), acts);
    GatesStayInUse(c, now, limit, acts);
    if key in s.reg.gates {
      var e := s.reg.gates[key];
      assert EntryCounts(s.reg, s.flights, e);
      if forall f :: 0 <= f < |s.flights| ==> !Holds(KeyRef(e), s.flights[f]) {
        CountOfNone(s.flights, KeyRef(e));
      }
      var f :| 0 <= f < |s.flights| && Holds(KeyRef(e), s.flights[f]);
      assert Uses(s.flights[f], key);
    }
  }
}
