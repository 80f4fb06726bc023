/**
 * Process-local admission gates. Each critical section of the source is one
 * function on values; the classes perform the same sections on their fields.
 */
module Gates {
  // ----- One gate ---------------------------------------------------------

  datatype GateState = GateState(limit: int, active: nat)

  function AtLeastOne(limit: int): int { if limit < 1 then 1 else limit }

  function Fresh(limit: int): GateState { GateState(AtLeastOne(limit), 0) }

  function Try(g: GateState): (GateState, bool) {
    if g.active >= g.limit then (g, false) else (g.(active := g.active + 1), true)
  }

  function Free(g: GateState): GateState {
    if g.active > 0 then g.(active := g.active - 1) else g
  }

  class Gate {
    var limit: int
    var active: nat

    function View(): GateState
      reads this
    {
      GateState(limit, active)
    }

    constructor (limit: int)
      ensures View() == Fresh(limit) && this.limit == (if limit < 1 then 1 else limit) && active == 0
    {
      this.limit := AtLeastOne(limit);
      this.active := 0;
    }

    method TryAcquire() returns (ok: bool)
      modifies this
      ensures (View(), ok) == Try(old(View()))
      ensures ok <==> old(active) < limit
      ensures limit == old(limit) && active == old(active) + if ok then 1 else 0
    {
      if active >= limit {
        return false;
      }
      active := active + 1;
      return true;
    }

    method Release()
      modifies this
      ensures View() == Free(old(View()))
      ensures limit == old(limit) && active == if old(active) == 0 then 0 else old(active) - 1
    {
      if active > 0 {
        active := active - 1;
      }
    }

    method SetLimit(newLimit: int)
      modifies this
      ensures View() == old(View()).(limit := AtLeastOne(newLimit))
      ensures limit == (if newLimit < 1 then 1 else newLimit) && active == old(active)
    {
      limit := AtLeastOne(newLimit);
    }
  }

  // ----- The per-key gates -------------------------------------------------

  /** A key's gate and the number of attempts and holders that refer to it. */
  datatype Entry = Entry(gate: GateState, refs: int)

  /**
   * Entries have an identity of their own: a caller keeps the entry it looked
   * up while the map may already name another one for the same key.
   */
  datatype Registry = Registry(gates: map<nat, nat>, entries: map<nat, Entry>, next: nat)

  const NO_GATES: Registry := Registry(map[], map[], 0)

  /** First section of TryAcquire: find or create the key's entry and refer to it. */
  function Enter(reg: Registry, key: nat, limit: int): (Registry, nat)
    requires key in reg.gates ==> reg.gates[key] in reg.entries
  {
    if key in reg.gates then
      var e := reg.gates[key];
      (reg.(entries := reg.entries[e := reg.entries[e].(refs := reg.entries[e].refs + 1)]), e)
    else
      (Registry(reg.gates[key := reg.next], reg.entries[reg.next := Entry(Fresh(limit), 1)], reg.next + 1), reg.next)
  }

  /** Second section: try the gate itself. */
  function Attempt(reg: Registry, e: nat): (Registry, bool)
    requires e in reg.entries
  {
    var (g, ok) := Try(reg.entries[e].gate);
    (reg.(entries := reg.entries[e := reg.entries[e].(gate := g)]), ok)
  }

  /** Third section, on failure: drop the reference, and the key's map entry with the last one. */
  function Leave(reg: Registry, key: nat, e: nat): Registry
    requires e in reg.entries
  {
    var entry := reg.entries[e].(refs := reg.entries[e].refs - 1);
    reg.(entries := reg.entries[e := entry], gates := if entry.refs == 0 then reg.gates - {key} else reg.gates)
  }

  /** Release looks the entry up again by key. */
  function Release(reg: Registry, key: nat): Registry
    requires key in reg.gates ==> reg.gates[key] in reg.entries
  {
    if key !in reg.gates then reg
    else
      var e := reg.gates[key];
      var entry := Entry(Free(reg.entries[e].gate), reg.entries[e].refs - 1);
      reg.(entries := reg.entries[e := entry],
           gates := if entry.refs == 0 && entry.gate.active == 0 then reg.gates - {key} else reg.gates)
  }

  /** The same sections run one after another by a single caller, on entries held by value. */
  class KeyGates {
    var gates: map<nat, Entry>

    constructor ()
      ensures gates == map[]
    {
      gates := map[];
    }

    /** A successful attempt takes one slot and one reference; a failed one leaves no trace, not even a fresh gate. */
    method TryAcquire(key: nat, limit: int) returns (ok: bool)
      modifies this
      ensures key == 0 ==> !ok && gates == old(gates)
      ensures key != 0 ==> ok == (key !in old(gates) || old(gates)[key].gate.active < old(gates)[key].gate.limit)
      ensures ok && key in old(gates) ==>
                var was := old(gates)[key];
                gates == old(gates)[key := Entry(GateState(was.gate.limit, was.gate.active + 1), was.refs + 1)]
      ensures ok && key !in old(gates) ==> gates == old(gates)[key := Entry(GateState(if limit < 1 then 1 else limit, 1), 1)]
      ensures !ok && key in old(gates) && old(gates)[key].refs > 0 ==> gates == old(gates)
    {
      if key == 0 {
        return false;
      }
      if key !in gates {
        gates := gates[key := Entry(Fresh(limit), 0)];
      }
      gates := gates[key := gates[key].(refs := gates[key].refs + 1)];
      var (g, taken) := Try(gates[key].gate);
      gates := gates[key := gates[key].(gate := g)];
      if taken {
        return true;
      }
      gates := gates[key := gates[key].(refs := gates[key].refs - 1)];
      if gates[key].refs == 0 {
        gates := gates - {key};
      }
      return false;
    }

    method Release(key: nat)
      modifies this
      ensures key !in old(gates) ==> gates == old(gates)
      ensures key in old(gates) ==>
                var was := old(gates)[key];
                var entry := Entry(GateState(was.gate.limit, if was.gate.active == 0 then 0 else was.gate.active - 1), was.refs - 1);
                gates == if entry.refs == 0 && entry.gate.active == 0 then old(gates) - {key} else old(gates)[key := entry]
    {
      if key !in gates {
        return;
      }
      gates := gates[key := Entry(Free(gates[key].gate), gates[key].refs - 1)];
      if gates[key].refs == 0 && gates[key].gate.active == 0 {
        gates := gates - {key};
      }
    }
  }
}
