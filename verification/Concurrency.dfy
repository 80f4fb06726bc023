/** The concurrency limit of a key, as the ledger enforces it on open reservations. */
module Concurrency {
  import opened Base
  import opened Ledger
  import opened Admission
  import opened Pairing
  import opened LedgerRuns

  function Open(l: Ledger, key: nat): nat { OpenBelow(l.keyRows, key, l.nextKeyRow) }

  predicate IsOpen(rows: map<nat, KeyRow>, key: nat, k: nat) { k in rows && rows[k].key == key && rows[k].status == Reserved }

  lemma {:induction false} OpenMonotone(rows: map<nat, KeyRow>, rows': map<nat, KeyRow>, key: nat, n: nat)
    requires forall k: nat :: k < n && IsOpen(rows', key, k) ==> IsOpen(rows, key, k)
    ensures OpenBelow(rows', key, n) <= OpenBelow(rows, key, n)
  {
    if n > 0 {
      OpenMonotone(rows, rows', key, n - 1);
      assert IsOpen(rows', key, n - 1) ==> IsOpen(rows, key, n - 1);
    }
  }

  lemma {:induction false} NothingOpenAbove(rows: map<nat, KeyRow>, key: nat, low: nat, high: nat)
    requires low <= high && forall k :: k in rows ==> k < low
    ensures OpenBelow(rows, key, low) == OpenBelow(rows, key, high)
    decreases high
  {
    if low < high {
      NothingOpenAbove(rows, key, low, high - 1);
    }
  }

  /** Nothing but an admission opens a reservation. */
  lemma OthersOpenNothing(w: World, step: Step, key: nat)
    requires IdsBelowNext(w.l) && !step.Admit?
    ensures Open(Do(w, step).l, key) <= Open(w.l, key)
  {
    var l, l' := w.l, Do(w, step).l;
    NoneReopened(w, step);
    OpenMonotone(l.keyRows, l'.keyRows, key, l.nextKeyRow);
    if l'.nextKeyRow <= l.nextKeyRow {
      NothingOpenAbove(l'.keyRows, key, l'.nextKeyRow, l.nextKeyRow);
    } else {
      NothingOpenAbove(l'.keyRows, key, l.nextKeyRow, l'.nextKeyRow);
    }
  }

  lemma NoneReopened(w: World, step: Step)
    requires IdsBelowNext(w.l) && !step.Admit?
    ensures var l, l' := w.l, Do(w, step).l;
            && (forall k :: k in l'.keyRows ==> k < l.nextKeyRow && k < l'.nextKeyRow)
            && (forall k, key :: IsOpen(l'.keyRows, key, k) ==> IsOpen(l.keyRows, key, k))
  {
  }

  lemma AdmissionOpensOne(l: Ledger, t: Ticket, key: nat)
    requires IdsBelowNext(l)
    ensures Open(Insert(l, t), key) == Open(l, key) + if t.key == key then 1 else 0
  {
    var rows := Insert(l, t).keyRows;
    OpenMonotone(l.keyRows, rows, key, l.nextKeyRow);
    OpenMonotone(rows, l.keyRows, key, l.nextKeyRow);
  }

  /** Every admission of the key met a limit of at most `limit`. */
  predicate LimitedTo(steps: seq<Step>, key: nat, limit: nat) {
    forall i :: 0 <= i < |steps| && steps[i].Admit? && steps[i].d.key == key ==> steps[i].p.concurrency <= limit
  }

  /**
   * In every run a key never has more open reservations than its concurrency
   * limit, also across restarts, which empty the gates but not the ledger.
   */
  lemma {:induction false} OpenReservationsAreLimited(c: Timing, now: Time, steps: seq<Step>, key: nat, limit: nat)
    requires PossibleRun(c, Start(now), steps) && LimitedTo(steps, key, limit)
    ensures Open(Run(Start(now), steps).l, key) <= limit
  {
    if steps == [] {
      assert OpenBelow(EMPTY.keyRows, key, 1) == 0;
    } else {
      var before := steps[..|steps| - 1];
      var w, step := Run(Start(now), before), steps[|steps| - 1];
      assert forall i :: 0 <= i < |before| ==> before[i] == steps[i];
      OpenReservationsAreLimited(c, now, before, key, limit);
      RunsAreSound(c, now, before);
      if !step.Admit? {
        OthersOpenNothing(w, step, key);
      } else if Decide(w.l, step.d, step.p).Admitted? {
        AdmissionMeans(w.l, step.d, step.p);
        AdmissionOpensOne(w.l, Decide(w.l, step.d, step.p).ticket, key);
      }
    }
  }
}
