/**
 * The period handoff on the ledger itself: which row hands over, in which order
 * the rows are taken, and exactly when a settlement leaves the handoff alone.
 */
module Handoffs {
  import opened Base
  import opened Ledger
  import opened Calendar
  import opened Windows
  import opened Period
  import opened Admission
  import opened Pairing
  import opened LedgerRuns
  import opened Overdraft
  import Pricing

  type KeyRows = map<nat, KeyRow>

  // ----- The order of the query ---------------------------------------------------

  /** The ids of the selected rows, upwards. */
  function RowIds(rows: KeyRows, w: Window, n: nat): seq<nat> {
    if n == 0 then []
    else if n - 1 in rows && Includes(w, rows[n - 1]) then RowIds(rows, w, n - 1) + [n - 1]
    else RowIds(rows, w, n - 1)
  }

  predicate Earlier(rows: KeyRows, j: nat, k: nat) {
    j in rows && k in rows && (rows[j].created < rows[k].created || (rows[j].created == rows[k].created && j < k))
  }

  /** `ORDER BY created_at_utc, id`. */
  ghost predicate InQueryOrder(rows: KeyRows, ids: seq<nat>) {
    forall i, j :: 0 <= i < j < |ids| ==> Earlier(rows, ids[i], ids[j])
  }

  lemma {:induction false} RowIdsAreSelected(rows: KeyRows, w: Window, n: nat)
    ensures |RowIds(rows, w, n)| == |Rows(rows, w, n)|
    ensures forall i :: 0 <= i < |RowIds(rows, w, n)| ==>
              var k := RowIds(rows, w, n)[i]; k < n && k in rows && Includes(w, rows[k]) && Rows(rows, w, n)[i] == rows[k]
    ensures forall k: nat :: k < n && k in rows && Includes(w, rows[k]) ==> k in RowIds(rows, w, n)
    ensures forall i, j :: 0 <= i < j < |RowIds(rows, w, n)| ==> RowIds(rows, w, n)[i] < RowIds(rows, w, n)[j]
  {
    if n > 0 {
      RowIdsAreSelected(rows, w, n - 1);
    }
  }

  /** Any two lists of the same rows in query order are the same list. */
  lemma {:induction false} QueryOrderIsUnique(rows: KeyRows, a: seq<nat>, b: seq<nat>)
    requires InQueryOrder(rows, a) && InQueryOrder(rows, b)
    requires forall k :: k in a <==> k in b
    ensures a == b
    decreases |a|
  {
    assert forall i :: 0 <= i < |a| ==> a[i] in b;
    assert forall i :: 0 <= i < |b| ==> b[i] in a;
    if a != [] {
      SameTails(rows, a, b);
      QueryOrderIsUnique(rows, a[1..], b[1..]);
      assert a == [a[0]] + a[1..] && b == [b[0]] + b[1..];
    }
  }

  lemma SameTails(rows: KeyRows, a: seq<nat>, b: seq<nat>)
    requires InQueryOrder(rows, a) && InQueryOrder(rows, b) && a != [] && b != [] && a[0] == b[0]
    requires forall k :: k in a <==> k in b
    ensures forall k :: k in a[1..] <==> k in b[1..]
  {
    TailOf(rows, a);
    TailOf(rows, b);
  }

  lemma TailOf(rows: KeyRows, a: seq<nat>)
    requires InQueryOrder(rows, a) && a != []
    ensures forall k :: k in a[1..] <==> k in a && k != a[0]
  {
    assert a == [a[0]] + a[1..];
    forall k | k in a[1..]
      ensures k != a[0]
    {
      var i :| 0 <= i < |a[1..]| && a[1..][i] == k;
      assert Earlier(rows, a[0], a[i + 1]);
    }
  }

  /**
   * In every ledger whose ids follow time, and so in every run, the rows listed
   * by id are the rows the query lists by time and id.
   */
  lemma ListedInQueryOrder(l: Ledger, w: Window, ids: seq<nat>)
    requires Chronological(l) && IdsBelowNext(l)
    requires InQueryOrder(l.keyRows, ids)
    requires forall k :: k in ids <==> k in l.keyRows && Includes(w, l.keyRows[k])
    ensures |ids| == |Rows(l.keyRows, w, l.nextKeyRow)|
    ensures forall i :: 0 <= i < |ids| ==> ids[i] in l.keyRows && Rows(l.keyRows, w, l.nextKeyRow)[i] == l.keyRows[ids[i]]
  {
    var own := RowIds(l.keyRows, w, l.nextKeyRow);
    RowIdsAreSelected(l.keyRows, w, l.nextKeyRow);
    assert forall k :: k in own <==> k in l.keyRows && Includes(w, l.keyRows[k]);
    assert InQueryOrder(l.keyRows, own);
    QueryOrderIsUnique(l.keyRows, own, ids);
  }

  // ----- The handoff by row id ----------------------------------------------------

  predicate ReachedBelow(rows: KeyRows, w: Window, lim: Limits, n: nat) {
    Reaches(lim, UsedBelow(rows, w, Tokens, n), UsedBelow(rows, w, Money, n))
  }

  /** Key row `k` is the handoff row: the sums reach a limit with it and not before it. */
  predicate HandsOffAt(rows: KeyRows, w: Window, lim: Limits, k: nat) {
    k in rows && Includes(w, rows[k]) && ReachedBelow(rows, w, lim, k + 1) && !ReachedBelow(rows, w, lim, k)
  }

  lemma {:induction false} ReachedBelowStays(rows: KeyRows, w: Window, lim: Limits, low: nat, high: nat)
    requires low <= high && ReachedBelow(rows, w, lim, low)
    ensures ReachedBelow(rows, w, lim, high)
    decreases high
  {
    if low < high {
      ReachedBelowStays(rows, w, lim, low, high - 1);
    }
  }

  lemma ReachedByList(rows: KeyRows, w: Window, lim: Limits, n: nat)
    ensures Reached(Rows(rows, w, n), lim) <==> ReachedBelow(rows, w, lim, n)
  {
    RowsTotal(rows, w, Tokens, n);
    RowsTotal(rows, w, Money, n);
  }

  /** The handoff of the list is the handoff row. */
  lemma {:induction false} HandoffById(rows: KeyRows, w: Window, lim: Limits, n: nat, k: nat)
    requires k < n && HandsOffAt(rows, w, lim, k)
    ensures var list := Rows(rows, w, n);
            Handoff(list, lim).Some? && Handoff(list, lim).value < |list| && list[Handoff(list, lim).value] == rows[k]
    decreases n
  {
    var list := Rows(rows, w, n);
    HandoffIsFirstReach(list, lim);
    if n == k + 1 {
      ReachedByList(rows, w, lim, k);
      ReachedByList(rows, w, lim, k + 1);
      assert list[..|list| - 1] == Rows(rows, w, k);
      HandoffIsFirstReach(Rows(rows, w, k), lim);
    } else {
      HandoffById(rows, w, lim, n - 1, k);
      if list != Rows(rows, w, n - 1) {
        assert list[..|list| - 1] == Rows(rows, w, n - 1);
      }
    }
  }

  lemma {:induction false} HandoffRowExists(rows: KeyRows, w: Window, lim: Limits, n: nat) returns (k: nat)
    requires ReachedBelow(rows, w, lim, n) && !ReachedBelow(rows, w, lim, 0)
    ensures k < n && HandsOffAt(rows, w, lim, k)
  {
    if ReachedBelow(rows, w, lim, n - 1) {
      k := HandoffRowExists(rows, w, lim, n - 1);
    } else {
      k := n - 1;
    }
  }

  /** The handoff instant is the date of the handoff row, and there is at most one such row. */
  lemma HandoffTimeById(l: Ledger, g: nat, lim: Limits, now: Time, k: nat)
    requires PeriodActive(now, lim) && IdsBelowNext(l) && HandsOffAt(l.keyRows, PeriodWindow(g, lim, now), lim, k)
    ensures HandoffTime(l, g, lim, now) == Some(l.keyRows[k].created)
    ensures forall j: nat :: HandsOffAt(l.keyRows, PeriodWindow(g, lim, now), lim, j) ==> j == k
  {
    var w := PeriodWindow(g, lim, now);
    HandoffById(l.keyRows, w, lim, l.nextKeyRow, k);
    forall j: nat | HandsOffAt(l.keyRows, w, lim, j)
      ensures j == k
    {
      if j < k {
        ReachedBelowStays(l.keyRows, w, lim, j + 1, k);
      } else if k < j {
        ReachedBelowStays(l.keyRows, w, lim, k + 1, j);
      }
    }
  }

  // ----- Settlement and the handoff -----------------------------------------------

  /** What a settled row will weigh in a window; a rejected request counts nowhere. */
  function Charge(row: KeyRow, w: Window, s: Settlement, m: Measure): int {
    if !Includes(w, row) || s.status == Rejected then 0
    else if m == Tokens then s.usage.input + s.usage.output else s.usage.amount
  }

  /** The sum over the ids below `n`, once the reservation of row `j` is exchanged for its charge. */
  function UsedAfter(rows: KeyRows, w: Window, s: Settlement, j: nat, m: Measure, n: nat): int
    requires j in rows
  {
    UsedBelow(rows, w, m, n) - (if j < n then Share(rows, w, m, j) - Charge(rows[j], w, s, m) else 0)
  }

  predicate ReachesWith(rows: KeyRows, w: Window, lim: Limits, s: Settlement, j: nat, n: nat)
    requires j in rows
  {
    Reaches(lim, UsedAfter(rows, w, s, j, Tokens, n), UsedAfter(rows, w, s, j, Money, n))
  }

  lemma SettledSums(l: Ledger, id: int, s: Settlement, at: Time, w: Window, j: nat, n: nat)
    requires TwoRow(l) && Finish(l, id, s, at).1 == Settled && Linked(l, id, j)
    ensures var rows' := Finish(l, id, s, at).0.keyRows;
            && j in rows' && (Includes(w, rows'[j]) <==> Includes(w, l.keyRows[j]) && s.status != Rejected)
            && (forall k :: k in l.keyRows && k != j ==> k in rows' && rows'[k] == l.keyRows[k])
            && UsedBelow(rows', w, Tokens, n) == UsedAfter(l.keyRows, w, s, j, Tokens, n)
            && UsedBelow(rows', w, Money, n) == UsedAfter(l.keyRows, w, s, j, Money, n)
  {
    var k := ReservedPairIsUnique(l, id);
    var rows' := Finish(l, id, s, at).0.keyRows;
    assert rows' == l.keyRows[j := rows'[j]];
    SharesChangeAt(l.keyRows, rows', w, Tokens, j, n);
    SharesChangeAt(l.keyRows, rows', w, Money, j, n);
  }

  /**
   * Exactly when a settlement leaves the handoff where it is: the settled row
   * comes after the handoff row, or the sums with the reservation exchanged for
   * the charge still reach a limit with the handoff row and not before it.
   */
  lemma SettlementKeepsHandoffIff(l: Ledger, id: int, s: Settlement, at: Time, w: Window, lim: Limits, k: nat) returns (j: nat)
    requires TwoRow(l) && Finish(l, id, s, at).1 == Settled && HandsOffAt(l.keyRows, w, lim, k)
    ensures Linked(l, id, j)
    ensures HandsOffAt(Finish(l, id, s, at).0.keyRows, w, lim, k) <==>
            j > k || ((j == k ==> s.status != Rejected)
                      && ReachesWith(l.keyRows, w, lim, s, j, k + 1) && !ReachesWith(l.keyRows, w, lim, s, j, k))
  {
    j := ReservedPairIsUnique(l, id);
    SettledSums(l, id, s, at, w, j, k);
    SettledSums(l, id, s, at, w, j, k + 1);
  }

  /** Exactly when a settlement takes the group back into its period. */
  lemma SettlementUndoesHandoffIff(l: Ledger, id: int, s: Settlement, at: Time, g: nat, lim: Limits, now: Time) returns (j: nat)
    requires TwoRow(l) && Finish(l, id, s, at).1 == Settled && PeriodActive(now, lim)
    ensures Linked(l, id, j)
    ensures HandoffTime(Finish(l, id, s, at).0, g, lim, now) == None <==>
            !ReachesWith(l.keyRows, PeriodWindow(g, lim, now), lim, s, j, l.nextKeyRow)
  {
    j := ReservedPairIsUnique(l, id);
    SettledSums(l, id, s, at, PeriodWindow(g, lim, now), j, l.nextKeyRow);
    PeriodScopeNeverRefuses(Finish(l, id, s, at).0, g, lim, now);
  }

  // ----- The property fails: an input ---------------------------------------------

  const ONE_DAY := Limits(0, 0, 0, 0, 0, 0, Some(0), 1, 2, 0)
  const POLICY := Policy(true, 1, None, None, 1, ONE_DAY, Some(Pricing.Quote(1, 1, 1, 1000)), 1)
  const REQUEST := Demand("t", 1, 1, 1, 0, 1, 1)

  lemma SingleRow(rows: KeyRows, w: Window, m: Measure)
    requires rows.Keys == {1}
    ensures UsedBelow(rows, w, m, 1) == 0 && UsedBelow(rows, w, m, 2) == Share(rows, w, m, 1)
  {
    assert 0 !in rows;
    assert UsedBelow(rows, w, m, 0) == 0;
  }

  /** A request that reserves the whole period quota hands the group over; settled unused, it takes the handoff back. */
  lemma SettlementCanUndoHandoff()
    ensures Decide(EMPTY, REQUEST, POLICY).Admitted?
    ensures var l := Reserve(EMPTY, REQUEST, POLICY);
            && HandoffTime(l, 1, ONE_DAY, 0) == Some(0)
            && Finish(l, 1, UNUSED, 0).1 == Settled
            && HandoffTime(Finish(l, 1, UNUSED, 0).0, 1, ONE_DAY, 0) == None
  {
    FirstRequestIsAdmitted(EMPTY, REQUEST, POLICY);
    var t := Decide(EMPTY, REQUEST, POLICY).ticket;
    var l, w := Insert(EMPTY, t), PeriodWindow(1, ONE_DAY, 0);
    EmptyIsTwoRow();
    InsertKeeps(EMPTY, t);
    SingleRow(l.keyRows, w, Tokens);
    SingleRow(l.keyRows, w, Money);
    assert HandsOffAt(l.keyRows, w, ONE_DAY, 1);
    HandoffTimeById(l, 1, ONE_DAY, 0, 1);
    assert NewestReserved(l.keyRows, t.token, 2) == Some(1);
    var j := SettlementUndoesHandoffIff(l, 1, UNUSED, 0, 1, ONE_DAY, 0);
    assert j == 1;
    assert UsedAfter(l.keyRows, w, UNUSED, 1, Tokens, 2) == 0;
  }
}
