/**
 * The window sums over `key_reservations`: `SELECT SUM(...) WHERE ...`
 * written as a recursion over row ids. Open reservations count as used.
 */
module Windows {
  import opened Base
  import opened Ledger

  datatype Scope = OfKey(key: nat) | OfGroup(group: nat)

  datatype Measure = Tokens | Money

  /** A WHERE clause: every bound that is present must hold. */
  datatype Window = Window(
    scope: Scope, from: Option<Time>, after: Option<Time>, until: Option<Time>, before: Option<Time>, day: Option<int>)

  predicate Includes(w: Window, row: KeyRow) {
    && row.status != Rejected
    && (match w.scope case OfKey(k) => row.key == k case OfGroup(g) => row.group == g)
    && (w.from.Some? ==> w.from.value <= row.created)
    && (w.after.Some? ==> w.after.value < row.created)
    && (w.until.Some? ==> row.created <= w.until.value)
    && (w.before.Some? ==> row.created < w.before.value)
    && (w.day.Some? ==> row.day == w.day.value)
  }

  function Weight(row: KeyRow, m: Measure): nat {
    match m
    case Tokens => row.reservedTokens + row.chargedTokens
    case Money => row.chargedAmount + row.reservedAmount
  }

  function Share(rows: map<nat, KeyRow>, w: Window, m: Measure, k: nat): nat {
    if k in rows && Includes(w, rows[k]) then Weight(rows[k], m) else 0
  }

  function UsedBelow(rows: map<nat, KeyRow>, w: Window, m: Measure, n: nat): nat {
    if n == 0 then 0 else UsedBelow(rows, w, m, n - 1) + Share(rows, w, m, n - 1)
  }

  function Used(l: Ledger, w: Window, m: Measure): nat {
    UsedBelow(l.keyRows, w, m, l.nextKeyRow)
  }

  // ----- How sums move when tables do ------------------------------------

  /** Two clauses that select the same rows give the same sum; a smaller share everywhere gives a smaller sum. */
  lemma {:induction false} SharesBound(
    rows: map<nat, KeyRow>, w: Window, rows': map<nat, KeyRow>, w': Window, m: Measure, n: nat)
    requires forall k: nat :: k < n ==> Share(rows', w', m, k) <= Share(rows, w, m, k)
    ensures UsedBelow(rows', w', m, n) <= UsedBelow(rows, w, m, n)
  {
    if n > 0 {
      SharesBound(rows, w, rows', w', m, n - 1);
    }
  }

  lemma SharesAgree(rows: map<nat, KeyRow>, w: Window, rows': map<nat, KeyRow>, w': Window, m: Measure, n: nat)
    requires forall k: nat :: k < n ==> Share(rows', w', m, k) == Share(rows, w, m, k)
    ensures UsedBelow(rows', w', m, n) == UsedBelow(rows, w, m, n)
  {
    SharesBound(rows, w, rows', w', m, n);
    SharesBound(rows', w', rows, w, m, n);
  }

  /** A clause that splits into two disjoint ones: the sums add up. */
  lemma {:induction false} SharesSplit(rows: map<nat, KeyRow>, whole: Window, a: Window, b: Window, m: Measure, n: nat)
    requires forall k: nat :: k < n ==> Share(rows, whole, m, k) == Share(rows, a, m, k) + Share(rows, b, m, k)
    ensures UsedBelow(rows, whole, m, n) == UsedBelow(rows, a, m, n) + UsedBelow(rows, b, m, n)
  {
    if n > 0 {
      SharesSplit(rows, whole, a, b, m, n - 1);
    }
  }

  /** The bound may be raised over ids that no row has. */
  lemma {:induction false} IdsAboveAddNothing(rows: map<nat, KeyRow>, w: Window, m: Measure, low: nat, high: nat)
    requires low <= high && forall k :: k in rows ==> k < low
    ensures UsedBelow(rows, w, m, low) == UsedBelow(rows, w, m, high)
    decreases high
  {
    if low < high {
      IdsAboveAddNothing(rows, w, m, low, high - 1);
    }
  }

  // ----- The rows themselves, oldest first --------------------------------

  /** The selected rows in id order. */
  function Rows(rows: map<nat, KeyRow>, w: Window, n: nat): seq<KeyRow> {
    if n == 0 then []
    else if n - 1 in rows && Includes(w, rows[n - 1]) then Rows(rows, w, n - 1) + [rows[n - 1]]
    else Rows(rows, w, n - 1)
  }

  function Total(list: seq<KeyRow>, m: Measure): nat {
    if list == [] then 0 else Total(list[..|list| - 1], m) + Weight(list[|list| - 1], m)
  }

  lemma TotalOfExtended(list: seq<KeyRow>, row: KeyRow, m: Measure)
    ensures Total(list + [row], m) == Total(list, m) + Weight(row, m)
  {
    assert (list + [row])[..|list|] == list;
  }

  lemma {:induction false} RowsTotal(rows: map<nat, KeyRow>, w: Window, m: Measure, n: nat)
    ensures Total(Rows(rows, w, n), m) == UsedBelow(rows, w, m, n)
  {
    if n > 0 {
      RowsTotal(rows, w, m, n - 1);
      if n - 1 in rows && Includes(w, rows[n - 1]) {
        TotalOfExtended(Rows(rows, w, n - 1), rows[n - 1], m);
      }
    }
  }

  lemma {:induction false} RowsAreRows(rows: map<nat, KeyRow>, w: Window, n: nat, i: nat) returns (k: nat)
    requires i < |Rows(rows, w, n)|
    ensures k in rows && Includes(w, rows[k]) && Rows(rows, w, n)[i] == rows[k]
  {
    if n - 1 in rows && Includes(w, rows[n - 1]) && i == |Rows(rows, w, n)| - 1 {
      k := n - 1;
    } else {
      k := RowsAreRows(rows, w, n - 1, i);
    }
  }
}
