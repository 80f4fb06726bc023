/**
 * The custom period and its handoff to the weekly window: the first row, in
 * order of time and id, at which the running totals reach a period limit.
 */
module Period {
  import opened Base
  import opened Ledger
  import opened Calendar
  import opened Windows

  predicate Reaches(lim: Limits, tokens: int, amount: int) {
    (lim.tokenPeriod > 0 && tokens >= lim.tokenPeriod) || (lim.amountPeriod > 0 && amount >= lim.amountPeriod)
  }

  predicate Reached(list: seq<KeyRow>, lim: Limits) {
    Reaches(lim, Total(list, Tokens), Total(list, Money))
  }

  /** The position of the handoff row, if the list contains one. */
  function Handoff(list: seq<KeyRow>, lim: Limits): Option<nat> {
    if list == [] then None
    else
      match Handoff(list[..|list| - 1], lim)
      case Some(k) => Some(k)
      case None => if Reached(list, lim) then Some(|list| - 1) else None
  }

  /** Once reached, a limit stays reached: row weights are not negative. */
  lemma {:induction false} ReachedStays(list: seq<KeyRow>, lim: Limits, k: nat)
    requires k <= |list| && Reached(list[..k], lim)
    ensures Reached(list, lim)
    decreases |list|
  {
    if k < |list| {
      var init := list[..|list| - 1];
      assert init[..k] == list[..k];
      ReachedStays(init, lim, k);
    } else {
      assert list[..k] == list;
    }
  }

  /**
   * The handoff exists exactly when the totals reach a limit, and it is the
   * first row whose prefix does.
   */
  lemma {:induction false} HandoffIsFirstReach(list: seq<KeyRow>, lim: Limits)
    ensures Handoff(list, lim).Some? <==> Reached(list, lim)
    ensures Handoff(list, lim).Some? ==>
              && Handoff(list, lim).value < |list|
              && Reached(list[..Handoff(list, lim).value + 1], lim)
              && (forall j :: 0 <= j <= Handoff(list, lim).value ==> !Reached(list[..j], lim))
  {
    if list != [] {
      var init := list[..|list| - 1];
      HandoffIsFirstReach(init, lim);
      assert forall j :: 0 <= j <= |init| ==> init[..j] == list[..j];
      match Handoff(init, lim) {
        case Some(k) =>
          ReachedStays(list, lim, k + 1);
        case None =>
          forall j | 0 <= j <= |init|
            ensures !Reached(list[..j], lim)
          {
            if Reached(init[..j], lim) {
              ReachedStays(init, lim, j);
            }
          }
          assert list[..|list|] == list;
      }
    }
  }

  /**
   * The handoff depends only on the rows up to it: neither a later admission
   * nor the settlement of a later row moves a handoff that has happened.
   */
  lemma {:induction false} HandoffIgnoresLaterRows(list: seq<KeyRow>, list': seq<KeyRow>, lim: Limits)
    requires Handoff(list, lim).Some?
    requires Handoff(list, lim).value < |list|
    requires list[..Handoff(list, lim).value + 1] <= list'
    ensures Handoff(list', lim) == Handoff(list, lim)
    decreases |list'|
  {
    var k := Handoff(list, lim).value;
    HandoffIsFirstReach(list, lim);
    HandoffIsFirstReach(list', lim);
    assert forall j :: 0 <= j <= k + 1 ==> list'[..j] == list[..j];
    ReachedStays(list', lim, k + 1);
  }

  /** Replacing one row moves the prefix sums behind it by the difference of the two weights. */
  lemma {:induction false} TotalOfUpdated(list: seq<KeyRow>, j: nat, row: KeyRow, m: Measure, n: nat)
    requires j < |list| && n <= |list|
    ensures Total(list[j := row][..n], m) + (if j < n then Weight(list[j], m) else 0)
            == Total(list[..n], m) + if j < n then Weight(row, m) else 0
  {
    if n > 0 {
      TotalOfUpdated(list, j, row, m, n - 1);
      assert list[..n][..n - 1] == list[..n - 1] && list[j := row][..n][..n - 1] == list[j := row][..n - 1];
    }
  }

  /** Whether the limits are reached after `n` rows, once the weight of row `j` is exchanged for that of `row`. */
  predicate ReachesAfter(list: seq<KeyRow>, lim: Limits, j: nat, row: KeyRow, n: nat)
    requires j < n <= |list|
  {
    Reaches(lim, Total(list[..n], Tokens) - Weight(list[j], Tokens) + Weight(row, Tokens),
            Total(list[..n], Money) - Weight(list[j], Money) + Weight(row, Money))
  }

  /**
   * A change of one row leaves the handoff in place exactly if the row comes
   * after it, or the sums up to the handoff still reach a limit there and not
   * earlier.
   */
  lemma UpdateKeepsHandoffIff(list: seq<KeyRow>, lim: Limits, j: nat, row: KeyRow)
    requires j < |list| && Handoff(list, lim).Some?
    ensures var k := Handoff(list, lim).value;
            && k < |list|
            && (Handoff(list[j := row], lim) == Some(k) <==>
                j > k || (ReachesAfter(list, lim, j, row, k + 1) && (j < k ==> !ReachesAfter(list, lim, j, row, k))))
  {
    var list', k := list[j := row], Handoff(list, lim).value;
    HandoffIsFirstReach(list, lim);
    HandoffIsFirstReach(list', lim);
    if j > k {
      assert list'[..k + 1] == list[..k + 1];
      HandoffIgnoresLaterRows(list, list', lim);
    } else {
      UpdatedReach(list, lim, j, row, k + 1);
      if j < k {
        UpdatedReach(list, lim, j, row, k);
      } else {
        assert list'[..k] == list[..k];
      }
      FirstReachDecides(list', lim, k);
    }
  }

  lemma UpdatedReach(list: seq<KeyRow>, lim: Limits, j: nat, row: KeyRow, n: nat)
    requires j < n <= |list|
    ensures Reached(list[j := row][..n], lim) <==> ReachesAfter(list, lim, j, row, n)
  {
    TotalOfUpdated(list, j, row, Tokens, n);
    TotalOfUpdated(list, j, row, Money, n);
  }

  lemma FirstReachDecides(list: seq<KeyRow>, lim: Limits, k: nat)
    requires k < |list|
    ensures Handoff(list, lim) == Some(k) <==> Reached(list[..k + 1], lim) && !Reached(list[..k], lim)
  {
    HandoffIsFirstReach(list, lim);
    if Reached(list[..k + 1], lim) && !Reached(list[..k], lim) {
      ReachedStays(list, lim, k + 1);
      var h := Handoff(list, lim).value;
      if h < k {
        assert list[..k][..h + 1] == list[..h + 1];
        ReachedStays(list[..k], lim, h + 1);
      }
    }
  }

  /** The value periodQuotaTransition returns for the rows its second query lists. */
  function Transition(list: seq<KeyRow>, lim: Limits): (t: Option<Time>) {
    HandoffIsFirstReach(list, lim);
    match Handoff(list, lim)
    case None => None
    case Some(k) => Some(list[k].created)
  }

  /**
   * The search itself: totals first, then running sums row by row. The loop
   * never runs off the end of the list.
   */
  method PeriodQuotaTransition(list: seq<KeyRow>, lim: Limits)
    returns (transition: Option<Time>, tokens: nat, amount: nat)
    ensures lim.periodDays <= 0 || lim.periodStart.None? ==> transition == None && tokens == 0 && amount == 0
    ensures lim.periodDays > 0 && lim.periodStart.Some? ==>
              && tokens == Total(list, Tokens) && amount == Total(list, Money)
              && transition == Transition(list, lim)
    ensures lim.periodDays > 0 && lim.periodStart.Some? ==>
              (transition.None? <==>
                 && (lim.tokenPeriod <= 0 || tokens < lim.tokenPeriod)
                 && (lim.amountPeriod <= 0 || amount < lim.amountPeriod))
  {
    if lim.periodDays <= 0 || lim.periodStart.None? {
      return None, 0, 0;
    }
    tokens, amount := Total(list, Tokens), Total(list, Money);
    HandoffIsFirstReach(list, lim);
    if (lim.tokenPeriod <= 0 || tokens < lim.tokenPeriod) && (lim.amountPeriod <= 0 || amount < lim.amountPeriod) {
      return None, tokens, amount;
    }
    var runningTokens, runningAmount := 0, 0;
    var i := 0;
    while i < |list|
      invariant 0 <= i <= |list|
      invariant runningTokens == Total(list[..i], Tokens) && runningAmount == Total(list[..i], Money)
      invariant i <= Handoff(list, lim).value
    {
      assert list[..i + 1][..i] == list[..i];
      runningTokens := runningTokens + Weight(list[i], Tokens);
      runningAmount := runningAmount + Weight(list[i], Money);
      if (lim.tokenPeriod > 0 && runningTokens >= lim.tokenPeriod)
         || (lim.amountPeriod > 0 && runningAmount >= lim.amountPeriod) {
        assert Reached(list[..i + 1], lim);
        return Some(list[i].created), tokens, amount;
      }
      assert !Reached(list[..i + 1], lim);
      i := i + 1;
    }
    assert false;
  }
}
