/**
 * The two-row invariant: every key row belongs to exactly one request row, a
 * reserved request has exactly one key row, and the two rows of a pair agree.
 * Each transaction of the ledger keeps it.
 */
module Pairing {
  import opened Base
  import opened Ledger

  /** What the two rows of one request have in common. */
  predicate Paired(r: RequestRow, k: KeyRow) {
    && r.token == k.token && r.key == Some(k.key) && r.model == Some(k.model)
    && r.group == k.group && r.created == k.created && r.day == k.day
    && r.status == k.status && r.finished == k.finished
    && r.reserved == k.reservedTokens && r.charged == k.chargedTokens
    && r.usage.amount == k.reservedAmount + k.chargedAmount
    && (if r.status == Reserved then k.chargedTokens == 0 && k.chargedAmount == 0 && r.finished == None
        else k.reservedTokens == 0 && k.reservedAmount == 0)
  }

  ghost predicate IdsBelowNext(l: Ledger) {
    && 1 <= l.nextRequest && 1 <= l.nextKeyRow
    && (forall r :: r in l.requests ==> 1 <= r < l.nextRequest)
    && (forall k :: k in l.keyRows ==> 1 <= k < l.nextKeyRow)
  }

  ghost predicate SameRequest(l: Ledger, r: nat, r': nat) {
    r in l.requests && r' in l.requests && l.requests[r].token == l.requests[r'].token
  }

  ghost predicate SameKeyRow(l: Ledger, k: nat, k': nat) {
    k in l.keyRows && k' in l.keyRows && l.keyRows[k].token == l.keyRows[k'].token
  }

  ghost predicate TokensUnique(l: Ledger) {
    && (forall r, r' :: SameRequest(l, r, r') ==> r == r')
    && (forall k, k' :: SameKeyRow(l, k, k') ==> k == k')
  }

  ghost predicate Linked(l: Ledger, r: nat, k: nat) {
    r in l.requests && k in l.keyRows && Paired(l.requests[r], l.keyRows[k])
  }

  ghost predicate Owned(l: Ledger, k: nat) {
    exists r :: Linked(l, r, k)
  }

  ghost predicate HasKeyRow(l: Ledger, r: nat) {
    exists k :: Linked(l, r, k)
  }

  ghost predicate KeyRowsOwned(l: Ledger) {
    forall k {:trigger Owned(l, k)} :: k in l.keyRows ==> Owned(l, k)
  }

  ghost predicate ReservedHaveKeyRow(l: Ledger) {
    forall r {:trigger HasKeyRow(l, r)} :: r in l.requests && l.requests[r].status == Reserved ==> HasKeyRow(l, r)
  }

  ghost predicate TwoRow(l: Ledger) {
    IdsBelowNext(l) && TokensUnique(l) && KeyRowsOwned(l) && ReservedHaveKeyRow(l)
  }

  /**
   * True of every transaction but the insert: no row appears, none is renamed,
   * none becomes reserved, and rows that were linked stay linked.
   */
  ghost predicate Shrinks(l: Ledger, l': Ledger) {
    && l'.nextRequest == l.nextRequest && l'.nextKeyRow == l.nextKeyRow
    && (forall r :: r in l'.requests ==>
          && r in l.requests && l'.requests[r].token == l.requests[r].token
          && (l'.requests[r].status == Reserved ==> l.requests[r].status == Reserved))
    && (forall k :: k in l'.keyRows ==> k in l.keyRows && l'.keyRows[k].token == l.keyRows[k].token)
  }

  ghost predicate KeepsLinks(l: Ledger, l': Ledger) {
    forall r, k :: Linked(l, r, k) ==>
      && (k in l'.keyRows ==> Linked(l', r, k))
      && (r in l'.requests && l'.requests[r].status == Reserved ==> Linked(l', r, k))
  }

  lemma ShrinkingKeeps(l: Ledger, l': Ledger)
    requires TwoRow(l) && Shrinks(l, l') && KeepsLinks(l, l')
    ensures TwoRow(l')
  {
    assert forall r, r' :: SameRequest(l', r, r') ==> SameRequest(l, r, r');
    assert forall k, k' :: SameKeyRow(l', k, k') ==> SameKeyRow(l, k, k');
    forall k | k in l'.keyRows
      ensures Owned(l', k)
    {
      assert Owned(l, k);
      var r :| Linked(l, r, k);
    }
    forall r | r in l'.requests && l'.requests[r].status == Reserved
      ensures HasKeyRow(l', r)
    {
      assert HasKeyRow(l, r);
      var k :| Linked(l, r, k);
    }
  }

  /** The invariant read from the side of one reserved request. */
  lemma ReservedPairIsUnique(l: Ledger, r: nat) returns (k: nat)
    requires TwoRow(l) && r in l.requests && l.requests[r].status == Reserved
    ensures Linked(l, r, k)
    ensures forall j :: j in l.keyRows && l.keyRows[j].token == l.requests[r].token ==> j == k
    ensures NewestReserved(l.keyRows, l.requests[r].token, l.nextKeyRow) == Some(k)
  {
    assert HasKeyRow(l, r);
    k :| Linked(l, r, k);
    assert forall j :: j in l.keyRows && l.keyRows[j].token == l.requests[r].token ==> SameKeyRow(l, j, k);
  }

  lemma EmptyIsTwoRow()
    ensures TwoRow(EMPTY)
  {
  }

  lemma InsertKeepsTokens(l: Ledger, t: Ticket)
    requires TwoRow(l) && TokenFree(l, t.token)
    ensures TokensUnique(Insert(l, t))
  {
    var l' := Insert(l, t);
    forall k | k in l.keyRows
      ensures l.keyRows[k].token != t.token
    {
      assert Owned(l, k);
      var r :| Linked(l, r, k);
    }
    assert forall r, r' :: SameRequest(l', r, r') && r != r' ==> SameRequest(l, r, r');
    assert forall k, k' :: SameKeyRow(l', k, k') && k != k' ==> SameKeyRow(l, k, k');
  }

  lemma InsertKeepsLink(l: Ledger, t: Ticket, r: nat, k: nat)
    requires IdsBelowNext(l) && Linked(l, r, k)
    ensures Linked(Insert(l, t), r, k)
  {
  }

  lemma InsertKeepsOwned(l: Ledger, t: Ticket, k: nat)
    requires TwoRow(l) && k in Insert(l, t).keyRows
    ensures Owned(Insert(l, t), k)
  {
    if k == l.nextKeyRow {
      assert Linked(Insert(l, t), l.nextRequest, k);
    } else {
      assert Owned(l, k);
      var r :| Linked(l, r, k);
      InsertKeepsLink(l, t, r, k);
    }
  }

  lemma InsertKeepsKeyRow(l: Ledger, t: Ticket, r: nat)
    requires TwoRow(l) && r in Insert(l, t).requests && Insert(l, t).requests[r].status == Reserved
    ensures HasKeyRow(Insert(l, t), r)
  {
    if r == l.nextRequest {
      assert Linked(Insert(l, t), r, l.nextKeyRow);
    } else {
      assert HasKeyRow(l, r);
      var k :| Linked(l, r, k);
      InsertKeepsLink(l, t, r, k);
    }
  }

  lemma InsertKeeps(l: Ledger, t: Ticket)
    requires TwoRow(l) && TokenFree(l, t.token)
    ensures TwoRow(Insert(l, t))
    ensures l.nextRequest !in l.requests && l.nextKeyRow !in l.keyRows
  {
    InsertKeepsTokens(l, t);
    forall k | k in Insert(l, t).keyRows
      ensures Owned(Insert(l, t), k)
    {
      InsertKeepsOwned(l, t, k);
    }
    forall r | r in Insert(l, t).requests && Insert(l, t).requests[r].status == Reserved
      ensures HasKeyRow(Insert(l, t), r)
    {
      InsertKeepsKeyRow(l, t, r);
    }
  }

  lemma FinishKeeps(l: Ledger, id: int, s: Settlement, now: Time)
    requires TwoRow(l)
    ensures TwoRow(Finish(l, id, s, now).0)
  {
    var l' := Finish(l, id, s, now).0;
    if Finish(l, id, s, now).1 == Settled {
      var settled := ReservedPairIsUnique(l, id);
      forall r, k | Linked(l, r, k)
        ensures Linked(l', r, k)
      {
        assert r == id ==> SameKeyRow(l, k, settled);
        assert k == settled ==> SameRequest(l, r, id);
      }
      ShrinkingKeeps(l, l');
    }
  }

  /** Both rows of a pair fall to the reaper together. */
  lemma ReapTogether(l: Ledger, r: nat, k: nat, cutoff: Time, excluded: set<int>)
    requires TwoRow(l) && Linked(l, r, k)
    ensures DueRequest(l, r, cutoff, excluded) <==> DueKeyRow(l, k, cutoff, excluded)
  {
    assert forall r' :: r' in l.requests && l.requests[r'].token == l.keyRows[k].token ==> SameRequest(l, r, r');
  }

  lemma ReapKeeps(l: Ledger, cutoff: Time, excluded: set<int>, now: Time)
    requires TwoRow(l)
    ensures TwoRow(Reap(l, cutoff, excluded, now))
  {
    var l' := Reap(l, cutoff, excluded, now);
    forall r, k | Linked(l, r, k)
      ensures Linked(l', r, k)
    {
      ReapTogether(l, r, k, cutoff, excluded);
    }
    ShrinkingKeeps(l, l');
  }

  lemma PruneKeeps(l: Ledger, cutoff: Time)
    requires TwoRow(l)
    ensures TwoRow(Prune(l, cutoff))
  {
    ShrinkingKeeps(l, Prune(l, cutoff));
  }

  lemma DeleteKeeps(l: Ledger, keys: set<nat>, models: set<nat>, providers: set<nat>)
    requires TwoRow(l)
    ensures TwoRow(Delete(l, keys, models, providers))
  {
    var l' := Delete(l, keys, models, providers);
    if l' != l {
      ShrinkingKeeps(l, l');
    }
  }

  lemma ReuseKeeps(l: Ledger, nextRequest: nat, nextKeyRow: nat)
    requires TwoRow(l)
    ensures TwoRow(ReuseIds(l, nextRequest, nextKeyRow))
  {
    var l' := ReuseIds(l, nextRequest, nextKeyRow);
    assert forall r, k :: Linked(l', r, k) <==> Linked(l, r, k);
    assert forall r, r' :: SameRequest(l', r, r') ==> SameRequest(l, r, r');
    assert forall k, k' :: SameKeyRow(l', k, k') ==> SameKeyRow(l, k, k');
    forall k | k in l'.keyRows
      ensures Owned(l', k)
    {
      assert Owned(l, k);
      var r :| Linked(l, r, k);
    }
    forall r | r in l'.requests && l'.requests[r].status == Reserved
      ensures HasKeyRow(l', r)
    {
      assert HasKeyRow(l, r);
      var k :| Linked(l, r, k);
    }
  }

  /** Recovery at startup: nothing is excluded and the cutoff lies beyond every row. */
  lemma RecoveryLeavesNothingReserved(l: Ledger, cutoff: Time, now: Time)
    requires TwoRow(l)
    requires forall r :: r in l.requests ==> l.requests[r].created < cutoff
    ensures var l' := Reap(l, cutoff, {}, now);
            && TwoRow(l')
            && (forall r :: r in l'.requests ==> l'.requests[r].status != Reserved)
            && (forall k :: k in l'.keyRows ==> l'.keyRows[k].status != Reserved)
  {
    ReapKeeps(l, cutoff, {}, now);
    var l' := Reap(l, cutoff, {}, now);
    forall k | k in l'.keyRows
      ensures l'.keyRows[k].status != Reserved
    {
      assert Owned(l', k);
      var r :| Linked(l', r, k);
    }
  }
}
