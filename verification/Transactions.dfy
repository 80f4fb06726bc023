/**
 * What each transaction of the ledger answers and writes, column by column, in
 * terms of the rows and of nothing else.
 */
module Transactions {
  import opened Base
  import opened Ledger
  import opened Pairing

  // ----- FinishReservation ----------------------------------------------

  predicate Below(t: Option<int>) { t.Some? && t.value < 0 }

  /** The submissions that the store refuses to look at. */
  predicate Malformed(id: int, s: Settlement) {
    || id <= 0
    || s.usage.input < 0 || s.usage.output < 0 || s.usage.cached < 0 || s.usage.amount < 0
    || s.upstream < 0
    || s.usage.input + s.usage.output > MAX_INT64
    || Below(s.duration) || Below(s.header) || Below(s.firstEvent) || Below(s.lastUpstream)
    || (s.status != Completed && s.status != Failed && s.status != Aborted && s.status != Rejected)
  }

  /** The text that is stored for one that may be missing. */
  function OrElse(text: string, default: string): string { if text != "" then text else default }

  /** The columns of a row that a settlement is compared with, and writes. */
  predicate Shows(row: RequestRow, s: Settlement) {
    && row.status == s.status
    && row.usage.input == s.usage.input && row.usage.output == s.usage.output
    && row.usage.cached == s.usage.cached && row.usage.amount == s.usage.amount
    && (if row.notes.upstream.Some? then row.notes.upstream.value else 0) == s.upstream
    && row.notes.errorCode == s.errorCode && row.notes.failureStage == s.failureStage
    && row.notes.usageSource == OrElse(s.usageSource, "unknown") && row.notes.protocol == OrElse(s.protocol, "chat")
    && row.notes.clientRequest == s.clientRequest && row.notes.incomplete == s.incomplete
    && row.notes.duration == s.duration && row.notes.header == s.header
    && row.notes.firstEvent == s.firstEvent && row.notes.lastUpstream == s.lastUpstream
  }

  /** The number zero is never written as an upstream status: it is stored as missing. */
  predicate NoZeroStatus(row: RequestRow) { row.notes.upstream != Some(0) }

  /**
   * Every answer of FinishReservation: a malformed submission is invalid; a
   * missing row is not found; a reserved one is settled, whichever of the four
   * outcomes it is given; a final one is settled already if it shows the
   * outcome, and a conflict if not. Only "settled" changes the tables.
   */
  lemma FinishAnswers(l: Ledger, id: int, s: Settlement, now: Time)
    requires TwoRow(l)
    ensures var (l', result) := Finish(l, id, s, now);
            && (result == Invalid <==> Malformed(id, s))
            && (result == NotFound <==> !Malformed(id, s) && id !in l.requests)
            && (result == Settled <==> !Malformed(id, s) && id in l.requests && l.requests[id].status == Reserved)
            && (result == AlreadySettled <==> !Malformed(id, s) && id in l.requests && l.requests[id].status != Reserved && Shows(l.requests[id], s))
            && (result == Conflict <==> !Malformed(id, s) && id in l.requests && l.requests[id].status != Reserved && !Shows(l.requests[id], s))
            && (result != Settled ==> l' == l)
  {
    if id in l.requests && l.requests[id].status == Reserved {
      var k := ReservedPairIsUnique(l, id);
    }
  }

  /** The refusal alone, for any ledger: every theorem about valid outcomes is about well-formed ones. */
  lemma InvalidIff(l: Ledger, id: int, s: Settlement, now: Time)
    ensures Finish(l, id, s, now).1 == Invalid <==> Malformed(id, s)
    ensures ValidSettlement(id, s) <==> !Malformed(id, s)
  {
  }

  /** Each of the four outcomes with numbers in range settles a reserved request. */
  lemma EveryOutcomeSettles(l: Ledger, id: int, s: Settlement, status: Status, now: Time)
    requires TwoRow(l) && id in l.requests && l.requests[id].status == Reserved
    requires s.usage.input >= 0 && s.usage.output >= 0 && s.usage.cached >= 0 && s.usage.amount >= 0 && s.upstream >= 0
    requires s.usage.input + s.usage.output <= MAX_INT64
    requires forall t :: t in [s.duration, s.header, s.firstEvent, s.lastUpstream] && t.Some? ==> t.value >= 0
    requires status == Completed || status == Failed || status == Aborted || status == Rejected
    ensures Finish(l, id, s.(status := status), now).1 == Settled
  {
    var k := ReservedPairIsUnique(l, id);
    var times := [s.duration, s.header, s.firstEvent, s.lastUpstream];
    assert s.duration == times[0] && s.header == times[1] && s.firstEvent == times[2] && s.lastUpstream == times[3];
  }

  /** What a settlement writes: the request row, its key row, and nothing else. */
  lemma FinishRecords(l: Ledger, id: int, s: Settlement, now: Time) returns (k: nat)
    requires TwoRow(l) && Finish(l, id, s, now).1 == Settled
    ensures Linked(l, id, k)
    ensures var l', row, pair := Finish(l, id, s, now).0, l.requests[id], l.keyRows[k];
            && l'.requests.Keys == l.requests.Keys && l'.keyRows.Keys == l.keyRows.Keys
            && l'.nextRequest == l.nextRequest && l'.nextKeyRow == l.nextKeyRow
            && (forall r :: r in l.requests && r != id ==> l'.requests[r] == l.requests[r])
            && (forall j :: j in l.keyRows && j != k ==> l'.keyRows[j] == l.keyRows[j])
            && Shows(l'.requests[id], s) && NoZeroStatus(l'.requests[id])
            && l'.requests[id] == RequestRow(row.token, row.key, row.model, row.provider, row.group, row.created, row.day, s.status,
                                             0, s.usage.input + s.usage.output, s.usage, l'.requests[id].notes, Some(now))
            && l'.keyRows[k] == KeyRow(pair.token, pair.key, pair.model, pair.group, pair.created, pair.day, s.status,
                                       0, 0, s.usage.input + s.usage.output, s.usage.amount, Some(now))
  {
    k := ReservedPairIsUnique(l, id);
  }

  // ----- ReapOrphanReservations -----------------------------------------

  /** A request whose process is gone: reserved, older than the cutoff, and on no list. */
  predicate Orphaned(l: Ledger, r: nat, cutoff: Time, excluded: set<int>)
    requires r in l.requests
  {
    l.requests[r].status == Reserved && l.requests[r].created < cutoff && r !in excluded
  }

  /** Exactly the orphans are aborted, both rows of each, with nothing charged; every other row stays as it is. */
  lemma ReapRecords(l: Ledger, cutoff: Time, excluded: set<int>, now: Time)
    requires TwoRow(l)
    ensures var l' := Reap(l, cutoff, excluded, now);
            && l'.requests.Keys == l.requests.Keys && l'.keyRows.Keys == l.keyRows.Keys
            && l'.nextRequest == l.nextRequest && l'.nextKeyRow == l.nextKeyRow
            && (forall r :: r in l.requests ==>
                  var row, n := l.requests[r], l.requests[r].notes;
                  l'.requests[r] ==
                  if Orphaned(l, r, cutoff, excluded)
                  then RequestRow(row.token, row.key, row.model, row.provider, row.group, row.created, row.day, Aborted,
                                  0, 0, Usage(0, 0, 0, 0),
                                  Notes(None, "crash_recovered", n.failureStage, "unknown", n.protocol, n.clientRequest, n.incomplete,
                                        n.duration, n.header, n.firstEvent, n.lastUpstream), Some(now))
                  else row)
            && (forall r, k :: Linked(l, r, k) ==>
                  var row := l.keyRows[k];
                  l'.keyRows[k] ==
                  if Orphaned(l, r, cutoff, excluded)
                  then KeyRow(row.token, row.key, row.model, row.group, row.created, row.day, Aborted, 0, 0, 0, 0, Some(now))
                  else row)
  {
    forall r, k | Linked(l, r, k)
      ensures DueKeyRow(l, k, cutoff, excluded) <==> Orphaned(l, r, cutoff, excluded)
    {
      ReapTogether(l, r, k, cutoff, excluded);
    }
  }

  /** A key row without its request, as an older version may have left it, is aborted by its own age alone. */
  lemma ReapsStrayKeyRows(l: Ledger, k: nat, cutoff: Time, excluded: set<int>, now: Time)
    requires k in l.keyRows && forall r :: r in l.requests ==> l.requests[r].token != l.keyRows[k].token
    ensures Reap(l, cutoff, excluded, now).keyRows[k].status ==
            if l.keyRows[k].status == Reserved && l.keyRows[k].created < cutoff then Aborted else l.keyRows[k].status
  {
  }

  /** The number reported is the number of orphaned requests. */
  lemma ReapCounts(l: Ledger, cutoff: Time, excluded: set<int>)
    requires TwoRow(l)
    ensures |set k | k in l.keyRows && DueKeyRow(l, k, cutoff, excluded)| == |set r | r in l.requests && Orphaned(l, r, cutoff, excluded)|
  {
    var due, orphans := set k | k in l.keyRows && DueKeyRow(l, k, cutoff, excluded), set r | r in l.requests && Orphaned(l, r, cutoff, excluded);
    forall r | r in orphans
      ensures NewestReserved(l.keyRows, l.requests[r].token, l.nextKeyRow).Some?
      ensures NewestReserved(l.keyRows, l.requests[r].token, l.nextKeyRow).value in due
    {
      var k := ReservedPairIsUnique(l, r);
      ReapTogether(l, r, k, cutoff, excluded);
    }
    var pairs := map r | r in orphans :: NewestReserved(l.keyRows, l.requests[r].token, l.nextKeyRow).value;
    forall k | k in due
      ensures k in pairs.Values
    {
      assert Owned(l, k);
      var r :| Linked(l, r, k);
      ReapTogether(l, r, k, cutoff, excluded);
      var k' := ReservedPairIsUnique(l, r);
      assert r in pairs && pairs[r] == k;
    }
    forall r, r' | r in pairs && r' in pairs && pairs[r] == pairs[r']
      ensures r == r'
    {
      assert SameRequest(l, r, r');
    }
    assert pairs.Values == due && pairs.Keys == orphans;
    AsManyValues(pairs);
  }

  lemma {:induction false} AsManyValues(m: map<nat, nat>)
    requires forall x, y :: x in m && y in m && m[x] == m[y] ==> x == y
    ensures |m.Keys| == |m.Values|
    decreases |m|
  {
    if m.Keys != {} {
      var x :| x in m;
      var rest := m - {x};
      assert rest.Keys == m.Keys - {x};
      forall v | v in m.Values - {m[x]}
        ensures v in rest.Values
      {
        var y :| y in m && m[y] == v;
        assert y in rest && rest[y] == v;
      }
      assert rest.Values == m.Values - {m[x]};
      AsManyValues(rest);
    }
  }

  // ----- Prune and the deletes ------------------------------------------

  /** Pruning drops the final rows older than the cutoff from both tables, and changes none. */
  lemma PruneKeepsExactly(l: Ledger, cutoff: Time)
    ensures var l' := Prune(l, cutoff);
            && l'.nextRequest == l.nextRequest && l'.nextKeyRow == l.nextKeyRow
            && (forall r :: r in l'.requests <==> r in l.requests && (l.requests[r].status == Reserved || cutoff <= l.requests[r].created))
            && (forall r :: r in l'.requests ==> l'.requests[r] == l.requests[r])
            && (forall k :: k in l'.keyRows <==> k in l.keyRows && (l.keyRows[k].status == Reserved || cutoff <= l.keyRows[k].created))
            && (forall k :: k in l'.keyRows ==> l'.keyRows[k] == l.keyRows[k])
  {
  }

  /** An open reservation of a key or model. */
  ghost predicate InUse(l: Ledger, keys: set<nat>, models: set<nat>) {
    exists k :: k in l.keyRows && l.keyRows[k].status == Reserved && (l.keyRows[k].key in keys || l.keyRows[k].model in models)
  }

  /** Deleting keys, models and providers is rolled back while one of them is in use; otherwise their key rows go, and request rows only lose the reference. */
  lemma DeleteRecords(l: Ledger, keys: set<nat>, models: set<nat>, providers: set<nat>)
    ensures var l' := Delete(l, keys, models, providers);
            && (InUse(l, keys, models) ==> l' == l)
            && (!InUse(l, keys, models) ==>
                  && l'.nextRequest == l.nextRequest && l'.nextKeyRow == l.nextKeyRow
                  && (forall k :: k in l'.keyRows <==> k in l.keyRows && l.keyRows[k].key !in keys && l.keyRows[k].model !in models)
                  && (forall k :: k in l'.keyRows ==> l'.keyRows[k] == l.keyRows[k])
                  && l'.requests.Keys == l.requests.Keys
                  && (forall r :: r in l.requests ==>
                        var row, row' := l.requests[r], l'.requests[r];
                        && row' == row.(key := row'.key, model := row'.model, provider := row'.provider)
                        && (row'.key == row.key || row'.key.None?) && (row'.model == row.model || row'.model.None?)
                        && (row'.provider == row.provider || row'.provider.None?)
                        && (row'.key != row.key <==> row.key.Some? && row.key.value in keys)
                        && (row'.model != row.model <==> row.model.Some? && row.model.value in models)
                        && (row'.provider != row.provider <==> row.provider.Some? && row.provider.value in providers)))
  {
  }
}
