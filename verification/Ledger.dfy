/**
 * The two accounting tables (`requests` and `key_reservations`) and the
 * transactions that change them. Each transaction is one function from ledger
 * to ledger; SQL text, connections and the engine itself are not modelled.
 */
module Ledger {
  import opened Base

  /** `Reserved` as the status of a settlement stands for every text the store refuses. */
  datatype Status = Reserved | Completed | Failed | Aborted | Rejected

  datatype Usage = Usage(input: int, output: int, cached: int, amount: int)

  /** The diagnostic columns of a request row. */
  datatype Notes = Notes(
    upstream: Option<int>, errorCode: string, failureStage: string,
    usageSource: string, protocol: string, clientRequest: string, incomplete: string,
    duration: Option<int>, header: Option<int>, firstEvent: Option<int>, lastUpstream: Option<int>)

  datatype RequestRow = RequestRow(
    token: string, key: Option<nat>, model: Option<nat>, provider: Option<nat>, group: nat,
    created: Time, day: int, status: Status, reserved: nat, charged: nat,
    usage: Usage, notes: Notes, finished: Option<Time>)

  datatype KeyRow = KeyRow(
    token: string, key: nat, model: nat, group: nat, created: Time, day: int, status: Status,
    reservedTokens: nat, reservedAmount: nat, chargedTokens: nat, chargedAmount: nat,
    finished: Option<Time>)

  /**
   * Row ids are handed out upwards from `nextRequest` and `nextKeyRow`.
   * SQLite may hand out again the ids above its highest live row; `ReuseIds`
   * below is that freedom.
   */
  datatype Ledger = Ledger(
    requests: map<nat, RequestRow>, keyRows: map<nat, KeyRow>,
    nextRequest: nat, nextKeyRow: nat)

  const EMPTY: Ledger := Ledger(map[], map[], 1, 1)

  const NO_NOTES: Notes := Notes(None, "", "", "unknown", "chat", "", "", None, None, None, None)

  // ----- FinishReservation ----------------------------------------------

  datatype Settlement = Settlement(
    status: Status, usage: Usage, upstream: int,
    errorCode: string, failureStage: string, usageSource: string, protocol: string,
    clientRequest: string, incomplete: string,
    duration: Option<int>, header: Option<int>, firstEvent: Option<int>, lastUpstream: Option<int>)

  /** The settlement of a request that came to nothing. */
  const UNUSED := Settlement(Aborted, Usage(0, 0, 0, 0), 0, "", "", "", "", "", "", None, None, None, None)

  datatype SettleResult = Settled | AlreadySettled | Invalid | NotFound | Conflict

  predicate NonNegative(t: Option<int>) {
    t.Some? ==> t.value >= 0
  }

  predicate ValidSettlement(id: int, s: Settlement) {
    && id > 0
    && s.usage.input >= 0 && s.usage.output >= 0 && s.usage.cached >= 0 && s.usage.amount >= 0
    && s.upstream >= 0
    && s.usage.input <= MAX_INT64 - s.usage.output
    && s.status != Reserved
    && NonNegative(s.duration) && NonNegative(s.header)
    && NonNegative(s.firstEvent) && NonNegative(s.lastUpstream)
  }

  /** The defaults FinishReservation fills in before it looks at the row. */
  function Normalized(s: Settlement): Settlement {
    s.(usageSource := if s.usageSource == "" then "unknown" else s.usageSource,
       protocol := if s.protocol == "" then "chat" else s.protocol)
  }

  function NotesOf(s: Settlement): Notes {
    Notes(if s.upstream == 0 then None else Some(s.upstream), s.errorCode, s.failureStage,
          s.usageSource, s.protocol, s.clientRequest, s.incomplete,
          s.duration, s.header, s.firstEvent, s.lastUpstream)
  }

  /** The field-by-field comparison made against a row that is no longer reserved. */
  predicate SameOutcome(row: RequestRow, s: Settlement) {
    && row.status == s.status
    && row.usage == s.usage
    && ((row.notes.upstream.None? && s.upstream == 0)
        || (row.notes.upstream.Some? && row.notes.upstream.value == s.upstream))
    && row.notes.(upstream := None) == NotesOf(s).(upstream := None)
  }

  /** `WHERE request_id=? AND status='reserved' ORDER BY id DESC LIMIT 1`, over the ids below `n`. */
  function NewestReserved(rows: map<nat, KeyRow>, token: string, n: nat): (k: Option<nat>)
    ensures k.Some? ==> k.value < n && k.value in rows && rows[k.value].token == token && rows[k.value].status == Reserved
    ensures forall j: nat :: j < n && j in rows && rows[j].token == token && rows[j].status == Reserved
              ==> k.Some? && j <= k.value
  {
    if n == 0 then None
    else if n - 1 in rows && rows[n - 1].token == token && rows[n - 1].status == Reserved then Some(n - 1)
    else NewestReserved(rows, token, n - 1)
  }

  function SettledRequest(row: RequestRow, s: Settlement, now: Time): RequestRow
    requires s.usage.input >= 0 && s.usage.output >= 0
  {
    row.(status := s.status, reserved := 0, charged := s.usage.input + s.usage.output,
         usage := s.usage, notes := NotesOf(s), finished := Some(now))
  }

  function SettledKeyRow(row: KeyRow, s: Settlement, now: Time): KeyRow
    requires s.usage.input >= 0 && s.usage.output >= 0 && s.usage.amount >= 0
  {
    row.(status := s.status, reservedTokens := 0, reservedAmount := 0,
         chargedTokens := s.usage.input + s.usage.output, chargedAmount := s.usage.amount, finished := Some(now))
  }

  function Finish(l: Ledger, id: int, settlement: Settlement, now: Time): (Ledger, SettleResult) {
    if !ValidSettlement(id, settlement) then (l, Invalid)
    else if id !in l.requests then (l, NotFound)
    else
      var s := Normalized(settlement);
      var row := l.requests[id];
      if row.status != Reserved then (l, if SameOutcome(row, s) then AlreadySettled else Conflict)
      else
        match NewestReserved(l.keyRows, row.token, l.nextKeyRow)
        case None => (l, NotFound)
        case Some(k) =>
          (l.(keyRows := l.keyRows[k := SettledKeyRow(l.keyRows[k], s, now)],
              requests := l.requests[id := SettledRequest(row, s, now)]),
           Settled)
  }

  // ----- ReapOrphanReservations -----------------------------------------

  predicate DueRequest(l: Ledger, id: nat, cutoff: Time, excluded: set<int>) {
    && id in l.requests
    && l.requests[id].status == Reserved
    && l.requests[id].created < cutoff
    && id !in excluded
  }

  predicate DueKeyRow(l: Ledger, k: nat, cutoff: Time, excluded: set<int>) {
    && k in l.keyRows
    && l.keyRows[k].status == Reserved
    && l.keyRows[k].created < cutoff
    && ((forall r :: r in l.requests && l.requests[r].token == l.keyRows[k].token ==> l.requests[r].status != Reserved)
        || (exists r :: r in l.requests && l.requests[r].token == l.keyRows[k].token && DueRequest(l, r, cutoff, excluded)))
  }

  function AbortedRequest(row: RequestRow, now: Time): RequestRow {
    row.(status := Aborted, usage := Usage(0, 0, 0, 0), charged := 0, reserved := 0,
         notes := row.notes.(upstream := None, errorCode := "crash_recovered", usageSource := "unknown"),
         finished := Some(now))
  }

  function AbortedKeyRow(row: KeyRow, now: Time): KeyRow {
    row.(status := Aborted, chargedTokens := 0, chargedAmount := 0, reservedTokens := 0, reservedAmount := 0,
         finished := Some(now))
  }

  function Reap(l: Ledger, cutoff: Time, excluded: set<int>, now: Time): Ledger {
    l.(keyRows := map k | k in l.keyRows ::
                    if DueKeyRow(l, k, cutoff, excluded) then AbortedKeyRow(l.keyRows[k], now) else l.keyRows[k],
       requests := map r | r in l.requests ::
                     if DueRequest(l, r, cutoff, excluded) then AbortedRequest(l.requests[r], now) else l.requests[r])
  }

  // ----- Prune and the administrative deletes -----------------------------

  function Prune(l: Ledger, cutoff: Time): Ledger {
    l.(requests := map r | r in l.requests && !(l.requests[r].created < cutoff && l.requests[r].status != Reserved)
                     :: l.requests[r],
       keyRows := map k | k in l.keyRows && !(l.keyRows[k].created < cutoff && l.keyRows[k].status != Reserved)
                    :: l.keyRows[k])
  }

  function Cleared(reference: Option<nat>, gone: set<nat>): Option<nat> {
    if reference.Some? && reference.value in gone then None else reference
  }

  predicate Doomed(row: KeyRow, keys: set<nat>, models: set<nat>) {
    row.key in keys || row.model in models
  }

  /**
   * Deleting a client key, a model, or a provider with all its models: key rows
   * cascade, request rows only lose the reference, and the trigger on reserved
   * key rows rolls the whole delete back.
   */
  function Delete(l: Ledger, keys: set<nat>, models: set<nat>, providers: set<nat>): Ledger {
    if exists k :: k in l.keyRows && l.keyRows[k].status == Reserved && Doomed(l.keyRows[k], keys, models) then l
    else
      l.(keyRows := map k | k in l.keyRows && !Doomed(l.keyRows[k], keys, models) :: l.keyRows[k],
         requests := map r | r in l.requests ::
                       l.requests[r].(key := Cleared(l.requests[r].key, keys),
                                      model := Cleared(l.requests[r].model, models),
                                      provider := Cleared(l.requests[r].provider, providers)))
  }

  predicate MayReuse(l: Ledger, nextRequest: nat, nextKeyRow: nat) {
    && 1 <= nextRequest && 1 <= nextKeyRow
    && (forall r :: r in l.requests ==> r < nextRequest)
    && (forall k :: k in l.keyRows ==> k < nextKeyRow)
  }

  function ReuseIds(l: Ledger, nextRequest: nat, nextKeyRow: nat): Ledger {
    if MayReuse(l, nextRequest, nextKeyRow) then l.(nextRequest := nextRequest, nextKeyRow := nextKeyRow) else l
  }

  // ----- The pair inserted by ReserveRequest --------------------------------

  datatype Ticket = Ticket(
    token: string, key: nat, model: nat, provider: nat, group: nat, created: Time, day: int,
    input: nat, tokens: nat, amount: nat)

  predicate TokenFree(l: Ledger, token: string) {
    forall r :: r in l.requests ==> l.requests[r].token != token
  }

  /** Both inserts of ReserveRequest, in one transaction. */
  function Insert(l: Ledger, t: Ticket): Ledger {
    l.(requests := l.requests[l.nextRequest :=
           RequestRow(t.token, Some(t.key), Some(t.model), Some(t.provider), t.group, t.created, t.day,
                      Reserved, t.tokens, 0, Usage(t.input, 0, 0, t.amount), NO_NOTES, None)],
       keyRows := l.keyRows[l.nextKeyRow :=
           KeyRow(t.token, t.key, t.model, t.group, t.created, t.day, Reserved, t.tokens, t.amount, 0, 0, None)],
       nextRequest := l.nextRequest + 1,
       nextKeyRow := l.nextKeyRow + 1)
  }
}
