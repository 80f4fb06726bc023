/**
 * The cache of upstream clients beside the provider table. A lookup holds the
 * registry's lock through two separate reads of the table; updates and deletes
 * commit first and evict afterwards. Steps interleave freely.
 */
module ProviderCache {
  import opened Base

  datatype Row = Row(url: string, protocol: string, key: string, enabled: bool)

  datatype Client = Client(url: string, key: string, protocol: string)

  /** Fields left out keep their value. */
  datatype Change = Change(url: Option<string>, protocol: Option<string>, key: Option<string>, enabled: Option<bool>)

  /** The lookup that holds the registry's lock, if any. */
  datatype Lookup = Unlocked | Missed(id: nat) | HaveRow(id: nat, url: string, protocol: string) | HaveKey(id: nat, client: Client)

  /** An administrator's call: between its read and its commit, or between its commit and its eviction. */
  datatype Call = Updating(id: nat, current: Row, change: Change) | Evicting(id: nat)

  datatype State = State(rows: map<nat, Row>, clients: map<nat, Client>, lookup: Lookup, calls: map<nat, Call>)

  const START := State(map[], map[], Unlocked, map[])

  datatype Action =
    | Look(id: nat)
    | ReadRow
    | ReadKey
    | StoreClient
    | BeginUpdate(call: nat, id: nat, change: Change)
    | CommitUpdate(call: nat)
    | AbandonUpdate(call: nat)
    | CommitDelete(call: nat, id: nat)
    | Evict(call: nat)
    | Create(id: nat, row: Row)

  function Or<T>(o: Option<T>, value: T): T { if o.Some? then o.value else value }

  function Apply(row: Row, c: Change): Row {
    Row(Or(c.url, row.url), Or(c.protocol, row.protocol), Or(c.key, row.key), Or(c.enabled, row.enabled))
  }

  /** The condition under which an update evicts: judged by the row it read, not by the row it overwrites. */
  predicate NeedsEviction(current: Row, c: Change) {
    c.key.Some? || Or(c.url, current.url) != current.url || Or(c.protocol, current.protocol) != current.protocol
  }

  predicate Enabled(s: State, a: Action) {
    match a
    case Look(_) => s.lookup.Unlocked?
    case ReadRow => s.lookup.Missed?
    case ReadKey => s.lookup.HaveRow?
    case StoreClient => s.lookup.HaveKey?
    case BeginUpdate(call, id, _) => call !in s.calls && id in s.rows
    case CommitUpdate(call) => call in s.calls && s.calls[call].Updating?
    case AbandonUpdate(call) => call in s.calls && s.calls[call].Updating?
    case CommitDelete(call, id) => call !in s.calls && id in s.rows
    case Evict(call) => call in s.calls && s.calls[call].Evicting? && s.lookup.Unlocked?
    case Create(id, _) => id !in s.rows
  }

  function Next(s: State, a: Action): State
    requires Enabled(s, a)
  {
    match a
    case Look(id) => if id in s.clients then s else s.(lookup := Missed(id))
    case ReadRow =>
      var id := s.lookup.id;
      if id in s.rows && s.rows[id].enabled then s.(lookup := HaveRow(id, s.rows[id].url, s.rows[id].protocol))
      else s.(lookup := Unlocked)
    case ReadKey =>
      var id := s.lookup.id;
      if id in s.rows then s.(lookup := HaveKey(id, Client(s.lookup.url, s.rows[id].key, s.lookup.protocol)))
      else s.(lookup := Unlocked)
    case StoreClient => s.(clients := s.clients[s.lookup.id := s.lookup.client], lookup := Unlocked)
    case BeginUpdate(call, id, change) => s.(calls := s.calls[call := Updating(id, s.rows[id], change)])
    case CommitUpdate(call) => Commit(s, call, s.calls[call])
    case AbandonUpdate(call) => s.(calls := s.calls - {call})
    case CommitDelete(call, id) => s.(rows := s.rows - {id}, calls := s.calls[call := Evicting(id)])
    case Evict(call) => s.(clients := s.clients - {s.calls[call].id}, calls := s.calls - {call})
    case Create(id, row) => s.(rows := s.rows[id := row])
  }

  /** The row as read, with the change applied, overwrites what is there; a row that is gone stays gone. */
  function Commit(s: State, call: nat, u: Call): State
    requires u.Updating?
  {
    s.(rows := if u.id in s.rows then s.rows[u.id := Apply(u.current, u.change)] else s.rows,
       calls := if NeedsEviction(u.current, u.change) then s.calls[call := Evicting(u.id)] else s.calls - {call})
  }

  function Run(s: State, actions: seq<Action>): State
    decreases |actions|
  {
    if actions == [] then s
    else Run(if Enabled(s, actions[0]) then Next(s, actions[0]) else s, actions[1..])
  }

  /**
   * An update in two steps: each column is what was given, or what the update had
   * read; other rows and the clients stay; and an eviction is due exactly if a
   * key was given, or the address or the protocol became another than the one read.
   */
  lemma UpdateRecords(s: State, call: nat, u: Call)
    requires call in s.calls && s.calls[call] == u && u.Updating?
    ensures var s' := Next(s, CommitUpdate(call));
            && s'.rows.Keys == s.rows.Keys && s'.clients == s.clients && s'.lookup == s.lookup
            && (forall id :: id in s.rows && id != u.id ==> s'.rows[id] == s.rows[id])
            && (u.id in s.rows ==>
                  var row := s'.rows[u.id];
                  && (u.change.url.Some? ==> row.url == u.change.url.value) && (u.change.url.None? ==> row.url == u.current.url)
                  && (u.change.protocol.Some? ==> row.protocol == u.change.protocol.value) && (u.change.protocol.None? ==> row.protocol == u.current.protocol)
                  && (u.change.key.Some? ==> row.key == u.change.key.value) && (u.change.key.None? ==> row.key == u.current.key)
                  && (u.change.enabled.Some? ==> row.enabled == u.change.enabled.value) && (u.change.enabled.None? ==> row.enabled == u.current.enabled))
            && (call in s'.calls <==> u.change.key.Some? || u.change.url !in {None, Some(u.current.url)} || u.change.protocol !in {None, Some(u.current.protocol)})
            && (call in s'.calls ==> s'.calls[call] == Evicting(u.id))
            && (forall c :: c != call ==> (c in s'.calls <==> c in s.calls) && (c in s.calls ==> s'.calls[c] == s.calls[c]))
  {
  }

  /** An update that is given up changes nothing; a delete takes the row away and owes an eviction; a new row goes under its id. */
  lemma OtherCallsRecord(s: State, a: Action)
    requires Enabled(s, a) && (a.AbandonUpdate? || a.CommitDelete? || a.Create?)
    ensures var s' := Next(s, a);
            && s'.clients == s.clients && s'.lookup == s.lookup
            && (a.AbandonUpdate? ==> s'.rows == s.rows && s'.calls == s.calls - {a.call})
            && (a.CommitDelete? ==> s'.rows == s.rows - {a.id} && s'.calls == s.calls[a.call := Evicting(a.id)])
            && (a.Create? ==> s'.rows == s.rows[a.id := a.row] && s'.calls == s.calls)
  {
  }

  /** The eviction drops that client and no other. */
  lemma EvictRecords(s: State, call: nat)
    requires Enabled(s, Evict(call))
    ensures var s' := Next(s, Evict(call));
            && s'.rows == s.rows && s'.calls == s.calls - {call} && s'.clients == s.clients - {s.calls[call].id}
  {
  }

  // ----- Coherence -------------------------------------------------------------

  predicate Matches(client: Client, rows: map<nat, Row>, id: nat) {
    id in rows && client == Client(rows[id].url, rows[id].key, rows[id].protocol)
  }

  /** A committed change of `id` has yet to evict. */
  ghost predicate Pending(calls: map<nat, Call>, id: nat) { exists c :: c in calls && calls[c] == Evicting(id) }

  ghost predicate CacheOk(s: State) {
    forall id :: id in s.clients ==> Matches(s.clients[id], s.rows, id) || Pending(s.calls, id)
  }

  /** A lookup under way holds nothing stale that no eviction is waiting for. */
  ghost predicate LookupOk(s: State) {
    match s.lookup
    case HaveRow(id, url, protocol) => (id in s.rows && s.rows[id].url == url && s.rows[id].protocol == protocol) || Pending(s.calls, id)
    case HaveKey(id, client) => Matches(client, s.rows, id) || Pending(s.calls, id)
    case _ => true
  }

  ghost predicate Coherent(s: State) { CacheOk(s) && LookupOk(s) }

  predicate SameAddress(a: Row, b: Row) { a.url == b.url && a.protocol == b.protocol }

  /**
   * A commit that skips its eviction is safe exactly if whoever already holds
   * something of that provider, with no eviction to come, finds it unchanged: a
   * cached client or a built one its address, key and protocol, a lookup between
   * its reads the address and protocol.
   */
  ghost predicate SkipIsSafe(s: State, u: Call)
    requires u.Updating?
  {
    u.id in s.rows && !Pending(s.calls, u.id) ==>
      var row := s.rows[u.id];
      && (u.id in s.clients || (s.lookup.HaveKey? && s.lookup.id == u.id) ==> SameAddress(row, u.current) && row.key == u.current.key)
      && (s.lookup.HaveRow? && s.lookup.id == u.id ==> SameAddress(row, u.current))
  }

  ghost predicate StepIsSafe(s: State, a: Action)
    requires Enabled(s, a)
  {
    a.CommitUpdate? && !NeedsEviction(s.calls[a.call].current, s.calls[a.call].change) ==> SkipIsSafe(s, s.calls[a.call])
  }

  lemma LookupKeeps(s: State, a: Action)
    requires Coherent(s) && Enabled(s, a) && (a.Look? || a.ReadRow? || a.ReadKey? || a.StoreClient?)
    ensures Coherent(Next(s, a))
  {
  }

  lemma PendingStays(calls: map<nat, Call>, c: nat, call: Call, id: nat)
    requires Pending(calls, id) && (c in calls ==> calls[c] != Evicting(id))
    ensures Pending(calls[c := call], id) && Pending(calls - {c}, id)
  {
    var d :| d in calls && calls[d] == Evicting(id);
    assert d != c;
    assert calls[c := call][d] == Evicting(id) && (calls - {c})[d] == Evicting(id);
  }

  lemma EvictingCommitKeeps(s: State, c: nat)
    requires Coherent(s) && c in s.calls && s.calls[c].Updating? && NeedsEviction(s.calls[c].current, s.calls[c].change)
    ensures Coherent(Commit(s, c, s.calls[c]))
  {
    var u := s.calls[c];
    var s' := Commit(s, c, u);
    forall id | Pending(s.calls, id)
      ensures Pending(s'.calls, id)
    {
      PendingStays(s.calls, c, Evicting(u.id), id);
    }
    assert s'.calls[c] == Evicting(u.id);
    assert Pending(s'.calls, u.id);
  }

  /** The only step that can break coherence, and exactly when it does not. */
  lemma SkippingCommitKeepsIff(s: State, c: nat)
    requires Coherent(s) && c in s.calls && s.calls[c].Updating? && !NeedsEviction(s.calls[c].current, s.calls[c].change)
    ensures Coherent(Commit(s, c, s.calls[c])) <==> SkipIsSafe(s, s.calls[c])
  {
    var u := s.calls[c];
    var s' := Commit(s, c, u);
    forall id | Pending(s.calls, id)
      ensures Pending(s'.calls, id)
    {
      PendingStays(s.calls, c, u, id);
    }
    assert forall id :: Pending(s'.calls, id) ==> Pending(s.calls, id);
  }

  lemma DeleteKeeps(s: State, c: nat, id: nat)
    requires Coherent(s) && c !in s.calls && id in s.rows
    ensures Coherent(Next(s, CommitDelete(c, id)))
  {
    var s' := Next(s, CommitDelete(c, id));
    forall i | Pending(s.calls, i)
      ensures Pending(s'.calls, i)
    {
      PendingStays(s.calls, c, Evicting(id), i);
    }
    assert s'.calls[c] == Evicting(id);
    assert Pending(s'.calls, id);
  }

  lemma EvictKeeps(s: State, c: nat)
    requires Coherent(s) && Enabled(s, Evict(c))
    ensures Coherent(Next(s, Evict(c)))
  {
    var s' := Next(s, Evict(c));
    forall i | Pending(s.calls, i) && i != s.calls[c].id
      ensures Pending(s'.calls, i)
    {
      PendingStays(s.calls, c, Evicting(i), i);
    }
  }

  lemma BeginKeeps(s: State, c: nat, id: nat, change: Change)
    requires Coherent(s) && Enabled(s, BeginUpdate(c, id, change))
    ensures Coherent(Next(s, BeginUpdate(c, id, change)))
  {
    var s' := Next(s, BeginUpdate(c, id, change));
    forall i | Pending(s.calls, i)
      ensures Pending(s'.calls, i)
    {
      PendingStays(s.calls, c, Updating(id, s.rows[id], change), i);
    }
  }

  lemma AbandonKeeps(s: State, c: nat)
    requires Coherent(s) && Enabled(s, AbandonUpdate(c))
    ensures Coherent(Next(s, AbandonUpdate(c)))
  {
    var s' := Next(s, AbandonUpdate(c));
    forall i | Pending(s.calls, i)
      ensures Pending(s'.calls, i)
    {
      PendingStays(s.calls, c, s.calls[c], i);
    }
  }

  /** Every step keeps coherence exactly if it is safe. */
  lemma StepKeepsCoherenceIff(s: State, a: Action)
    requires Coherent(s) && Enabled(s, a)
    ensures Coherent(Next(s, a)) <==> StepIsSafe(s, a)
  {
    if a.BeginUpdate? {
      BeginKeeps(s, a.call, a.id, a.change);
    } else if a.CommitUpdate? {
      if NeedsEviction(s.calls[a.call].current, s.calls[a.call].change) {
        EvictingCommitKeeps(s, a.call);
      } else {
        SkippingCommitKeepsIff(s, a.call);
      }
    } else if a.AbandonUpdate? {
      AbandonKeeps(s, a.call);
    } else if a.CommitDelete? {
      DeleteKeeps(s, a.call, a.id);
    } else if a.Evict? {
      EvictKeeps(s, a.call);
    } else if !a.Create? {
      LookupKeeps(s, a);
    }
  }

  // ----- Over whole runs -----------------------------------------------------------

  function Then(s: State, a: Action): State { if Enabled(s, a) then Next(s, a) else s }

  ghost predicate SafeRun(s: State, actions: seq<Action>)
    decreases |actions|
  {
    actions == [] || ((Enabled(s, actions[0]) ==> StepIsSafe(s, actions[0])) && SafeRun(Then(s, actions[0]), actions[1..]))
  }

  /** Coherent at every point of the run. */
  ghost predicate CoherentThroughout(s: State, actions: seq<Action>)
    decreases |actions|
  {
    Coherent(s) && (actions == [] || CoherentThroughout(Then(s, actions[0]), actions[1..]))
  }

  /** A run stays coherent throughout if and only if every commit in it that skips its eviction is safe. */
  lemma {:induction false} RunIsCoherentIff(s: State, actions: seq<Action>)
    requires Coherent(s)
    ensures CoherentThroughout(s, actions) <==> SafeRun(s, actions)
    ensures SafeRun(s, actions) ==> Coherent(Run(s, actions))
    decreases |actions|
  {
    if actions != [] {
      if Enabled(s, actions[0]) {
        StepKeepsCoherenceIff(s, actions[0]);
      }
      if Coherent(Then(s, actions[0])) {
        RunIsCoherentIff(Then(s, actions[0]), actions[1..]);
      } else {
        NotCoherentThroughout(Then(s, actions[0]), actions[1..]);
      }
    }
  }

  lemma NotCoherentThroughout(s: State, actions: seq<Action>)
    requires !Coherent(s)
    ensures !CoherentThroughout(s, actions)
  {
  }

  /** With no change of a provider between commit and eviction, its cached client is the one the table describes. */
  lemma CacheAgreesWithTable(actions: seq<Action>, id: nat)
    requires SafeRun(START, actions)
    ensures var s := Run(START, actions);
            id in s.clients && !Pending(s.calls, id) ==> Matches(s.clients[id], s.rows, id)
  {
    RunIsCoherentIff(START, actions);
  }

  // ----- Updates one at a time ------------------------------------------------------

  /** No update of `id` is between its read and its commit. */
  predicate NoUpdate(calls: map<nat, Call>, id: nat) { forall c :: c in calls ==> !(calls[c].Updating? && calls[c].id == id) }

  /** Updates of one provider run one at a time, and a freed id is not given out again under one. */
  predicate Serialized(s: State, a: Action) {
    match a
    case BeginUpdate(_, id, _) => NoUpdate(s.calls, id)
    case Create(id, _) => NoUpdate(s.calls, id)
    case _ => true
  }

  predicate SerializedRun(s: State, actions: seq<Action>)
    decreases |actions|
  {
    actions == [] || ((Enabled(s, actions[0]) ==> Serialized(s, actions[0])) && SerializedRun(Then(s, actions[0]), actions[1..]))
  }

  /** An update under way has read the row it will overwrite, and is the only one. */
  ghost predicate UpdatesOk(s: State) {
    && (forall c :: c in s.calls && s.calls[c].Updating? && s.calls[c].id in s.rows ==> s.rows[s.calls[c].id] == s.calls[c].current)
    && (forall c, d :: c in s.calls && d in s.calls && s.calls[c].Updating? && s.calls[d].Updating? && s.calls[c].id == s.calls[d].id ==> c == d)
  }

  lemma SerializedKeepsUpdates(s: State, a: Action)
    requires UpdatesOk(s) && Enabled(s, a) && Serialized(s, a)
    ensures UpdatesOk(Next(s, a)) && StepIsSafe(s, a)
  {
  }

  /** Serialized updates are safe, so they keep the cache coherent. */
  lemma {:induction false} SerializedRunsAreSafe(s: State, actions: seq<Action>)
    requires UpdatesOk(s) && SerializedRun(s, actions)
    ensures SafeRun(s, actions)
    decreases |actions|
  {
    if actions != [] {
      if Enabled(s, actions[0]) {
        SerializedKeepsUpdates(s, actions[0]);
      }
      SerializedRunsAreSafe(Then(s, actions[0]), actions[1..]);
    }
  }

  /** With updates of each provider run one at a time, whatever else happens, a cached client is the one the table describes. */
  lemma SerializedCacheAgreesWithTable(actions: seq<Action>, id: nat)
    requires SerializedRun(START, actions)
    ensures CoherentThroughout(START, actions)
    ensures var s := Run(START, actions);
            id in s.clients && !Pending(s.calls, id) ==> Matches(s.clients[id], s.rows, id)
  {
    SerializedRunsAreSafe(START, actions);
    RunIsCoherentIff(START, actions);
  }

  // ----- The registry itself ---------------------------------------------------

  class Registry {
    var clients: map<nat, Client>

    constructor ()
      ensures clients == map[]
    {
      clients := map[];
    }

    /**
     * A hit is served as it is. A miss reads the row and then the key, from a
     * table that may have changed in between, and keeps what it built: the same
     * as the four lookup steps on those two tables.
     */
    method ForProvider(id: nat, rows: map<nat, Row>, later: map<nat, Row>) returns (client: Option<Client>)
      modifies this
      ensures id in old(clients) ==> client == Some(old(clients)[id]) && clients == old(clients)
      ensures id !in old(clients) ==>
                var s := State(rows, old(clients), Missed(id), map[]);
                var s1 := Then(s, ReadRow);
                var s2 := Then(Then(s1.(rows := later), ReadKey), StoreClient);
                && clients == s2.clients && s2.lookup.Unlocked?
                && client == if id in clients then Some(clients[id]) else None
      ensures id !in old(clients) ==>
                if id in rows && rows[id].enabled && id in later
                then client == Some(Client(rows[id].url, later[id].key, rows[id].protocol)) && clients == old(clients)[id := client.value]
                else client == None && clients == old(clients)
    {
      if id in clients {
        return Some(clients[id]);
      }
      if id !in rows || !rows[id].enabled || id !in later {
        return None;
      }
      var built := Client(rows[id].url, later[id].key, rows[id].protocol);
      clients := clients[id := built];
      return Some(built);
    }

    method EvictProvider(id: nat)
      modifies this
      ensures clients == old(clients) - {id}
    {
      clients := clients - {id};
    }
  }

  // ----- Where it ends ---------------------------------------------------------

  const NO_CHANGE := Change(None, None, None, None)
  const OLD := Row("https://old", "openai", "k", true)
  const NEW := Row("https://new", "openai", "k", true)

  const MOVE := NO_CHANGE.(url := Some("https://new"))
  const BOTH_READ := State(map[1 := OLD], map[], Unlocked, map[1 := Updating(1, OLD, MOVE), 2 := Updating(1, OLD, NO_CHANGE)])
  const MOVED := State(map[1 := NEW], map[], Unlocked, map[2 := Updating(1, OLD, NO_CHANGE)])
  const CACHED := MOVED.(clients := map[1 := Client("https://new", "k", "openai")])
  const STALE := State(map[1 := OLD], map[1 := Client("https://new", "k", "openai")], Unlocked, map[])

  lemma BothRead()
    ensures Then(Then(Then(START, Create(1, OLD)), BeginUpdate(1, 1, MOVE)), BeginUpdate(2, 1, NO_CHANGE)) == BOTH_READ
  {
  }

  lemma FirstMoves()
    ensures Then(Then(BOTH_READ, CommitUpdate(1)), Evict(1)) == MOVED
  {
    assert Then(BOTH_READ, CommitUpdate(1)).rows == map[1 := NEW];
  }

  lemma ClientIsCached()
    ensures Then(Then(Then(Then(MOVED, Look(1)), ReadRow), ReadKey), StoreClient) == CACHED
  {
  }

  lemma SecondMovesBack()
    ensures Then(CACHED, CommitUpdate(2)) == STALE
  {
  }

  /** Two overlapping updates: the second puts the old address back without evicting the client of the new one. */
  lemma OverlappingUpdatesLeaveStaleClient()
    ensures Run(START, [Create(1, OLD), BeginUpdate(1, 1, MOVE), BeginUpdate(2, 1, NO_CHANGE)]
                       + ([CommitUpdate(1), Evict(1)]
                          + ([Look(1), ReadRow] + ([ReadKey, StoreClient, CommitUpdate(2)] + [])))) == STALE
    ensures STALE.calls == map[] && !Coherent(STALE)
  {
    assert 1 in STALE.clients && !Matches(STALE.clients[1], STALE.rows, 1);
    var last := [ReadKey, StoreClient, CommitUpdate(2)] + [];
    Unroll3(START, Create(1, OLD), BeginUpdate(1, 1, MOVE), BeginUpdate(2, 1, NO_CHANGE), [CommitUpdate(1), Evict(1)] + ([Look(1), ReadRow] + last));
    BothRead();
    Unroll2(BOTH_READ, CommitUpdate(1), Evict(1), [Look(1), ReadRow] + last);
    FirstMoves();
    Unroll2(MOVED, Look(1), ReadRow, last);
    Unroll3(Then(Then(MOVED, Look(1)), ReadRow), ReadKey, StoreClient, CommitUpdate(2), []);
    ClientIsCached();
    SecondMovesBack();
  }

  lemma Unroll2(s: State, a: Action, b: Action, more: seq<Action>)
    ensures Run(s, [a, b] + more) == Run(Then(Then(s, a), b), more)
  {
    assert ([a, b] + more)[1..] == [b] + more && ([b] + more)[1..] == more;
  }

  lemma Unroll3(s: State, a: Action, b: Action, c: Action, more: seq<Action>)
    ensures Run(s, [a, b, c] + more) == Run(Then(Then(Then(s, a), b), c), more)
  {
    assert ([a, b, c] + more)[1..] == [b, c] + more;
    Unroll2(Then(s, a), b, c, more);
  }

  /** Switching a provider off evicts nothing: a cached client goes on being served. */
  lemma DisablingDoesNotEvict(s: State, call: nat, id: nat)
    requires id in s.clients && call in s.calls && s.calls[call].Updating?
    requires s.calls[call].id == id && s.calls[call].change == NO_CHANGE.(enabled := Some(false))
    ensures var s' := Next(s, CommitUpdate(call));
            && (id in s'.rows ==> !s'.rows[id].enabled)
            && s'.clients == s.clients && call !in s'.calls
            && (s.lookup.Unlocked? ==> Next(s', Look(id)) == s')
  {
  }
}
