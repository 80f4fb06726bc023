/**
 * Runs of the ledger: any sequence of admissions, settlements, reaping,
 * pruning, administrative deletes and the passing of time. What holds of every
 * run is proved here once, for whoever drives the ledger.
 */
module LedgerRuns {
  import opened Base
  import opened Ledger
  import opened Calendar
  import opened Admission
  import opened Pairing

  /**
   * `gap` bounds the time from a request's timestamp to its commit and
   * registration; `retention` is how long pruning leaves rows alone.
   */
  datatype Timing = Timing(gap: nat, retention: nat)

  predicate Sane(c: Timing) { c.gap + MINUTE <= c.retention }

  datatype Step =
    | Admit(d: Demand, p: Policy)
    | Settle(id: int, s: Settlement)
    | Abort(cutoff: Time, excluded: set<int>)
    | Retire(cutoff: Time)
    | Remove(keys: set<nat>, models: set<nat>, providers: set<nat>)
    | Reissue(nextRequest: nat, nextKeyRow: nat)
    | Pass(to: Time)

  /** `last` is the newest timestamp handed out; `admitted` remembers them all, pruned or not. */
  datatype World = World(l: Ledger, now: Time, last: Time, admitted: seq<Time>)

  predicate Possible(c: Timing, w: World, step: Step) {
    match step
    case Admit(d, _) => w.last <= d.created <= w.now <= d.created + c.gap
    case Retire(cutoff) => cutoff <= w.now - c.retention
    case Pass(to) => w.now <= to
    case _ => true
  }

  function Do(w: World, step: Step): World {
    match step
    case Admit(d, p) =>
      if Decide(w.l, d, p).Admitted? then w.(l := Reserve(w.l, d, p), last := d.created, admitted := w.admitted + [d.created])
      else w
    case Settle(id, s) => w.(l := Finish(w.l, id, s, w.now).0)
    case Abort(cutoff, excluded) => w.(l := Reap(w.l, cutoff, excluded, w.now))
    case Retire(cutoff) => w.(l := Prune(w.l, cutoff))
    case Remove(keys, models, providers) => w.(l := Delete(w.l, keys, models, providers))
    case Reissue(nr, nk) => w.(l := ReuseIds(w.l, nr, nk))
    case Pass(to) => w.(now := to)
  }

  function Start(now: Time): World { World(EMPTY, now, now, []) }

  function Run(w: World, steps: seq<Step>): World {
    if steps == [] then w else Do(Run(w, steps[..|steps| - 1]), steps[|steps| - 1])
  }

  predicate PossibleRun(c: Timing, w: World, steps: seq<Step>) {
    steps != [] ==>
      && PossibleRun(c, w, steps[..|steps| - 1])
      && Possible(c, Run(w, steps[..|steps| - 1]), steps[|steps| - 1])
  }

  // ----- Basic facts: pairing and dates ------------------------------------

  ghost predicate Dated(w: World) {
    && w.last <= w.now
    && (forall r :: r in w.l.requests ==> w.l.requests[r].created <= w.last)
    && (forall k :: k in w.l.keyRows ==> w.l.keyRows[k].created <= w.last)
    && (forall k :: k in w.l.keyRows ==> w.l.keyRows[k].day == DayOf(w.l.keyRows[k].created))
  }

  /** Ids follow time, so listing rows by id lists them by time and id. */
  ghost predicate Chronological(l: Ledger) {
    forall j, k :: j in l.keyRows && k in l.keyRows && j <= k ==> l.keyRows[j].created <= l.keyRows[k].created
  }

  ghost predicate Sound(w: World) { TwoRow(w.l) && Dated(w) && Chronological(w.l) }

  /** Rows keep their date, key and group for as long as they exist. */
  ghost predicate KeepsDates(l: Ledger, l': Ledger) {
    && (forall r :: r in l'.requests ==> r in l.requests && l'.requests[r].created == l.requests[r].created)
    && (forall k :: k in l'.keyRows ==>
          && k in l.keyRows
          && l'.keyRows[k].created == l.keyRows[k].created && l'.keyRows[k].day == l.keyRows[k].day
          && l'.keyRows[k].key == l.keyRows[k].key && l'.keyRows[k].group == l.keyRows[k].group)
  }

  lemma FinishKeepsDates(l: Ledger, id: int, s: Settlement, now: Time)
    ensures KeepsDates(l, Finish(l, id, s, now).0)
  {
  }

  lemma OthersKeepDates(w: World, step: Step)
    requires !step.Admit?
    ensures KeepsDates(w.l, Do(w, step).l)
  {
    if step.Settle? {
      FinishKeepsDates(w.l, step.id, step.s, w.now);
    }
  }

  lemma StepKeepsTwoRow(w: World, step: Step)
    requires TwoRow(w.l)
    ensures TwoRow(Do(w, step).l)
  {
    match step
    case Admit(d, p) =>
      if Decide(w.l, d, p).Admitted? {
        InsertKeeps(w.l, Decide(w.l, d, p).ticket);
      }
    case Settle(id, s) => FinishKeeps(w.l, id, s, w.now);
    case Abort(cutoff, excluded) => ReapKeeps(w.l, cutoff, excluded, w.now);
    case Retire(cutoff) => PruneKeeps(w.l, cutoff);
    case Remove(keys, models, providers) => DeleteKeeps(w.l, keys, models, providers);
    case Reissue(nr, nk) => ReuseKeeps(w.l, nr, nk);
    case Pass(to) =>
  }

  lemma StepKeepsSound(c: Timing, w: World, step: Step)
    requires Sound(w) && Possible(c, w, step)
    ensures Sound(Do(w, step))
  {
    StepKeepsTwoRow(w, step);
    if !step.Admit? {
      OthersKeepDates(w, step);
    }
  }

  /** The two-row invariant, and the dating of rows, hold in every run. */
  lemma {:induction false} RunsAreSound(c: Timing, now: Time, steps: seq<Step>)
    requires PossibleRun(c, Start(now), steps)
    ensures Sound(Run(Start(now), steps))
  {
    if steps != [] {
      RunsAreSound(c, now, steps[..|steps| - 1]);
      StepKeepsSound(c, Run(Start(now), steps[..|steps| - 1]), steps[|steps| - 1]);
    } else {
      EmptyIsTwoRow();
    }
  }
}
