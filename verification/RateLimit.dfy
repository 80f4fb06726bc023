/** The sliding rate limit: no minute ever holds more admissions than the limit. */
module RateLimit {
  import opened Base
  import opened Ledger
  import opened Admission
  import opened Pairing
  import opened LedgerRuns

  function CountIn(times: seq<Time>, from: Time, until: Time): nat {
    if times == [] then 0
    else CountIn(times[..|times| - 1], from, until) + if from <= times[|times| - 1] <= until then 1 else 0
  }

  function InMinute(times: seq<Time>, from: Time): nat { CountIn(times, from, from + 60 * SECOND) }

  lemma CountOfExtended(times: seq<Time>, t: Time, from: Time, until: Time)
    ensures CountIn(times + [t], from, until) == CountIn(times, from, until) + if from <= t <= until then 1 else 0
  {
    assert (times + [t])[..|times|] == times;
  }

  lemma {:induction false} CountMonotone(times: seq<Time>, from: Time, until: Time, from': Time, until': Time)
    requires forall i :: 0 <= i < |times| && from <= times[i] <= until ==> from' <= times[i] <= until'
    ensures CountIn(times, from, until) <= CountIn(times, from', until')
  {
    if times != [] {
      CountMonotone(times[..|times| - 1], from, until, from', until');
    }
  }

  lemma {:induction false} DatedMonotone(
    rows: map<nat, RequestRow>, from: Time, until: Time, rows': map<nat, RequestRow>, from': Time, until': Time, n: nat)
    requires forall r: nat :: r < n && r in rows && from <= rows[r].created <= until ==>
               r in rows' && from' <= rows'[r].created <= until'
    ensures DatedBelow(rows, from, until, n) <= DatedBelow(rows', from', until', n)
  {
    if n > 0 {
      DatedMonotone(rows, from, until, rows', from', until', n - 1);
    }
  }

  lemma {:induction false} NoRowsAbove(rows: map<nat, RequestRow>, from: Time, until: Time, low: nat, high: nat)
    requires low <= high && forall r :: r in rows ==> r < low
    ensures DatedBelow(rows, from, until, low) == DatedBelow(rows, from, until, high)
    decreases high
  {
    if low < high {
      NoRowsAbove(rows, from, until, low, high - 1);
    }
  }

  function RowsFrom(l: Ledger, from: Time, until: Time): nat { DatedBelow(l.requests, from, until, l.nextRequest) }

  /** The earliest timestamp a future admission can still carry, less one minute. */
  function Horizon(c: Timing, w: World): Time {
    (if w.last >= w.now - c.gap then w.last else w.now - c.gap) - MINUTE
  }

  /** The requests table still shows every admission a future minute could reach. */
  ghost predicate Remembered(c: Timing, w: World) {
    && (forall i :: 0 <= i < |w.admitted| ==> w.admitted[i] <= w.last)
    && (forall a :: a >= Horizon(c, w) ==> CountIn(w.admitted, a, w.last) <= RowsFrom(w.l, a, w.last))
  }

  /** Transactions other than the insert keep every row dated at or after the horizon. */
  lemma OthersKeepRecentRows(c: Timing, w: World, step: Step)
    requires Sane(c) && Possible(c, w, step) && !step.Admit?
    ensures Horizon(c, w) <= Horizon(c, Do(w, step))
    ensures forall r :: r in w.l.requests && w.l.requests[r].created >= Horizon(c, Do(w, step)) ==> r in Do(w, step).l.requests
  {
  }

  lemma OthersRemember(c: Timing, w: World, step: Step, a: Time)
    requires Sane(c) && IdsBelowNext(w.l) && Remembered(c, w) && Possible(c, w, step) && !step.Admit?
    requires a >= Horizon(c, Do(w, step))
    ensures CountIn(w.admitted, a, w.last) <= RowsFrom(Do(w, step).l, a, w.last)
  {
    var l' := Do(w, step).l;
    OthersKeepDates(w, step);
    OthersKeepRecentRows(c, w, step);
    DatedMonotone(w.l.requests, a, w.last, l'.requests, a, w.last, w.l.nextRequest);
    if l'.nextRequest < w.l.nextRequest {
      NoRowsAbove(l'.requests, a, w.last, l'.nextRequest, w.l.nextRequest);
    } else {
      NoRowsAbove(l'.requests, a, w.last, w.l.nextRequest, l'.nextRequest);
    }
  }

  lemma AdmitRemembers(c: Timing, w: World, d: Demand, p: Policy, a: Time)
    requires Dated(w) && IdsBelowNext(w.l) && Remembered(c, w) && Possible(c, w, Admit(d, p))
    requires Decide(w.l, d, p).Admitted?
    requires a >= Horizon(c, w)
    ensures CountIn(w.admitted + [d.created], a, d.created) <= RowsFrom(Reserve(w.l, d, p), a, d.created)
  {
    var rows := Insert(w.l, Decide(w.l, d, p).ticket).requests;
    CountOfExtended(w.admitted, d.created, a, d.created);
    CountMonotone(w.admitted, a, d.created, a, w.last);
    DatedMonotone(w.l.requests, a, w.last, rows, a, d.created, w.l.nextRequest);
  }

  lemma AdmitSpaces(c: Timing, w: World, d: Demand, p: Policy, rpm: nat, a: Time)
    requires Dated(w) && Remembered(c, w) && Possible(c, w, Admit(d, p))
    requires Decide(w.l, d, p).Admitted? && p.rpm <= rpm && InMinute(w.admitted, a) <= rpm
    ensures InMinute(w.admitted + [d.created], a) <= rpm
  {
    CountOfExtended(w.admitted, d.created, a, a + MINUTE);
    if a <= d.created <= a + MINUTE {
      AdmissionMeans(w.l, d, p);
      CountMonotone(w.admitted, a, a + MINUTE, d.created - MINUTE, w.last);
      DatedMonotone(w.l.requests, d.created - MINUTE, w.last, w.l.requests, d.created - MINUTE, d.created, w.l.nextRequest);
    }
  }

  predicate RpmAtMost(steps: seq<Step>, rpm: nat) {
    forall i :: 0 <= i < |steps| && steps[i].Admit? ==> steps[i].p.rpm <= rpm
  }

  /**
   * In every run whose rate limit never exceeds `rpm`, any closed interval of
   * sixty seconds contains at most `rpm` admissions, over all keys, whatever is
   * settled, reaped, pruned or deleted meanwhile.
   */
  lemma {:induction false} SlidingRateLimit(c: Timing, now: Time, steps: seq<Step>, rpm: nat)
    requires Sane(c) && PossibleRun(c, Start(now), steps) && RpmAtMost(steps, rpm)
    ensures Remembered(c, Run(Start(now), steps))
    ensures forall a :: InMinute(Run(Start(now), steps).admitted, a) <= rpm
  {
    if steps != [] {
      var before := steps[..|steps| - 1];
      var w, step := Run(Start(now), before), steps[|steps| - 1];
      SlidingRateLimit(c, now, before, rpm);
      RunsAreSound(c, now, before);
      if !step.Admit? {
        forall a | a >= Horizon(c, Do(w, step))
          ensures CountIn(w.admitted, a, w.last) <= RowsFrom(Do(w, step).l, a, w.last)
        {
          OthersRemember(c, w, step, a);
        }
      } else if Decide(w.l, step.d, step.p).Admitted? {
        forall a | a >= Horizon(c, Do(w, step))
          ensures CountIn(w.admitted + [step.d.created], a, step.d.created) <= RowsFrom(Do(w, step).l, a, step.d.created)
        {
          AdmitRemembers(c, w, step.d, step.p, a);
        }
        forall a
          ensures InMinute(Do(w, step).admitted, a) <= rpm
        {
          AdmitSpaces(c, w, step.d, step.p, rpm, a);
        }
      }
    }
  }

  // ----- The condition on retention is exact -------------------------------

  /** `steps` is a possible run from the start to `w`. */
  ghost predicate Leads(c: Timing, now: Time, steps: seq<Step>, w: World) {
    PossibleRun(c, Start(now), steps) && Run(Start(now), steps) == w
  }

  lemma Extend(c: Timing, now: Time, steps: seq<Step>, w: World, step: Step, w': World)
    requires Leads(c, now, steps, w) && Possible(c, w, step) && Do(w, step) == w'
    ensures Leads(c, now, steps + [step], w')
  {
    assert (steps + [step])[..|steps|] == steps;
  }

  const ONE_PER_MINUTE := Policy(true, 1, None, None, 1, NO_LIMITS, Some(SAME_QUOTE), 1)

  function Call(created: Time): Demand { Demand("t", 1, 1, 1, created, 1, 1) }

  lemma CallIsAdmitted(l: Ledger, created: Time)
    requires IsEmpty(l)
    ensures Decide(l, Call(created), ONE_PER_MINUTE).Admitted?
  {
    FirstRequestIsAdmitted(l, Call(created), ONE_PER_MINUTE);
  }

  /** A request that was admitted, settled and pruned has left no trace. */
  lemma PrunedAway(now: Time, cutoff: Time)
    requires now < cutoff
    ensures IsEmpty(Prune(Finish(Reserve(EMPTY, Call(now), ONE_PER_MINUTE), 1, UNUSED, now).0, cutoff))
  {
    CallIsAdmitted(EMPTY, now);
    var l := Reserve(EMPTY, Call(now), ONE_PER_MINUTE);
    assert NewestReserved(l.keyRows, "t", 2) == Some(1);
  }

  /**
   * For every timing in which pruning may reach into the last minute before a
   * request's date there is a run, with a limit of one, that admits two requests
   * within one minute. So `Sane` is exactly what the rate limit needs.
   */
  lemma ShortRetentionBreaksTheLimit(c: Timing, now: Time) returns (steps: seq<Step>)
    requires !Sane(c)
    ensures PossibleRun(c, Start(now), steps) && RpmAtMost(steps, 1)
    ensures InMinute(Run(Start(now), steps).admitted, now) == 2
  {
    var later := now + c.retention + 1;
    var second := if later - c.gap > now then later - c.gap else now;
    var first := FirstCallIsForgotten(c, now, later);
    var w := World(Forgotten(now), later, now, [now]);
    CallIsAdmitted(w.l, second);
    var again := Admit(Call(second), ONE_PER_MINUTE);
    var w' := World(Reserve(w.l, Call(second), ONE_PER_MINUTE), later, second, [now, second]);
    assert w.admitted + [second] == w'.admitted;
    Extend(c, now, first, w, again, w');
    steps := first + [again];
    TwoInOneMinute(now, second);
  }

  /** The ledger after a first request was admitted, settled and pruned. */
  function Forgotten(now: Time): Ledger { Prune(SettledOnce(now), now + 1) }

  function SettledOnce(now: Time): Ledger { Finish(Reserve(EMPTY, Call(now), ONE_PER_MINUTE), 1, UNUSED, now).0 }

  lemma FirstCallIsSettled(c: Timing, now: Time) returns (steps: seq<Step>)
    ensures Leads(c, now, steps, World(SettledOnce(now), now, now, [now])) && RpmAtMost(steps, 1)
  {
    CallIsAdmitted(EMPTY, now);
    var l := Reserve(EMPTY, Call(now), ONE_PER_MINUTE);
    var a, b := Admit(Call(now), ONE_PER_MINUTE), Settle(1, UNUSED);
    assert [] + [now] == [now];
    Extend(c, now, [], Start(now), a, World(l, now, now, [now]));
    Extend(c, now, [] + [a], World(l, now, now, [now]), b, World(SettledOnce(now), now, now, [now]));
    steps := [] + [a] + [b];
  }

  lemma FirstCallIsForgotten(c: Timing, now: Time, later: Time) returns (steps: seq<Step>)
    requires later == now + c.retention + 1
    ensures Leads(c, now, steps, World(Forgotten(now), later, now, [now])) && RpmAtMost(steps, 1)
    ensures IsEmpty(Forgotten(now))
  {
    PrunedAway(now, now + 1);
    var first := FirstCallIsSettled(c, now);
    var l := SettledOnce(now);
    Extend(c, now, first, World(l, now, now, [now]), Pass(later), World(l, later, now, [now]));
    Extend(c, now, first + [Pass(later)], World(l, later, now, [now]), Retire(now + 1), World(Forgotten(now), later, now, [now]));
    steps := first + [Pass(later)] + [Retire(now + 1)];
  }

  lemma TwoInOneMinute(now: Time, second: Time)
    requires now <= second <= now + MINUTE
    ensures InMinute([now, second], now) == 2
  {
    CountOfTwo(now, second, now, now + MINUTE);
  }

  lemma CountOfTwo(a: Time, b: Time, from: Time, until: Time)
    requires from <= a <= until && from <= b <= until
    ensures CountIn([a, b], from, until) == 2
  {
    assert [a][..0] == [];
    assert CountIn([a], from, until) == 1;
    assert [a, b][..1] == [a];
  }
}
