/**
 * Orderly shutdown: `Application.Close` and the handler tracker, running
 * against the whole relay. The store is closed last, and a clean return means
 * that every lease of the process is settled.
 */
module Shutdown {
  import opened Base
  import opened System
  import opened Leases
  import opened Guarantees

  // ----- The handler tracker -------------------------------------------------

  /** `closes[i]` counts how often the i-th idle channel was closed; `idle` is the current one. */
  datatype Tracker = Tracker(active: nat, idle: nat, closes: seq<nat>, draining: bool)

  /** newTrackedHandler starts with an idle channel that is already closed. */
  const NEW_TRACKER: Tracker := Tracker(0, 0, [1], false)

  /** ServeHTTP on entry, when not draining. */
  function Entered(t: Tracker): Tracker {
    if t.active == 0 then t.(active := 1, idle := |t.closes|, closes := t.closes + [0])
    else t.(active := t.active + 1)
  }

  /** ServeHTTP on return: the last handler closes the idle channel. */
  function Left(t: Tracker): Tracker
    requires t.active > 0 && t.idle < |t.closes|
  {
    if t.active == 1 then t.(active := 0, closes := t.closes[t.idle := t.closes[t.idle] + 1])
    else t.(active := t.active - 1)
  }

  /** No channel is ever closed twice; the current one is closed exactly when nobody is active. */
  ghost predicate TrackerOk(t: Tracker) {
    && t.idle == |t.closes| - 1
    && (forall i :: 0 <= i < t.idle ==> t.closes[i] == 1)
    && t.closes[t.idle] == (if t.active == 0 then 1 else 0)
  }

  class TrackedHandler {
    var active: nat
    var idle: nat
    var closes: seq<nat>
    var draining: bool

    function View(): Tracker
      reads this
    {
      Tracker(active, idle, closes, draining)
    }

    constructor ()
      ensures View() == NEW_TRACKER && TrackerOk(View())
    {
      active, idle, closes, draining := 0, 0, [1], false;
    }

    method Enter() returns (admitted: bool)
      requires TrackerOk(View())
      modifies this
      ensures admitted == !old(draining)
      ensures View() == if admitted then Entered(old(View())) else old(View())
      ensures active == old(active) + if admitted then 1 else 0
      ensures TrackerOk(View())
    {
      if draining {
        return false;
      }
      if active == 0 {
        idle := |closes|;
        closes := closes + [0];
      }
      active := active + 1;
      return true;
    }

    method Leave()
      requires TrackerOk(View()) && active > 0
      modifies this
      ensures View() == Left(old(View())) && TrackerOk(View())
      ensures active == old(active) - 1 && draining == old(draining)
    {
      active := active - 1;
      if active == 0 {
        closes := closes[idle := closes[idle] + 1];
      }
    }

    method Drain()
      modifies this
      ensures View() == old(View()).(draining := true)
    {
      draining := true;
    }
  }

  // ----- The application -----------------------------------------------------

  /** One HTTP request; it starts at most one flight and returns only after closing it. */
  datatype Handler = Handler(running: bool, flight: Option<nat>)

  /** Where Application.Close stands. */
  datatype Phase =
    | Serving
    | Flagged
    | Rejecting
    | ShutDown
    | Waiting(channel: nat)
    | Quiet
    | Drained
    | Busy
    | Stopping(quiet: bool)
    | Stopped(quiet: bool)
    | Returned(failed: bool)

  datatype Maintenance = Looping | Cancelled | Ended

  datatype App = App(
    sys: State, owner: seq<nat>, handlers: seq<Handler>, tracker: Tracker,
    maintenance: Maintenance, phase: Phase, failed: bool, storeClosed: bool)

  datatype Event =
    | Serve
    | StartFlight(h: nat, key: nat)
    | Return(h: nat)
    | Inside(a: Action)
    | Proceed(ok: bool)
    | EndMaintenance

  function Begin(start: Time, limit: int, maintained: bool): App {
    App(Init(start, limit), [], [], NEW_TRACKER, if maintained then Looping else Ended, Serving, false, false)
  }

  predicate CanReturn(app: App, h: nat) {
    && h < |app.handlers| && app.handlers[h].running && app.tracker.active > 0 && app.tracker.idle < |app.tracker.closes|
    && (app.handlers[h].flight.Some? ==>
          app.handlers[h].flight.value < |app.sys.flights| && ClosedOnce(app.sys.flights[app.handlers[h].flight.value]))
  }

  /** Requests arrive only through handlers; a dead process does not shut down. */
  predicate InsideAllowed(a: Action) { !a.Arrive? && !a.Crash? && !a.Recover? }

  predicate Can(c: Config, app: App, e: Event) {
    match e
    case Serve => true
    case StartFlight(h, _) => h < |app.handlers| && app.handlers[h].running && app.handlers[h].flight.None? && app.sys.up
    case Return(h) => CanReturn(app, h)
    case Inside(a) => !app.storeClosed && InsideAllowed(a) && Enabled(c, app.sys, a)
    case Proceed(_) => !app.phase.Returned?
    case EndMaintenance => app.maintenance.Cancelled?
  }

  /** One step of Application.Close; `ok` resolves what it cannot know: timeouts and errors. */
  function Step(app: App, ok: bool): App {
    match app.phase
    case Serving => app.(sys := app.sys.(draining := true), phase := Flagged)
    case Flagged => app.(tracker := app.tracker.(draining := true), phase := Rejecting)
    case Rejecting => app.(failed := app.failed || !ok, phase := ShutDown)
    case ShutDown => app.(phase := Waiting(app.tracker.idle))
    case Waiting(channel) =>
      if !ok then app.(phase := Busy)
      else if channel < |app.tracker.closes| && app.tracker.closes[channel] > 0 then app.(phase := Quiet)
      else app
    case Quiet =>
      if app.sys.pending == map[] then app.(phase := Drained)
      else if ok then app
      else app.(failed := true, phase := Drained)
    case Drained => app.(maintenance := if app.maintenance.Looping? then Cancelled else app.maintenance, phase := Stopping(true))
    case Busy => app.(maintenance := if app.maintenance.Looping? then Cancelled else app.maintenance, phase := Stopping(false))
    case Stopping(quiet) =>
      if app.maintenance.Ended? then app.(phase := Stopped(quiet))
      else if ok then app
      else app.(phase := Returned(true))
    case Stopped(quiet) =>
      if !quiet then app.(phase := Returned(true))
      else app.(storeClosed := true, phase := Returned(app.failed || !ok))
    case Returned(_) => app
  }

  function After(c: Config, app: App, e: Event): App
    requires Can(c, app, e)
  {
    match e
    case Serve =>
      if app.tracker.draining then app
      else app.(tracker := Entered(app.tracker), handlers := app.handlers + [Handler(true, None)])
    case StartFlight(h, key) =>
      app.(sys := ArriveStep(app.sys, key), owner := app.owner + [h],
           handlers := app.handlers[h := app.handlers[h].(flight := Some(|app.sys.flights|))])
    case Return(h) =>
      app.(tracker := Left(app.tracker), handlers := app.handlers[h := app.handlers[h].(running := false)])
    case Inside(a) => app.(sys := Next(c, app.sys, a))
    case Proceed(ok) => Step(app, ok)
    case EndMaintenance => app.(maintenance := Ended)
  }

  function Runs(c: Config, app: App, events: seq<Event>): App {
    if events == [] then app
    else
      var before := Runs(c, app, events[..|events| - 1]);
      if Can(c, before, events[|events| - 1]) then After(c, before, events[|events| - 1]) else before
  }

  // ----- The invariant ---------------------------------------------------------

  function Running(handlers: seq<Handler>): nat {
    if handlers == [] then 0
    else Running(handlers[..|handlers| - 1]) + if handlers[|handlers| - 1].running then 1 else 0
  }

  /** Every flight belongs to a handler, and a handler that has returned has closed its flight. */
  ghost predicate OwnedOk(app: App) {
    && |app.owner| == |app.sys.flights|
    && (forall f :: 0 <= f < |app.owner| ==>
          app.owner[f] < |app.handlers| && app.handlers[app.owner[f]].flight == Some(f))
    && (forall f :: 0 <= f < |app.owner| && !app.handlers[app.owner[f]].running ==> ClosedOnce(app.sys.flights[f]))
  }

  predicate PastDrain(p: Phase) { !p.Serving? && !p.Flagged? }

  /** Close saw the idle channel closed. */
  predicate SawQuiet(p: Phase) {
    p.Quiet? || p.Drained? || (p.Stopping? && p.quiet) || (p.Stopped? && p.quiet)
  }

  predicate AllOver(s: State) { forall f :: 0 <= f < |s.flights| ==> Over(s.flights[f]) }

  ghost predicate PhaseOk(app: App) {
    && (PastDrain(app.phase) ==> app.tracker.draining)
    && (app.phase.Waiting? ==> app.phase.channel == app.tracker.idle)
    && (SawQuiet(app.phase) || app.storeClosed ==> app.tracker.active == 0)
    && (app.phase.Stopped? || app.storeClosed ==> app.maintenance.Ended?)
    && (app.storeClosed ==> app.phase.Returned? && app.tracker.draining)
    && (app.phase.Returned? && !app.phase.failed ==> app.storeClosed && AllOver(app.sys))
    && (SawQuiet(app.phase) && !app.phase.Quiet? && !app.failed ==> AllOver(app.sys))
  }

  lemma RunningOfExtended(handlers: seq<Handler>, h: Handler)
    ensures Running(handlers + [h]) == Running(handlers) + if h.running then 1 else 0
  {
    assert (handlers + [h])[..|handlers|] == handlers;
  }

  lemma {:induction false} RunningOfUpdated(handlers: seq<Handler>, h: nat, next: Handler)
    requires h < |handlers|
    ensures Running(handlers[h := next]) + (if handlers[h].running then 1 else 0)
            == Running(handlers) + if next.running then 1 else 0
  {
    var last := |handlers| - 1;
    if h == last {
      assert handlers[h := next][..last] == handlers[..last];
    } else {
      assert handlers[h := next][..last] == handlers[..last][h := next];
      RunningOfUpdated(handlers[..last], h, next);
    }
  }

  lemma {:induction false} NobodyRuns(handlers: seq<Handler>, h: nat)
    requires Running(handlers) == 0 && h < |handlers|
    ensures !handlers[h].running
  {
    if h < |handlers| - 1 {
      NobodyRuns(handlers[..|handlers| - 1], h);
    }
  }

  // ----- Every event keeps it ----------------------------------------------------

  /** The parts of the invariant that do not look inside the relay. */
  ghost predicate ShellOk(app: App) {
    TrackerOk(app.tracker) && app.tracker.active == Running(app.handlers) && OwnedOk(app) && PhaseOk(app)
  }

  lemma ServeKeeps(app: App)
    requires ShellOk(app) && !app.tracker.draining
    ensures ShellOk(app.(tracker := Entered(app.tracker), handlers := app.handlers + [Handler(true, None)]))
  {
    RunningOfExtended(app.handlers, Handler(true, None));
  }

  lemma StartKeeps(app: App, h: nat, key: nat)
    requires ShellOk(app) && h < |app.handlers| && app.handlers[h].running && app.handlers[h].flight.None?
    ensures ShellOk(app.(sys := ArriveStep(app.sys, key), owner := app.owner + [h],
                         handlers := app.handlers[h := app.handlers[h].(flight := Some(|app.sys.flights|))]))
  {
    RunningOfUpdated(app.handlers, h, app.handlers[h].(flight := Some(|app.sys.flights|)));
    if app.tracker.active == 0 {
      NobodyRuns(app.handlers, h);
      assert false;
    }
  }

  lemma ReturnKeeps(app: App, h: nat)
    requires ShellOk(app) && CanReturn(app, h)
    ensures ShellOk(app.(tracker := Left(app.tracker), handlers := app.handlers[h := app.handlers[h].(running := false)]))
  {
    RunningOfUpdated(app.handlers, h, app.handlers[h].(running := false));
  }

  /** The relay moved, and every request in it moved forward. */
  lemma InsideKeeps(app: App, s': State)
    requires ShellOk(app) && |s'.flights| == |app.sys.flights|
    requires forall f: nat :: f < |s'.flights| ==> Advances(app.sys, s', f)
    ensures ShellOk(app.(sys := s'))
  {
    var app' := app.(sys := s');
    forall f | 0 <= f < |app'.owner| && !app'.handlers[app'.owner[f]].running
      ensures ClosedOnce(s'.flights[f])
    {
      assert Advances(app.sys, s', f);
    }
    if AllOver(app.sys) {
      forall f | 0 <= f < |s'.flights|
        ensures Over(s'.flights[f])
      {
        assert Advances(app.sys, s', f);
      }
    }
  }

  lemma RequestsStay(c: Config, s: State, a: Action)
    requires Enabled(c, s, a) && InsideAllowed(a)
    ensures |Next(c, s, a).flights| == |s.flights|
    ensures forall f: nat :: f < |s.flights| ==> Advances(s, Next(c, s, a), f)
  {
    if a.Turn? {
      if !IsPlain(s.flights[a.f].pc) {
        GateTurnMoves(s, a.f);
      }
    } else if a.EnterKey? {
      EnterMoves(s, a.f, a.limit);
    }
    forall f: nat | f < |s.flights|
      ensures Advances(s, Next(c, s, a), f)
    {
      RequestsAdvance(c, s, a, f);
    }
  }

  /** When nobody runs, every flight was closed once; when none is pending either, every flight is over. */
  lemma NothingPendingMeansOver(c: Config, app: App)
    requires LeasesOk(c, app.sys) && ShellOk(app) && app.tracker.active == 0 && app.sys.pending == map[]
    ensures AllOver(app.sys)
  {
    forall f | 0 <= f < |app.sys.flights|
      ensures Over(app.sys.flights[f])
    {
      NobodyRuns(app.handlers, app.owner[f]);
      assert ClosedOnce(app.sys.flights[f]);
      assert FlightOk(c, app.sys, f);
    }
  }

  /** Close itself touches no request and no handler. */
  lemma StepFrame(app: App, ok: bool)
    requires !app.phase.Serving?
    ensures var app' := Step(app, ok);
            && app'.sys == app.sys && app'.owner == app.owner && app'.handlers == app.handlers
            && app'.tracker == app.tracker.(draining := app'.tracker.draining)
  {
  }

  /** The phases of Close follow each other in order. */
  lemma StepPhases(app: App, ok: bool)
    requires TrackerOk(app.tracker) && PhaseOk(app) && !app.phase.Serving?
    requires app.phase.Quiet? && app.sys.pending == map[] ==> AllOver(app.sys)
    ensures PhaseOk(Step(app, ok))
  {
  }

  lemma StepKeeps(app: App, ok: bool)
    requires ShellOk(app) && !app.phase.Serving?
    requires app.phase.Quiet? && app.sys.pending == map[] ==> AllOver(app.sys)
    ensures ShellOk(Step(app, ok)) && Step(app, ok).sys == app.sys
  {
    StepFrame(app, ok);
    StepPhases(app, ok);
  }

  lemma FlagKeeps(app: App)
    requires ShellOk(app) && app.phase.Serving?
    ensures ShellOk(app.(sys := app.sys.(draining := true), phase := Flagged))
  {
  }

  lemma FlaggedIsGood(c: Config, start: Time, s: State)
    requires Good(c, start, s)
    ensures Good(c, start, s.(draining := true))
  {
    var s' := s.(draining := true);
    forall f: nat | f < |s.flights|
      ensures FlightOk(c, s', f)
    {
      assert FlightOk(c, s, f);
    }
  }

  lemma ProceedKeeps(c: Config, start: Time, app: App, ok: bool)
    requires Good(c, start, app.sys) && ShellOk(app)
    ensures Good(c, start, Step(app, ok).sys) && ShellOk(Step(app, ok))
  {
    if app.phase.Serving? {
      FlaggedIsGood(c, start, app.sys);
      FlagKeeps(app);
    } else {
      if app.phase.Quiet? && app.sys.pending == map[] {
        NothingPendingMeansOver(c, app);
      }
      StepKeeps(app, ok);
    }
  }

  lemma InsideEventKeeps(c: Config, start: Time, app: App, a: Action)
    requires Reasonable(c) && Good(c, start, app.sys) && ShellOk(app) && InsideAllowed(a) && Enabled(c, app.sys, a)
    ensures Good(c, start, Next(c, app.sys, a)) && ShellOk(app.(sys := Next(c, app.sys, a)))
  {
    StepIsGood(c, start, app.sys, a);
    RequestsStay(c, app.sys, a);
    InsideKeeps(app, Next(c, app.sys, a));
  }

  lemma EventKeeps(c: Config, start: Time, app: App, e: Event)
    requires Reasonable(c) && Good(c, start, app.sys) && ShellOk(app) && Can(c, app, e)
    ensures Good(c, start, After(c, app, e).sys) && ShellOk(After(c, app, e))
  {
    if e.Serve? {
      if !app.tracker.draining {
        ServeKeeps(app);
      }
    } else if e.StartFlight? {
      StartKeeps(app, e.h, e.key);
      StepIsGood(c, start, app.sys, Arrive(e.key));
    } else if e.Return? {
      ReturnKeeps(app, e.h);
    } else if e.Inside? {
      InsideEventKeeps(c, start, app, e.a);
    } else if e.Proceed? {
      ProceedKeeps(c, start, app, e.ok);
    }
  }

  lemma {:induction false} EveryShutdownIsOk(c: Config, start: Time, limit: int, maintained: bool, events: seq<Event>)
    requires Reasonable(c)
    ensures var app := Runs(c, Begin(start, limit, maintained), events); Good(c, start, app.sys) && ShellOk(app)
  {
    if events == [] {
      EveryRunIsGood(c, start, limit, []);
    } else {
      EveryShutdownIsOk(c, start, limit, maintained, events[..|events| - 1]);
      var app := Runs(c, Begin(start, limit, maintained), events[..|events| - 1]);
      if Can(c, app, events[|events| - 1]) {
        EventKeeps(c, start, app, events[|events| - 1]);
      }
    }
  }

  ghost predicate Orderly(app: App) {
    && (forall i :: 0 <= i < |app.tracker.closes| ==> app.tracker.closes[i] <= 1)
    && (app.storeClosed ==>
          && (forall h :: 0 <= h < |app.handlers| ==> !app.handlers[h].running)
          && app.tracker.draining
          && app.maintenance.Ended?)
    && (app.phase == Returned(false) ==> forall f :: 0 <= f < |app.sys.flights| ==> Over(app.sys.flights[f]))
  }

  lemma ShellIsOrderly(app: App)
    requires ShellOk(app)
    ensures Orderly(app)
  {
    if app.storeClosed {
      forall h | 0 <= h < |app.handlers|
        ensures !app.handlers[h].running
      {
        NobodyRuns(app.handlers, h);
      }
    }
  }

  /**
   * Orderly shutdown, over every run. No idle channel is closed twice. The store
   * is closed only when no handler is active, none can start and maintenance has
   * ended. And when Close returns without an error, every request of the process
   * was turned away or has its settlement confirmed by the store.
   */
  lemma OrderlyShutdown(c: Config, start: Time, limit: int, maintained: bool, events: seq<Event>)
    requires Reasonable(c)
    ensures Orderly(Runs(c, Begin(start, limit, maintained), events))
  {
    EveryShutdownIsOk(c, start, limit, maintained, events);
    ShellIsOrderly(Runs(c, Begin(start, limit, maintained), events));
  }

  // ----- How Close returns ---------------------------------------------------------

  /** Close gets there, and without an error, once no handler runs, nothing is pending and nothing fails; in between it waits for maintenance to end. */
  lemma QuietShutdownCloses(app: App) returns (waiting: App, app': App)
    requires TrackerOk(app.tracker) && app.phase.Serving? && app.tracker.active == 0 && app.sys.pending == map[] && !app.failed
    ensures waiting == Proceeding(app, 7) && waiting.phase == Stopping(true) && waiting.storeClosed == app.storeClosed && !waiting.maintenance.Looping?
    ensures app' == Proceeding(waiting.(maintenance := Ended), 2)
    ensures app'.phase == Returned(false) && app'.storeClosed && app'.tracker.draining && app'.sys.draining
  {
    assert Proceeding(app, 0) == app;
    assert Proceeding(app, 1) == Step(app, true);
    var s1, s2, s3, s4 := Proceeding(app, 1), Proceeding(app, 2), Proceeding(app, 3), Proceeding(app, 4);
    assert s1 == app.(sys := app.sys.(draining := true), phase := Flagged);
    assert s2 == Step(s1, true) && s2.tracker == app.tracker.(draining := true) && s2.phase == Rejecting;
    assert s3 == Step(s2, true) && s3.phase == ShutDown;
    assert s4 == Step(s3, true) && s4.phase == Waiting(app.tracker.idle) && s4.tracker == s2.tracker;
    var s5, s6 := Proceeding(app, 5), Proceeding(app, 6);
    assert s5 == Step(s4, true) && s5.phase == Quiet;
    assert s6 == Step(s5, true) && s6.phase == Drained;
    waiting := Proceeding(app, 7);
    assert waiting == Step(s6, true);
    var ended := waiting.(maintenance := Ended);
    assert Proceeding(ended, 0) == ended;
    assert Proceeding(ended, 1) == Step(ended, true);
    app' := Proceeding(ended, 2);
  }

  /** Some steps of Close in which nothing goes wrong. */
  function Proceeding(app: App, n: nat): App { if n == 0 then app else Step(Proceeding(app, n - 1), true) }

  /** What goes wrong is remembered to the end. */
  lemma FailuresAreReported(app: App, ok: bool)
    ensures var app' := Step(app, ok);
            && (app.failed ==> app'.failed)
            && (app.phase.Rejecting? && !ok ==> app'.failed)
            && (app.phase.Quiet? && app.sys.pending != map[] && !ok ==> app'.failed && app'.phase == Drained)
            && (app.phase.Stopping? && !app.maintenance.Ended? && !ok ==> app'.phase == Returned(true) && app'.storeClosed == app.storeClosed)
            && (app.phase == Stopped(true) ==> app'.storeClosed && app'.phase == Returned(app.failed || !ok))
  {
  }

  /** A handler that does not end in time leaves the store open, and Close says so. */
  lemma BusyHandlerKeepsStoreOpen(app: App)
    requires app.phase.Waiting? && app.maintenance.Ended?
    ensures var busy := Step(app, false);
            && busy.phase == Busy && Step(busy, true).phase == Stopping(false) && Step(Step(busy, true), true).phase == Stopped(false)
            && Step(Step(Step(busy, true), true), true).phase == Returned(true)
            && Step(Step(Step(busy, true), true), true).storeClosed == app.storeClosed
  {
  }
}
