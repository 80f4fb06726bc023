/** The outcome a lease is closed with, and how Close freezes and completes it. */
module Outcomes {
  import opened Base
  import opened Ledger

  /** A handler's outcome; an absent status is the empty text, which means completed. */
  datatype Outcome = Outcome(status: Option<Status>, detail: Settlement)

  const NO_DETAIL: Settlement :=
    Settlement(Completed, Usage(0, 0, 0, 0), 0, "", "", "", "", "", "", None, None, None, None)

  /** The `Outcome{}` the reconciler passes. */
  const BLANK: Outcome := Outcome(None, NO_DETAIL)

  /** The request trace found in a context: the client's id and elapsed times so far. */
  datatype Trace = Trace(
    client: string, duration: Option<int>, header: Option<int>, firstEvent: Option<int>, lastUpstream: Option<int>)

  function Freeze(o: Outcome): Settlement {
    o.detail.(status := if o.status.None? then Completed else o.status.value)
  }

  function Or(a: Option<int>, b: Option<int>): Option<int> { if a.None? then b else a }

  /** Fill in the client's id and the elapsed times that are still missing. */
  function Enrich(s: Settlement, own: string, trace: Option<Trace>): Settlement {
    var client := if s.clientRequest == "" then own else s.clientRequest;
    if trace.None? then s.(clientRequest := client)
    else
      s.(clientRequest := if client == "" then trace.value.client else client,
         duration := Or(s.duration, trace.value.duration),
         header := Or(s.header, trace.value.header),
         firstEvent := Or(s.firstEvent, trace.value.firstEvent),
         lastUpstream := Or(s.lastUpstream, trace.value.lastUpstream))
  }

  /** Freezing takes the handler's outcome as it is; a missing status means completed. */
  lemma FreezeMeans(o: Outcome)
    ensures var s, d := Freeze(o), o.detail;
            && s.status == (if o.status == None then Completed else o.status.value)
            && s == Settlement(s.status, d.usage, d.upstream, d.errorCode, d.failureStage, d.usageSource, d.protocol,
                               d.clientRequest, d.incomplete, d.duration, d.header, d.firstEvent, d.lastUpstream)
  {
  }

  /** What is missing is filled in, the client's id from the lease and then from the trace; nothing that is there is changed. */
  lemma EnrichMeans(s: Settlement, own: string, trace: Option<Trace>)
    ensures var e := Enrich(s, own, trace);
            && e == s.(clientRequest := e.clientRequest, duration := e.duration, header := e.header, firstEvent := e.firstEvent, lastUpstream := e.lastUpstream)
            && e.clientRequest == (if s.clientRequest != "" then s.clientRequest else if own != "" then own else if trace.Some? then trace.value.client else "")
            && e.duration == (if s.duration.Some? || trace.None? then s.duration else trace.value.duration)
            && e.header == (if s.header.Some? || trace.None? then s.header else trace.value.header)
            && e.firstEvent == (if s.firstEvent.Some? || trace.None? then s.firstEvent else trace.value.firstEvent)
            && e.lastUpstream == (if s.lastUpstream.Some? || trace.None? then s.lastUpstream else trace.value.lastUpstream)
  {
  }

  /** Whether a trace has nothing to add to an outcome. */
  predicate AddsNothing(s: Settlement, t: Trace) {
    && (s.clientRequest == "" ==> t.client == "")
    && (s.duration.None? ==> t.duration.None?)
    && (s.header.None? ==> t.header.None?)
    && (s.firstEvent.None? ==> t.firstEvent.None?)
    && (s.lastUpstream.None? ==> t.lastUpstream.None?)
  }

  /**
   * A retry submits the frozen outcome unchanged exactly when its context
   * carries no trace, or one that has nothing to add.
   */
  lemma RetrySubmitsTheSame(s: Settlement, own: string, trace: Option<Trace>, retry: Option<Trace>)
    ensures var kept := Enrich(s, own, trace);
            Enrich(kept, own, retry) == kept <==> retry.None? || AddsNothing(kept, retry.value)
  {
    var kept := Enrich(s, own, trace);
    if retry.Some? && Enrich(kept, own, retry) == kept {
      var again := Enrich(kept, own, retry);
      assert again.clientRequest == kept.clientRequest && again.duration == kept.duration && again.header == kept.header;
    }
  }
}
