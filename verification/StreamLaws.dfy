/**
 * What a stream handler records and sends, read off the signals it met: one
 * table for the end of a stream, and one statement for each kind of event.
 */
module StreamLaws {
  import opened Base
  import opened Sse
  import opened Bridge

  // ----- How a stream ends -----------------------------------------------------

  /** Signals that never end a stream, and frames that do not. */
  predicate GoesOn(mode: Mode, signal: Signal) {
    || signal.Heartbeat? || signal.Opened? || signal == Check(true)
    || (signal.Arrived? && mode == Chat && !signal.received.event.invalid && signal.received.parsed != DoneMark)
    || (signal.Arrived? && mode == Responses
        && (signal.received.frame.comment || signal.received.parsed.Blank? || signal.received.parsed.Chunk?))
  }

  /** The stream ends at signal `n`, the first that does not let it go on, or with the request if there is none. */
  ghost predicate EndsAt(mode: Mode, signals: seq<Signal>, n: nat) {
    n <= |signals| && (forall i :: 0 <= i < n ==> GoesOn(mode, signals[i])) && (n < |signals| ==> !GoesOn(mode, signals[n]))
  }

  /** The upstream had answered by then. */
  predicate Answered(signals: seq<Signal>, n: nat)
    requires n <= |signals|
  {
    exists i :: 0 <= i < n && signals[i].Opened?
  }

  predicate IsChunk(signal: Signal) { signal.Arrived? && !signal.received.frame.comment && signal.received.parsed.Chunk? }

  /** The last finish reason given said that the output was cut at its limit. */
  predicate CutAtLimit(signals: seq<Signal>, n: nat)
    requires n <= |signals|
  {
    exists i :: 0 <= i < n && IsChunk(signals[i]) && signals[i].received.parsed.finish == "length"
                && forall j :: i < j < n && IsChunk(signals[j]) ==> signals[j].received.parsed.finish == ""
  }

  lemma EndIs(mode: Mode, signals: seq<Signal>, n: nat)
    requires EndsAt(mode, signals, n)
    ensures EndOf(mode, signals) == n && StopsAt(mode, signals, n, StopAt(mode, signals, n))
  {
    assert forall i :: 0 <= i < |signals| ==> (Continues(mode, signals[i]) <==> GoesOn(mode, signals[i]));
    EndIsReached(mode, signals, n);
  }

  lemma {:induction false} AnsweredIsSeen(signals: seq<Signal>, n: nat)
    requires n <= |signals|
    ensures HeaderSeen(signals, n) <==> Answered(signals, n)
  {
    if n > 0 {
      AnsweredIsSeen(signals, n - 1);
    }
  }

  lemma {:induction false} FinishIsLast(signals: seq<Signal>, n: nat)
    requires n <= |signals|
    ensures FinishOf(signals, n) == "length" <==> CutAtLimit(signals, n)
    ensures (forall i :: 0 <= i < n && IsChunk(signals[i]) ==> signals[i].received.parsed.finish == "") ==> FinishOf(signals, n) == ""
  {
    if n > 0 {
      FinishIsLast(signals, n - 1);
      if IsChunk(signals[n - 1]) && signals[n - 1].received.parsed.finish != "" {
        if signals[n - 1].received.parsed.finish == "length" {
          assert CutAtLimit(signals, n);
        }
      } else if CutAtLimit(signals, n - 1) {
        var i :| 0 <= i < n - 1 && IsChunk(signals[i]) && signals[i].received.parsed.finish == "length"
                 && forall j :: i < j < n - 1 && IsChunk(signals[j]) ==> signals[j].received.parsed.finish == "";
        assert CutAtLimit(signals, n);
      }
    }
  }

  const GONE := Report(Aborted, "client_canceled", StreamStage)

  /** The error of a read that is reported as it is; the one exception is a frame that cannot be read. */
  predicate Broke(signals: seq<Signal>, n: nat, e: StreamError) { n < |signals| && signals[n] == Broken(e) && !e.invalid }

  /** The client gives up, or is not admitted any longer. */
  lemma VerdictOnClient(mode: Mode, signals: seq<Signal>, ctx: Context, n: nat)
    requires EndsAt(mode, signals, n)
    ensures n == |signals| || signals[n].Cancelled? ==> Verdict(mode, signals, ctx) == GONE
    ensures n < |signals| && signals[n].Check? ==> Verdict(mode, signals, ctx) == Report(Aborted, "memory_limit_exceeded", StreamStage)
  {
    EndIs(mode, signals, n);
  }

  /** An upstream that had answered, while the request is wanted: only [DONE] completes it. */
  lemma VerdictOnUpstream(mode: Mode, signals: seq<Signal>, n: nat)
    requires EndsAt(mode, signals, n) && Answered(signals, n) && n < |signals|
    ensures var r, signal := Verdict(mode, signals, Live), signals[n];
            && (signal.Exhausted? ==> r == Report(Failed, "upstream_stream_incomplete", UpstreamStage))
            && (signal.Arrived? && (signal.received.parsed != DoneMark || (mode == Chat && signal.received.event.invalid)) ==>
                  r == Report(Failed, "upstream_event_invalid", UpstreamStage))
            && (signal.Arrived? && signal.received.parsed == DoneMark && (mode == Chat ==> !signal.received.event.invalid) ==>
                  r == if mode == Responses && CutAtLimit(signals, n) then Report(Failed, "upstream_incomplete", UpstreamStage)
                       else Report(Completed, "", NoStage))
    ensures forall e :: Broke(signals, n, e) ==>
              Verdict(mode, signals, Live) ==
              if e.canceled then GONE
              else if e.eof then Report(Failed, "upstream_stream_incomplete", UpstreamStage)
              else if e.upstream.None? || e.upstream.value.code == "" then Report(Failed, "upstream_stream_read_failed", UpstreamStage)
              else if e.upstream.value.code == "client_canceled" then GONE
              else Report(Failed, e.upstream.value.code, UpstreamStage)
  {
    EndIs(mode, signals, n);
    AnsweredIsSeen(signals, n);
    FinishIsLast(signals, n);
  }

  /** The same once the request is not wanted any more: the end is an abort, whatever came from upstream. */
  lemma VerdictOnLateUpstream(mode: Mode, signals: seq<Signal>, ctx: Context, n: nat)
    requires EndsAt(mode, signals, n) && Answered(signals, n) && n < |signals| && ctx != Live
    requires signals[n].Exhausted? || (signals[n].Broken? && !signals[n].error.invalid) || IsDone(mode, signals[n])
    ensures Verdict(mode, signals, ctx) == GONE
  {
    EndIs(mode, signals, n);
    AnsweredIsSeen(signals, n);
  }

  /** An upstream that never answered: the request was cancelled, or it failed with the upstream's own code, with the time limit, or with the connection. */
  lemma VerdictOnUnopened(mode: Mode, signals: seq<Signal>, ctx: Context, n: nat)
    requires EndsAt(mode, signals, n) && !Answered(signals, n) && n < |signals|
    ensures signals[n].Exhausted? ==>
              Verdict(mode, signals, ctx) ==
              if ctx == ContextCanceled then Report(Aborted, "client_canceled", UpstreamStage)
              else Report(Failed, "upstream_connection_failed", UpstreamStage)
    ensures forall e :: Broke(signals, n, e) ==>
              Verdict(mode, signals, ctx) ==
              if ctx == ContextCanceled || e.canceled then Report(Aborted, "client_canceled", UpstreamStage)
              else if e.upstream.Some? then Report(Failed, e.upstream.value.code, UpstreamStage)
              else if e.deadline then Report(Failed, "request_duration_exceeded", UpstreamStage)
              else Report(Failed, "upstream_connection_failed", UpstreamStage)
  {
    EndIs(mode, signals, n);
    AnsweredIsSeen(signals, n);
  }

  /** The HTTP status recorded for it: the upstream's if it sent one, none otherwise. */
  lemma StatusOfUnopened(error: StreamError, ctx: Context)
    ensures HttpFor(AtError(error), false, 0, ctx) ==
            if ctx != ContextCanceled && !error.canceled && error.upstream.Some? then error.upstream.value.status else 0
  {
  }

  /** Aborted is recorded exactly of a cancelled request, a refused admission or a failed write. */
  lemma AbortedIff(mode: Mode, signals: seq<Signal>, writes: nat -> bool, ctx: Context, n: nat, written: seq<Out>, r: Report)
    requires Delivers(mode, signals, writes, ctx, written, r) && EndsAt(mode, signals, n)
    ensures r.status == Aborted <==>
            || (exists i :: 0 <= i < |written| && !writes(i))
            || n == |signals| || signals[n].Cancelled? || signals[n].Check?
            || (if Answered(signals, n) then ctx != Live else ctx == ContextCanceled)
            || (signals[n].Broken? && signals[n].error.canceled)
            || (Answered(signals, n) && signals[n].Broken? && !signals[n].error.eof
                && signals[n].error.upstream.Some? && signals[n].error.upstream.value.code == "client_canceled")
  {
    EndIs(mode, signals, n);
    AnsweredIsSeen(signals, n);
    FinishIsLast(signals, n);
  }

  // ----- What is sent last -----------------------------------------------------

  /**
   * A failure, and a refused admission, is told by one last event with the code
   * that is recorded; any other abort is silent; a completed chat adds nothing,
   * and a completed response its three closing events.
   */
  lemma LastEvents(mode: Mode, signals: seq<Signal>, ctx: Context, n: nat)
    requires EndsAt(mode, signals, n)
    ensures var due, r, before := Due(mode, signals, ctx), Verdict(mode, signals, ctx), OutBy(mode, signals, n);
            var text, usage := Text(signals, n), UsageOf(signals, n);
            var told := r.status == Failed || (n < |signals| && signals[n].Check?);
            && (told && mode == Chat ==> due == before + [ChatError(r.code)])
            && (told && mode == Responses ==>
                  due == before + [FailureEvent(n < |signals| && IsDone(Responses, signals[n]) && Answered(signals, n), text, r.code)])
            && (!told && r.status == Aborted ==> due == before)
            && (r.status == Completed && mode == Chat ==> due == before)
            && (r.status == Completed && mode == Responses ==> due == before + [TextDone(text), ItemDone(text), CompletedEvent(text, usage)])
  {
    EndIs(mode, signals, n);
    AnsweredIsSeen(signals, n);
  }

  /** A stream without a failed write has sent all of that. */
  lemma EverythingIsSent(mode: Mode, signals: seq<Signal>, writes: nat -> bool, ctx: Context, written: seq<Out>, r: Report)
    requires Delivers(mode, signals, writes, ctx, written, r) && forall i :: 0 <= i < |written| ==> writes(i)
    ensures written == Due(mode, signals, ctx) && r == Verdict(mode, signals, ctx)
  {
  }

  /** A failed write is the last one, and nothing but what was due came before it. */
  lemma FailedWriteIsLast(mode: Mode, signals: seq<Signal>, writes: nat -> bool, ctx: Context, written: seq<Out>, r: Report, i: nat)
    requires Delivers(mode, signals, writes, ctx, written, r) && i < |written| && !writes(i)
    ensures i == |written| - 1 && written <= Due(mode, signals, ctx)
    ensures r == Report(Aborted, "downstream_write_failed", DownstreamStage)
  {
  }

  // ----- What is sent before ---------------------------------------------------

  /** The texts of the deltas, the bytes passed on, and the number of heartbeats, among events. */
  function Deltas(outs: seq<Out>): seq<Bytes> {
    if outs == [] then [] else Deltas(outs[..|outs| - 1]) + if outs[|outs| - 1].Delta? then [outs[|outs| - 1].text] else []
  }

  function PassedOn(outs: seq<Out>): seq<Bytes> {
    if outs == [] then [] else PassedOn(outs[..|outs| - 1]) + if outs[|outs| - 1].Forward? then [outs[|outs| - 1].raw] else []
  }

  function Beats(outs: seq<Out>): nat {
    if outs == [] then 0 else Beats(outs[..|outs| - 1]) + if outs[|outs| - 1].HeartbeatComment? then 1 else 0
  }

  /** The same among signals: a chunk gives its text, if it has any; a chat passes on every frame, the bridge only comments. */
  function ChunkTexts(mode: Mode, signals: seq<Signal>, n: nat): seq<Bytes>
    requires n <= |signals|
  {
    if n == 0 then []
    else ChunkTexts(mode, signals, n - 1) +
         if mode == Responses && IsChunk(signals[n - 1]) && signals[n - 1].received.parsed.delta != [] then [signals[n - 1].received.parsed.delta] else []
  }

  function FramesKept(mode: Mode, signals: seq<Signal>, n: nat): seq<Bytes>
    requires n <= |signals|
  {
    if n == 0 then []
    else FramesKept(mode, signals, n - 1) +
         if signals[n - 1].Arrived? && (mode == Chat || signals[n - 1].received.frame.comment) then [signals[n - 1].received.frame.raw] else []
  }

  function BeatSignals(signals: seq<Signal>, n: nat): nat
    requires n <= |signals|
  {
    if n == 0 then 0 else BeatSignals(signals, n - 1) + if signals[n - 1].Heartbeat? then 1 else 0
  }

  lemma AddOne(outs: seq<Out>, out: Out)
    ensures Deltas(outs + [out]) == Deltas(outs) + if out.Delta? then [out.text] else []
    ensures PassedOn(outs + [out]) == PassedOn(outs) + if out.Forward? then [out.raw] else []
    ensures Beats(outs + [out]) == Beats(outs) + if out.HeartbeatComment? then 1 else 0
  {
    assert (outs + [out])[..|outs|] == outs;
  }

  lemma AddHeader(outs: seq<Out>)
    ensures var after := outs + [Created, ItemAdded, PartAdded];
            Deltas(after) == Deltas(outs) && PassedOn(after) == PassedOn(outs) && Beats(after) == Beats(outs)
  {
    AddOne(outs, Created);
    AddOne(outs + [Created], ItemAdded);
    AddOne(outs + [Created] + [ItemAdded], PartAdded);
    assert outs + [Created, ItemAdded, PartAdded] == outs + [Created] + [ItemAdded] + [PartAdded];
  }

  /** What one signal adds. */
  lemma AddSignal(mode: Mode, before: seq<Out>, signal: Signal, after: seq<Out>)
    requires after == before + OutOf(mode, signal)
    ensures && Deltas(after) == Deltas(before) +
               (if mode == Responses && IsChunk(signal) && signal.received.parsed.delta != [] then [signal.received.parsed.delta] else [])
            && PassedOn(after) == PassedOn(before) +
               (if signal.Arrived? && (mode == Chat || signal.received.frame.comment) then [signal.received.frame.raw] else [])
            && Beats(after) == Beats(before) + if signal.Heartbeat? then 1 else 0
  {
    var outs := OutOf(mode, signal);
    if outs == [] {
      assert before + outs == before;
    } else if signal.Opened? {
      AddHeader(before);
    } else {
      AddOne(before, outs[0]);
      assert outs == [outs[0]];
    }
  }

  /** These events are those of the first `n` signals, by kind. */
  ghost predicate Tally(mode: Mode, signals: seq<Signal>, n: nat, outs: seq<Out>) {
    n <= |signals| && Deltas(outs) == ChunkTexts(mode, signals, n) && PassedOn(outs) == FramesKept(mode, signals, n) && Beats(outs) == BeatSignals(signals, n)
  }

  lemma TallyStart(mode: Mode, signals: seq<Signal>)
    ensures Tally(mode, signals, 0, [OpenComment])
  {
    assert [OpenComment] == [] + [OpenComment];
    AddOne([], OpenComment);
  }

  lemma TallyNext(mode: Mode, signals: seq<Signal>, n: nat, before: seq<Out>, after: seq<Out>)
    requires 0 < n <= |signals| && Tally(mode, signals, n - 1, before) && after == before + OutOf(mode, signals[n - 1])
    ensures Tally(mode, signals, n, after)
  {
    AddSignal(mode, before, signals[n - 1], after);
  }

  lemma ExpectedNext(mode: Mode, signals: seq<Signal>, n: nat)
    requires 0 < n <= |signals|
    ensures Expected(mode, signals, n) == Expected(mode, signals, n - 1) + OutOf(mode, signals[n - 1])
  {
  }

  /** Up to any point, the deltas sent are the texts of the chunks, the frames passed on are those to be passed on, in order, and there is one heartbeat for each. */
  lemma {:induction false} SentSoFar(mode: Mode, signals: seq<Signal>, n: nat)
    requires n <= |signals|
    ensures Tally(mode, signals, n, Expected(mode, signals, n))
  {
    if n == 0 {
      TallyStart(mode, signals);
    } else {
      SentSoFar(mode, signals, n - 1);
      ExpectedNext(mode, signals, n);
      TallyNext(mode, signals, n, Expected(mode, signals, n - 1), Expected(mode, signals, n));
    }
  }

  /** The bridge announces the response when the upstream answers. */
  lemma HeaderIsAnnounced(signals: seq<Signal>, n: nat)
    requires n < |signals| && signals[n].Opened?
    ensures Expected(Responses, signals, n + 1) == Expected(Responses, signals, n) + [Created, ItemAdded, PartAdded]
    ensures Expected(Chat, signals, n + 1) == Expected(Chat, signals, n)
  {
  }

  function Joined(texts: seq<Bytes>): Bytes {
    if texts == [] then [] else Joined(texts[..|texts| - 1]) + texts[|texts| - 1]
  }

  lemma JoinedSnoc(texts: seq<Bytes>, text: Bytes)
    ensures Joined(texts + [text]) == Joined(texts) + text
  {
    assert (texts + [text])[..|texts|] == texts;
  }

  lemma {:induction false} TextIsOfDeltas(outs: seq<Out>)
    ensures TextOf(outs) == Joined(Deltas(outs))
  {
    if outs != [] {
      var before, last := outs[..|outs| - 1], outs[|outs| - 1];
      TextIsOfDeltas(before);
      if last.Delta? {
        JoinedSnoc(Deltas(before), last.text);
      } else {
        assert Deltas(before) + [] == Deltas(before);
      }
    }
  }

  /** The text that the closing events and the estimate go by is that of the chunks. */
  lemma TextIsOfChunks(signals: seq<Signal>, n: nat)
    requires n <= |signals|
    ensures Text(signals, n) == Joined(ChunkTexts(Responses, signals, n))
  {
    TextIsWritten(signals, n);
    TextIsOfDeltas(Expected(Responses, signals, n));
    SentSoFar(Responses, signals, n);
  }

  // ----- What is charged -------------------------------------------------------

  /** The last report with a positive total, if there is one. */
  lemma {:induction false} UsageIsLastReport(signals: seq<Signal>, n: nat) returns (i: nat)
    requires n <= |signals|
    ensures i <= n
    ensures forall j :: i <= j < n && IsChunk(signals[j]) && signals[j].received.parsed.usage.Some? ==> signals[j].received.parsed.usage.value.total <= 0
    ensures if i == 0 then UsageOf(signals, n) == NO_USAGE
            else IsChunk(signals[i - 1]) && signals[i - 1].received.parsed.usage == Some(UsageOf(signals, n)) && UsageOf(signals, n).total > 0
  {
    if n == 0 {
      i := 0;
    } else if IsChunk(signals[n - 1]) && Reports(signals[n - 1].received.parsed.usage) {
      i := n;
    } else {
      i := UsageIsLastReport(signals, n - 1);
    }
  }

  /** A chat counts the characters of its frames, and keeps the last report with a positive total. */
  lemma {:induction false} CountIsOfFrames(signals: seq<Signal>, n: nat) returns (i: nat)
    requires n <= |signals|
    ensures CountedAt(signals, n).characters == Characters(signals, n)
    ensures i <= n && (forall j :: i <= j < n && signals[j].Arrived? ==> signals[j].received.event.usage.total <= 0)
    ensures if i == 0 then CountedAt(signals, n).usage == NO_USAGE
            else signals[i - 1].Arrived? && signals[i - 1].received.event.usage == CountedAt(signals, n).usage && CountedAt(signals, n).usage.total > 0
  {
    if n == 0 {
      i := 0;
    } else {
      i := CountIsOfFrames(signals, n - 1);
      if signals[n - 1].Arrived? && signals[n - 1].received.event.usage.total > 0 {
        i := n;
      }
    }
  }

  function Characters(signals: seq<Signal>, n: nat): nat
    requires n <= |signals|
  {
    if n == 0 then 0 else Characters(signals, n - 1) + if signals[n - 1].Arrived? then signals[n - 1].received.event.characters else 0
  }

  predicate GivesFinish(signal: Signal) { signal.Arrived? && signal.received.event.finish != "" }

  /** The HTTP status is that of the last header, the output was cut if some chunk said so, and a chat keeps its last finish reason. */
  lemma {:induction false} ColumnsAreLast(signals: seq<Signal>, n: nat)
    requires n <= |signals|
    ensures LengthSeen(signals, n) <==> exists i :: 0 <= i < n && IsChunk(signals[i]) && signals[i].received.parsed.finish == "length"
    ensures CountedAt(signals, n).http == StatusOf(signals, n)
    ensures forall i :: 0 <= i < n && signals[i].Opened? && (forall j :: i < j < n ==> !signals[j].Opened?) ==> StatusOf(signals, n) == signals[i].status
    ensures forall i :: 0 <= i < n && GivesFinish(signals[i]) && (forall j :: i < j < n ==> !GivesFinish(signals[j])) ==>
              CountedAt(signals, n).finish == signals[i].received.event.finish
  {
    if n > 0 {
      ColumnsAreLast(signals, n - 1);
    }
  }

  /**
   * The charge, column by column. A report is charged as it is, with the reserved
   * input where it has no prompt; without one, output is half a token for each
   * unit sent; without either nothing is charged but what the report says.
   */
  lemma ChargeMeans(usage: Usage, size: nat, leaseInput: int, prices: Pricing.Prices)
    ensures var c := ChargeFor(usage, size, leaseInput, prices);
            && (c.source == FromUpstream <==> usage.total > 0)
            && (c.source == Estimated <==> usage.total <= 0 && size > 0)
            && (c.source != Estimated ==>
                  && c.output == usage.completion && c.cached == usage.cached
                  && c.input == (if usage.prompt != 0 then usage.prompt else leaseInput)
                  && c.amount == Pricing.Min(MAX_INT64, Pricing.ExactBill(Pricing.Tokens(usage.prompt, usage.completion, usage.cached), prices)))
            && (c.source == Estimated ==>
                  && 2 * c.output - 1 <= size <= 2 * c.output && c.cached == 0 && c.input == leaseInput
                  && c.amount == Pricing.Min(MAX_INT64, Pricing.ExactBill(Pricing.Tokens(0, c.output, 0), prices)))
  {
  }
}
