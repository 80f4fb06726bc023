/**
 * The streaming handlers: the session that performs all downstream writes, the
 * chat stream, and the bridge from a chat stream to Responses events. What the
 * handler meets is a list of signals and an oracle for each write.
 */
module Bridge {
  import opened Base
  import opened Sse
  import Pricing

  datatype UpstreamError = UpstreamError(code: string, status: int)

  /** What the handlers ask of an error. */
  datatype StreamError = StreamError(eof: bool, canceled: bool, deadline: bool, upstream: Option<UpstreamError>, invalid: bool)

  const INVALID_EVENT := StreamError(false, false, false, None, true)
  const END_OF_FILE := StreamError(true, false, false, None, false)

  datatype Usage = Usage(prompt: int, completion: int, total: int, cached: int)

  /** What the payload of a frame says to the Responses bridge. */
  datatype Parsed = Blank | DoneMark | Malformed | Chunk(delta: Bytes, finish: string, usage: Option<Usage>)

  /** What the raw frame says to the chat stream; no report is a total of zero. */
  datatype ChatEvent = ChatEvent(invalid: bool, characters: nat, finish: string, usage: Usage)

  datatype Received = Received(frame: Frame, parsed: Parsed, event: ChatEvent)

  /** Everything that can wake the handler. */
  datatype Signal =
    | Heartbeat
    | Check(admitted: bool)
    | Opened(status: int)
    | Arrived(received: Received)
    | Broken(error: StreamError)
    | Exhausted
    | Cancelled

  datatype Result = Header(status: int) | FrameResult(received: Received) | ReadError(error: StreamError) | WriteError | AdmissionError | Canceled

  datatype Out =
    | OpenComment
    | HeartbeatComment
    | Forward(raw: Bytes)
    | ChatError(code: string)
    | Created
    | ItemAdded
    | PartAdded
    | Delta(text: Bytes)
    | TextDone(text: Bytes)
    | ItemDone(text: Bytes)
    | CompletedEvent(text: Bytes, usage: Usage)
    | FailureEvent(incomplete: bool, text: Bytes, code: string)

  datatype Status = Completed | Failed | Aborted

  datatype Stage = StreamStage | UpstreamStage | DownstreamStage | NoStage

  datatype Report = Report(status: Status, code: string, stage: Stage)

  const WRITE_FAILED := Report(Aborted, "downstream_write_failed", DownstreamStage)

  /** A failure of an opened stream is laid to the upstream, an abort to the stream. */
  function Terminal(status: Status, code: string): Report {
    Report(status, code, if status == Completed then NoStage else if status == Failed then UpstreamStage else StreamStage)
  }

  /** The request context when the handler looks at it. */
  datatype Context = Live | ContextCanceled | DeadlineExceeded

  // ----- Terminal outcomes -----------------------------------------------------

  function ChatTerminal(done: bool, readErr: Option<StreamError>, canceled: bool): Report {
    if canceled then Terminal(Aborted, "client_canceled")
    else if readErr.Some? && !readErr.value.eof then
      var up := readErr.value.upstream;
      if up.Some? && up.value.code != "" then
        Terminal(if up.value.code == "client_canceled" then Aborted else Failed, up.value.code)
      else Terminal(Failed, "upstream_stream_read_failed")
    else if !done then Terminal(Failed, "upstream_stream_incomplete")
    else Terminal(Completed, "")
  }

  function BridgeTerminal(done: bool, finish: string, readErr: Option<StreamError>, canceled: bool): Report {
    var report := ChatTerminal(done, readErr, canceled);
    if report.status == Completed && finish == "length" then Terminal(Failed, "upstream_incomplete") else report
  }

  function OpenFailure(readErr: Option<StreamError>, ctx: Context): (r: Report)
    ensures r.status != Completed && r.stage == UpstreamStage
  {
    if ctx == ContextCanceled || (readErr.Some? && readErr.value.canceled) then Report(Aborted, "client_canceled", UpstreamStage)
    else if readErr.Some? && readErr.value.upstream.Some? then Report(Failed, readErr.value.upstream.value.code, UpstreamStage)
    else if readErr.Some? && readErr.value.deadline then Report(Failed, "request_duration_exceeded", UpstreamStage)
    else Report(Failed, "upstream_connection_failed", UpstreamStage)
  }

  /** The HTTP status recorded when the upstream did not open. */
  function OpenStatus(readErr: Option<StreamError>, ctx: Context): int {
    if ctx == ContextCanceled || (readErr.Some? && readErr.value.canceled) || readErr.None? || readErr.value.upstream.None? then 0
    else readErr.value.upstream.value.status
  }

  // ----- What a stream is charged ------------------------------------------------

  datatype Source = FromUpstream | Estimated | Unknown

  /** The columns of the outcome that a stream's usage decides. */
  datatype Charge = Charge(input: int, output: int, cached: int, amount: nat, source: Source)

  /** A reported usage as it is; otherwise half a token for each unit sent, rounded up, and no prompt. */
  function ChargedUsage(usage: Usage, size: nat): Usage {
    if usage.total > 0 || size == 0 then usage else Usage(0, (size + 1) / 2, size, 0)
  }

  function ChargeFor(usage: Usage, size: nat, leaseInput: int, prices: Pricing.Prices): Charge {
    var u := ChargedUsage(usage, size);
    Charge(if u.prompt == 0 then leaseInput else u.prompt, u.completion, u.cached,
           Pricing.Min(MAX_INT64, Pricing.ExactBill(Pricing.Tokens(u.prompt, u.completion, u.cached), prices)),
           if usage.total > 0 then FromUpstream else if size > 0 then Estimated else Unknown)
  }

  method ChargeUsage(usage: Usage, size: nat, leaseInput: int, prices: Pricing.Prices) returns (charge: Charge)
    ensures charge == ChargeFor(usage, size, leaseInput, prices)
  {
    var u := usage;
    var reported := usage.total > 0;
    if !reported && size > 0 {
      u := Usage(0, (size + 1) / 2, size, 0);
    }
    var amount := Pricing.PriceUsage(Pricing.Tokens(u.prompt, u.completion, u.cached), prices);
    return Charge(if u.prompt == 0 then leaseInput else u.prompt, u.completion, u.cached, amount,
                  if reported then FromUpstream else if size > 0 then Estimated else Unknown);
  }

  /** An estimated charge records the reserved input tokens but bills none of them. */
  lemma EstimateBillsNoInput(usage: Usage, size: nat, leaseInput: int, prices: Pricing.Prices)
    requires usage.total <= 0 && size > 0
    ensures var charge := ChargeFor(usage, size, leaseInput, prices);
            && charge.source == Estimated && charge.input == leaseInput && charge.output == (size + 1) / 2
            && charge.amount == Pricing.Min(MAX_INT64, Pricing.ExactPart((size + 1) / 2, Pricing.ValueOrZero(prices.output)))
  {
  }

  // ----- What a list of signals amounts to -------------------------------------

  datatype Mode = Chat | Responses

  /** The writes one signal calls for while the stream goes on. */
  function OutOf(mode: Mode, signal: Signal): seq<Out> {
    match signal
    case Heartbeat => [HeartbeatComment]
    case Opened(_) => if mode == Chat then [] else [Created, ItemAdded, PartAdded]
    case Arrived(f) =>
      if mode == Chat || f.frame.comment then [Forward(f.frame.raw)]
      else if f.parsed.Chunk? && f.parsed.delta != [] then [Delta(f.parsed.delta)]
      else []
    case _ => []
  }

  /** The signal does not end the stream. */
  predicate Continues(mode: Mode, signal: Signal) {
    match signal
    case Heartbeat => true
    case Check(admitted) => admitted
    case Opened(_) => true
    case Arrived(f) =>
      if mode == Chat then !f.event.invalid && !f.parsed.DoneMark?
      else f.frame.comment || (!f.parsed.Malformed? && !f.parsed.DoneMark?)
    case _ => false
  }

  predicate IsDone(mode: Mode, signal: Signal) {
    && signal.Arrived? && signal.received.parsed.DoneMark?
    && if mode == Chat then !signal.received.event.invalid else !signal.received.frame.comment
  }

  predicate Quiet(mode: Mode, signals: seq<Signal>, n: nat)
    requires n <= |signals|
  {
    forall i :: 0 <= i < n ==> Continues(mode, signals[i])
  }

  function Expected(mode: Mode, signals: seq<Signal>, n: nat): (outs: seq<Out>)
    requires n <= |signals|
    ensures outs != []
  {
    if n == 0 then [OpenComment] else Expected(mode, signals, n - 1) + OutOf(mode, signals[n - 1])
  }

  function HeaderSeen(signals: seq<Signal>, n: nat): bool
    requires n <= |signals|
  {
    n > 0 && (HeaderSeen(signals, n - 1) || signals[n - 1].Opened?)
  }

  /** The text of the deltas. */
  function Text(signals: seq<Signal>, n: nat): Bytes
    requires n <= |signals|
  {
    if n == 0 then [] else Text(signals, n - 1) + TextOf(OutOf(Responses, signals[n - 1]))
  }

  function TextOf(outs: seq<Out>): Bytes {
    if outs == [] then []
    else TextOf(outs[..|outs| - 1]) + if outs[|outs| - 1].Delta? then outs[|outs| - 1].text else []
  }

  /** The status of the header. */
  function StatusOf(signals: seq<Signal>, n: nat): int
    requires n <= |signals|
  {
    if n == 0 then 0 else if signals[n - 1].Opened? then signals[n - 1].status else StatusOf(signals, n - 1)
  }

  predicate SaysLength(signal: Signal) {
    signal.Arrived? && !signal.received.frame.comment && signal.received.parsed.Chunk? && signal.received.parsed.finish == "length"
  }

  /** Some chunk said that the output was cut at its limit. */
  function LengthSeen(signals: seq<Signal>, n: nat): bool
    requires n <= |signals|
  {
    n > 0 && (LengthSeen(signals, n - 1) || SaysLength(signals[n - 1]))
  }

  /** The last finish reason given. */
  function FinishOf(signals: seq<Signal>, n: nat): string
    requires n <= |signals|
  {
    if n == 0 then ""
    else
      var signal := signals[n - 1];
      if signal.Arrived? && !signal.received.frame.comment && signal.received.parsed.Chunk? && signal.received.parsed.finish != ""
      then signal.received.parsed.finish else FinishOf(signals, n - 1)
  }

  const NO_USAGE := Usage(0, 0, 0, 0)

  /** The last usage reported. */
  function UsageOf(signals: seq<Signal>, n: nat): Usage
    requires n <= |signals|
  {
    if n == 0 then NO_USAGE
    else
      var signal := signals[n - 1];
      if signal.Arrived? && !signal.received.frame.comment && signal.received.parsed.Chunk? && Reports(signal.received.parsed.usage)
      then signal.received.parsed.usage.value else UsageOf(signals, n - 1)
  }

  /** A usage report counts only with a positive total. */
  predicate Reports(usage: Option<Usage>) { usage.Some? && usage.value.total > 0 }

  predicate AllOk(writes: nat -> bool, n: nat) { forall i :: 0 <= i < n ==> writes(i) }

  /** [DONE] is the first signal that ends the stream, and the header came before it. */
  predicate Finishes(mode: Mode, signals: seq<Signal>, k: nat) {
    k < |signals| && Quiet(mode, signals, k) && IsDone(mode, signals[k]) && HeaderSeen(signals, k)
  }

  predicate IsTerminal(out: Out) { out.CompletedEvent? || out.FailureEvent? || out.ChatError? }

  /** Not one of the events that close a response. */
  predicate IsPlain(out: Out) { !out.TextDone? && !out.ItemDone? && !IsTerminal(out) }

  /** No terminal event and no failed write before the last one. */
  ghost predicate Disciplined(written: seq<Out>, writes: nat -> bool) {
    forall i :: 0 <= i < |written| - 1 ==> !IsTerminal(written[i]) && writes(i)
  }

  /** The writes went through signal `n - 1`, into what it calls for but no further. */
  ghost predicate PartOf(mode: Mode, signals: seq<Signal>, written: seq<Out>, n: nat) {
    && n <= |signals| && written <= Expected(mode, signals, n)
    && (n > 0 ==> Quiet(mode, signals, n - 1) && |Expected(mode, signals, n - 1)| < |written|)
  }

  /** The last write failed, and no other. */
  ghost predicate LastFailed(written: seq<Out>, writes: nat -> bool) {
    written != [] && AllOk(writes, |written| - 1) && !writes(|written| - 1)
  }

  // ----- The session -----------------------------------------------------------

  class Session {
    const mode: Mode
    const signals: seq<Signal>
    const writes: nat -> bool
    var at: nat
    var written: seq<Out>

    constructor (mode: Mode, signals: seq<Signal>, writes: nat -> bool)
      ensures this.mode == mode && this.signals == signals && this.writes == writes && at == 0 && written == []
    {
      this.mode, this.signals, this.writes, at, written := mode, signals, writes, 0, [];
    }

    /** All signals so far were passed on, and every write succeeded. */
    ghost predicate Going()
      reads this
    {
      at <= |signals| && Quiet(mode, signals, at) && written == Expected(mode, signals, at) && AllOk(writes, |written|)
    }

    /** A write has just failed, in the middle of what signal `n - 1` calls for. */
    ghost predicate Cut(n: nat)
      reads this
    {
      LastFailed(written, writes) && n > 0 && PartOf(mode, signals, written, n)
    }

    method Write(out: Out) returns (ok: bool)
      modifies this
      ensures written == old(written) + [out] && at == old(at) && ok == writes(|old(written)|)
    {
      ok := writes(|written|);
      written := written + [out];
    }

    /** Waits for the next result; heartbeats are written meanwhile, here and nowhere else. */
    method Next() returns (r: Result)
      requires Going()
      modifies this
      ensures old(at) <= at <= |signals| && Idle(signals, old(at), at)
      ensures r.WriteError? ==> old(at) < at && Cut(at)
      ensures !r.WriteError? ==>
                && Going()
                && (at == |signals| ==> r == Canceled)
                && (at < |signals| ==> !signals[at].Heartbeat? && signals[at] != Check(true) && r == ResultOf(signals[at]))
    {
      while at < |signals|
        invariant Going() && old(at) <= at && Idle(signals, old(at), at)
      {
        var signal := signals[at];
        if signal.Heartbeat? {
          var ok := Beat();
          if !ok {
            return WriteError;
          }
        } else if signal.Check? && signal.admitted {
          PassCheck();
        } else {
          return ResultOf(signal);
        }
      }
      return Canceled;
    }

    method PassCheck()
      requires Going() && at < |signals| && signals[at] == Check(true)
      modifies this
      ensures Going() && at == old(at) + 1
    {
      at := at + 1;
    }

    method Beat() returns (ok: bool)
      requires Going() && at < |signals| && signals[at].Heartbeat?
      modifies this
      ensures at == old(at) + 1
      ensures ok ==> Going()
      ensures !ok ==> Cut(at)
    {
      ok := Write(HeartbeatComment);
      at := at + 1;
    }
  }

  /** Only heartbeats and passed checks from `m` to `n`. */
  predicate Idle(signals: seq<Signal>, m: nat, n: nat)
    requires m <= n <= |signals|
  {
    forall i :: m <= i < n ==> signals[i].Heartbeat? || signals[i] == Check(true)
  }

  function ResultOf(signal: Signal): Result {
    match signal
    case Opened(status) => Header(status)
    case Arrived(f) => FrameResult(f)
    case Broken(error) => ReadError(error)
    case Exhausted => ReadError(END_OF_FILE)
    case Check(_) => AdmissionError
    case Heartbeat => WriteError
    case Cancelled => Canceled
  }

  lemma {:induction false} PlainOutputs(mode: Mode, signals: seq<Signal>, n: nat)
    requires n <= |signals|
    ensures forall i :: 0 <= i < |Expected(mode, signals, n)| ==> IsPlain(Expected(mode, signals, n)[i])
  {
    if n > 0 {
      PlainOutputs(mode, signals, n - 1);
    }
  }

  lemma {:induction false} TextOfAppend(a: seq<Out>, b: seq<Out>)
    ensures TextOf(a + b) == TextOf(a) + TextOf(b)
    decreases |b|
  {
    if b == [] {
      assert a + b == a;
    } else {
      var b' := b[..|b| - 1];
      assert (a + b)[..|a + b| - 1] == a + b';
      TextOfAppend(a, b');
    }
  }

  /** The text gathered is the text of the deltas written. */
  lemma {:induction false} TextIsWritten(signals: seq<Signal>, n: nat)
    requires n <= |signals|
    ensures TextOf(Expected(Responses, signals, n)) == Text(signals, n)
  {
    if n == 0 {
      assert [OpenComment][..0] == [];
      assert TextOf([OpenComment]) == TextOf([]) + [];
    } else {
      TextIsWritten(signals, n - 1);
      TextNext(signals, n - 1);
    }
  }

  lemma TextNext(signals: seq<Signal>, n: nat)
    requires n < |signals| && TextOf(Expected(Responses, signals, n)) == Text(signals, n)
    ensures TextOf(Expected(Responses, signals, n + 1)) == Text(signals, n + 1)
  {
    TextOfAppend(Expected(Responses, signals, n), OutOf(Responses, signals[n]));
  }

  // ----- The loop of the Responses bridge --------------------------------------

  datatype Stop = AtDone | AtError(error: StreamError) | AtWriteFailure | AtAdmission | AtCancel

  /** What the loop has gathered. */
  datatype Gathered = Gathered(header: bool, http: int, text: Bytes, finish: string, length: bool, usage: Usage)

  const NOTHING_YET := Gathered(false, 0, [], "", false, NO_USAGE)

  function GatheredAt(signals: seq<Signal>, n: nat): Gathered
    requires n <= |signals|
  {
    Gathered(HeaderSeen(signals, n), StatusOf(signals, n), Text(signals, n), FinishOf(signals, n), LengthSeen(signals, n), UsageOf(signals, n))
  }

  /** What the signal at `n`, or the end of the signals, makes of the stream. */
  function StopAt(mode: Mode, signals: seq<Signal>, n: nat): Stop
    requires n <= |signals|
  {
    if n == |signals| then AtCancel
    else
      match signals[n]
      case Check(_) => AtAdmission
      case Broken(error) => AtError(error)
      case Exhausted => AtError(END_OF_FILE)
      case Arrived(_) => if IsDone(mode, signals[n]) then AtDone else AtError(INVALID_EVENT)
      case _ => AtCancel
  }

  /** Why the loop stopped before the signal at `n`. */
  ghost predicate StopsAt(mode: Mode, signals: seq<Signal>, n: nat, stop: Stop) {
    n <= |signals| && Quiet(mode, signals, n) && (n < |signals| ==> !Continues(mode, signals[n])) && stop == StopAt(mode, signals, n)
  }

  predicate Ends(result: Result) { result.AdmissionError? || result.Canceled? || result.ReadError? }

  function StopOf(result: Result): Stop
    requires Ends(result)
  {
    match result
    case AdmissionError => AtAdmission
    case Canceled => AtCancel
    case ReadError(error) => AtError(error)
  }

  lemma EndsTheStream(mode: Mode, signals: seq<Signal>, n: nat, result: Result)
    requires n <= |signals| && Quiet(mode, signals, n) && Ends(result) && (n == |signals| ==> result == Canceled)
    requires n < |signals| ==> !signals[n].Heartbeat? && signals[n] != Check(true) && result == ResultOf(signals[n])
    ensures StopsAt(mode, signals, n, StopOf(result)) && (n < |signals| ==> !signals[n].Arrived?)
  {
  }

  /** Three writes in a row, given up at the first that fails. */
  method SendThree(s: Session, a: Out, b: Out, c: Out) returns (ok: bool, ghost m: nat)
    requires AllOk(s.writes, |s.written|)
    modifies s
    ensures s.at == old(s.at) && 1 <= m <= 3 && s.written == old(s.written) + [a, b, c][..m]
    ensures AllOk(s.writes, |s.written| - 1) && ok == s.writes(|s.written| - 1) && (ok ==> m == 3)
  {
    m := 1;
    ok := s.Write(a);
    if ok {
      m := 2;
      ok := s.Write(b);
    }
    if ok {
      m := 3;
      ok := s.Write(c);
    }
  }

  method SendHeader(s: Session) returns (ok: bool)
    requires s.mode == Responses && s.Going() && s.at < |s.signals| && s.signals[s.at].Opened?
    modifies s
    ensures s.at == old(s.at) + 1
    ensures ok ==> s.Going()
    ensures !ok ==> s.Cut(s.at)
  {
    ghost var m: nat;
    ok, m := SendThree(s, Created, ItemAdded, PartAdded);
    s.at := s.at + 1;
  }

  /** Writes the one thing that a frame calls for. */
  method PassOn(s: Session, out: Out) returns (ok: bool)
    requires s.Going() && s.at < |s.signals| && Continues(s.mode, s.signals[s.at]) && OutOf(s.mode, s.signals[s.at]) == [out]
    modifies s
    ensures s.at == old(s.at) + 1
    ensures ok ==> s.Going()
    ensures !ok ==> s.Cut(s.at)
  {
    ok := s.Write(out);
    s.at := s.at + 1;
  }

  method PumpResponses(s: Session) returns (stop: Stop, g: Gathered)
    requires s.mode == Responses && s.Going() && s.at == 0
    modifies s
    ensures s.at <= |s.signals| && g == GatheredAt(s.signals, s.at)
    ensures stop.AtWriteFailure? ==> s.Cut(s.at)
    ensures !stop.AtWriteFailure? ==> s.Going() && StopsAt(Responses, s.signals, s.at, stop)
  {
    g := NOTHING_YET;
    while true
      invariant s.Going() && g == GatheredAt(s.signals, s.at)
      decreases |s.signals| - s.at
    {
      ghost var from := s.at;
      var result := s.Next();
      GatheredSkips(s.signals, from, s.at);
      if result.WriteError? {
        return AtWriteFailure, g;
      }
      if Ends(result) {
        EndsTheStream(Responses, s.signals, s.at, result);
        return StopOf(result), g;
      } else if result.Header? {
        var ok;
        ok, g := TakeHeader(s, result.status, g);
        if !ok {
          return AtWriteFailure, g;
        }
      } else {
        var end;
        end, g := TakeFrame(s, result.received, g);
        if end.Some? {
          return end.value, g;
        }
      }
    }
  }

  method TakeHeader(s: Session, status: int, before: Gathered) returns (ok: bool, g: Gathered)
    requires s.mode == Responses && s.Going() && s.at < |s.signals| && s.signals[s.at] == Opened(status) && before == GatheredAt(s.signals, s.at)
    modifies s
    ensures s.at == old(s.at) + 1 && g == GatheredAt(s.signals, s.at)
    ensures ok ==> s.Going()
    ensures !ok ==> s.Cut(s.at)
  {
    NoText(s.signals, s.at);
    g := before.(header := true, http := status);
    ok := SendHeader(s);
  }

  method TakeFrame(s: Session, f: Received, before: Gathered) returns (stop: Option<Stop>, g: Gathered)
    requires s.mode == Responses && s.Going() && s.at < |s.signals| && s.signals[s.at] == Arrived(f) && before == GatheredAt(s.signals, s.at)
    modifies s
    ensures old(s.at) <= s.at <= |s.signals| && g == GatheredAt(s.signals, s.at)
    ensures stop.None? ==> s.Going() && s.at == old(s.at) + 1
    ensures stop == Some(AtWriteFailure) ==> s.Cut(s.at)
    ensures stop.Some? && stop != Some(AtWriteFailure) ==>
              s.Going() && s.at == old(s.at) && g == before && StopsAt(Responses, s.signals, s.at, stop.value)
  {
    g := before;
    if f.frame.comment {
      NoText(s.signals, s.at);
      var ok := PassOn(s, Forward(f.frame.raw));
      return if ok then None else Some(AtWriteFailure), g;
    }
    if f.parsed.DoneMark? {
      return Some(AtDone), g;
    }
    if f.parsed.Malformed? {
      return Some(AtError(INVALID_EVENT)), g;
    }
    var ok;
    ok, g := TakeChunk(s, f.parsed, g);
    return if ok then None else Some(AtWriteFailure), g;
  }

  /** A frame with nothing in it, or a chunk: usage, finish reason and text are kept, the delta is sent on. */
  method TakeChunk(s: Session, p: Parsed, before: Gathered) returns (ok: bool, g: Gathered)
    requires s.mode == Responses && s.Going() && s.at < |s.signals| && before == GatheredAt(s.signals, s.at)
    requires p.Blank? || p.Chunk?
    requires s.signals[s.at].Arrived? && !s.signals[s.at].received.frame.comment && s.signals[s.at].received.parsed == p
    modifies s
    ensures s.at == old(s.at) + 1 && g == GatheredAt(s.signals, s.at)
    ensures ok ==> s.Going()
    ensures !ok ==> s.Cut(s.at)
  {
    g, ok := before, true;
    ChunkGathered(s.signals, s.at);
    if p.Blank? {
      s.at := s.at + 1;
      return;
    }
    if Reports(p.usage) {
      g := g.(usage := p.usage.value);
    }
    if p.finish != "" {
      g := g.(finish := p.finish, length := g.length || p.finish == "length");
    }
    if p.delta != [] {
      g := g.(text := g.text + p.delta);
      ok := PassOn(s, Delta(p.delta));
    } else {
      s.at := s.at + 1;
    }
  }

  lemma ChunkGathered(signals: seq<Signal>, n: nat)
    requires n < |signals| && signals[n].Arrived? && !signals[n].received.frame.comment
    ensures var g, p := GatheredAt(signals, n), signals[n].received.parsed;
            GatheredAt(signals, n + 1) ==
            if p.Chunk? then
              Gathered(g.header, g.http, g.text + p.delta, if p.finish != "" then p.finish else g.finish, g.length || p.finish == "length",
                       if Reports(p.usage) then p.usage.value else g.usage)
            else g
  {
    var p := signals[n].received.parsed;
    assert TextOf([]) == [];
    if p.Chunk? && p.delta != [] {
      assert [Delta(p.delta)][..0] == [];
      assert TextOf([Delta(p.delta)]) == p.delta;
    }
  }

  lemma {:induction false} HeaderSkips(signals: seq<Signal>, m: nat, n: nat)
    requires m <= n <= |signals| && Idle(signals, m, n)
    ensures HeaderSeen(signals, n) == HeaderSeen(signals, m)
    decreases n
  {
    if m < n {
      HeaderSkips(signals, m, n - 1);
    }
  }

  lemma {:induction false} GatheredSkips(signals: seq<Signal>, m: nat, n: nat)
    requires m <= n <= |signals| && Idle(signals, m, n)
    ensures GatheredAt(signals, n) == GatheredAt(signals, m)
    decreases n
  {
    if m < n {
      GatheredSkips(signals, m, n - 1);
      NoText(signals, n - 1);
    }
  }

  /** Signals other than chunks and the header add nothing to what is gathered. */
  lemma NoText(signals: seq<Signal>, n: nat)
    requires n < |signals|
    requires !signals[n].Arrived? || signals[n].received.frame.comment
    ensures GatheredAt(signals, n + 1) ==
            if signals[n].Opened? then GatheredAt(signals, n).(header := true, http := signals[n].status) else GatheredAt(signals, n)
  {
    var outs := OutOf(Responses, signals[n]);
    assert TextOf([]) == [];
    if outs == [Created, ItemAdded, PartAdded] {
      assert outs[..2] == [Created, ItemAdded] && [Created, ItemAdded][..1] == [Created] && [Created][..0] == [];
      assert TextOf([Created]) == [];
      assert TextOf([Created, ItemAdded]) == [];
    } else if outs != [] {
      assert outs[..0] == [];
    }
    assert TextOf(outs) == [];
  }

  // ----- How a stream ends -----------------------------------------------------

  function Closing(text: Bytes, usage: Usage): seq<Out> { [TextDone(text), ItemDone(text), CompletedEvent(text, usage)] }

  function ErrorOf(stop: Stop): Option<StreamError> { if stop.AtError? then Some(stop.error) else None }

  /** The loop ended on its own before the upstream had answered. */
  predicate Unopened(stop: Stop, header: bool) { (stop.AtDone? || stop.AtError?) && !header }

  /** What is recorded if no write fails. */
  function ReportFor(mode: Mode, stop: Stop, header: bool, finish: string, ctx: Context): Report {
    if stop.AtWriteFailure? then WRITE_FAILED
    else if stop.AtCancel? then Terminal(Aborted, "client_canceled")
    else if stop.AtAdmission? then Terminal(Aborted, "memory_limit_exceeded")
    else
      var readErr := ErrorOf(stop);
      var canceled := ctx != Live || (readErr.Some? && readErr.value.canceled);
      var r := if !header then OpenFailure(readErr, ctx)
               else if mode == Chat then ChatTerminal(stop.AtDone?, readErr, canceled)
               else BridgeTerminal(stop.AtDone?, finish, readErr, canceled);
      if readErr.Some? && readErr.value.invalid && (mode == Chat || (header && !readErr.value.eof))
      then r.(code := "upstream_event_invalid") else r
  }

  /** What is still sent then. */
  function LastWords(mode: Mode, stop: Stop, g: Gathered, r: Report): seq<Out> {
    if r.status == Completed then if mode == Chat then [] else Closing(g.text, g.usage)
    else if r.status == Failed || stop.AtAdmission? then
      [if mode == Chat then ChatError(r.code) else FailureEvent(stop.AtDone? && g.header, g.text, r.code)]
    else []
  }

  /** Written by the time the loop stops at `n`; the frame that ends a chat stream is passed on before it is looked at. */
  function OutBy(mode: Mode, signals: seq<Signal>, n: nat): seq<Out>
    requires n <= |signals|
  {
    Expected(mode, signals, if mode == Chat && n < |signals| && signals[n].Arrived? then n + 1 else n)
  }

  function ReportAt(mode: Mode, signals: seq<Signal>, n: nat, ctx: Context): Report
    requires n <= |signals|
  {
    ReportFor(mode, StopAt(mode, signals, n), HeaderSeen(signals, n), FinishOf(signals, n), ctx)
  }

  function WordsAt(mode: Mode, signals: seq<Signal>, n: nat, ctx: Context): seq<Out>
    requires n <= |signals|
  {
    LastWords(mode, StopAt(mode, signals, n), GatheredAt(signals, n), ReportAt(mode, signals, n, ctx))
  }

  /** The first signal from `i` on that does not let the stream go on. */
  function EndFrom(mode: Mode, signals: seq<Signal>, i: nat): (n: nat)
    requires i <= |signals|
    ensures i <= n <= |signals| && (n < |signals| ==> !Continues(mode, signals[n]))
    ensures forall j :: i <= j < n ==> Continues(mode, signals[j])
    decreases |signals| - i
  {
    if i == |signals| || !Continues(mode, signals[i]) then i else EndFrom(mode, signals, i + 1)
  }

  function EndOf(mode: Mode, signals: seq<Signal>): nat { EndFrom(mode, signals, 0) }

  /** Everything a stream over these signals is to send, and what is to be recorded of it. */
  function Due(mode: Mode, signals: seq<Signal>, ctx: Context): seq<Out> {
    OutBy(mode, signals, EndOf(mode, signals)) + WordsAt(mode, signals, EndOf(mode, signals), ctx)
  }

  function Verdict(mode: Mode, signals: seq<Signal>, ctx: Context): Report { ReportAt(mode, signals, EndOf(mode, signals), ctx) }

  /**
   * What a stream leaves behind: all that was due and the verdict on it, or as
   * much of it as was written up to and with the first write that failed.
   */
  ghost predicate Delivers(mode: Mode, signals: seq<Signal>, writes: nat -> bool, ctx: Context, written: seq<Out>, r: Report) {
    && written <= Due(mode, signals, ctx)
    && if AllOk(writes, |written|) then written == Due(mode, signals, ctx) && r == Verdict(mode, signals, ctx)
       else LastFailed(written, writes) && r == WRITE_FAILED
  }

  lemma EndIsReached(mode: Mode, signals: seq<Signal>, n: nat)
    requires n <= |signals| && Quiet(mode, signals, n) && (n < |signals| ==> !Continues(mode, signals[n]))
    ensures EndOf(mode, signals) == n
  {
  }

  lemma {:induction false} ExpectedGrows(mode: Mode, signals: seq<Signal>, m: nat, n: nat)
    requires m <= n <= |signals|
    ensures Expected(mode, signals, m) <= Expected(mode, signals, n)
    decreases n
  {
    if m < n {
      ExpectedGrows(mode, signals, m, n - 1);
    }
  }

  lemma CutDelivers(mode: Mode, signals: seq<Signal>, writes: nat -> bool, ctx: Context, written: seq<Out>, n: nat)
    requires PartOf(mode, signals, written, n) && LastFailed(written, writes)
    ensures Delivers(mode, signals, writes, ctx, written, WRITE_FAILED)
  {
    var end := EndOf(mode, signals);
    assert n <= end + 1;
    ExpectedGrows(mode, signals, end, if end < |signals| then end + 1 else end);
    if n <= end {
      ExpectedGrows(mode, signals, n, end);
    }
    assert Expected(mode, signals, n) <= OutBy(mode, signals, end);
  }

  /** The stream stopped, and of its last words `m` were written. */
  lemma WordsDeliver(mode: Mode, signals: seq<Signal>, writes: nat -> bool, ctx: Context, n: nat, stop: Stop, m: nat, written: seq<Out>, r: Report)
    requires StopsAt(mode, signals, n, stop) && m <= |WordsAt(mode, signals, n, ctx)|
    requires written == OutBy(mode, signals, n) + WordsAt(mode, signals, n, ctx)[..m]
    requires if AllOk(writes, |written|) then m == |WordsAt(mode, signals, n, ctx)| && r == ReportAt(mode, signals, n, ctx)
             else LastFailed(written, writes) && r == WRITE_FAILED
    ensures Delivers(mode, signals, writes, ctx, written, r)
  {
    EndIsReached(mode, signals, n);
  }

  /** The HTTP status: that of the header, or of the error in its place. */
  function HttpFor(stop: Stop, header: bool, http: int, ctx: Context): int {
    if Unopened(stop, header) then OpenStatus(ErrorOf(stop), ctx) else http
  }

  /** Two more columns of the outcome: the HTTP status, and whether the output was cut at its limit. */
  datatype Columns = Columns(http: int, incomplete: bool)

  // ----- The end of a Responses stream -----------------------------------------

  /** The loop stopped, everything due by then was written, and this is what is left to say. */
  ghost predicate Stopped(s: Session, ctx: Context, stop: Stop, words: seq<Out>)
    reads s
  {
    && StopsAt(s.mode, s.signals, s.at, stop)
    && s.written == OutBy(s.mode, s.signals, s.at) && AllOk(s.writes, |s.written|)
    && words == WordsAt(s.mode, s.signals, s.at, ctx)
  }

  /** Nothing is left to say. */
  method SayNothing(s: Session, ctx: Context, ghost stop: Stop, report: Report) returns (r: Report)
    requires Stopped(s, ctx, stop, []) && report == ReportAt(s.mode, s.signals, s.at, ctx)
    ensures Delivers(s.mode, s.signals, s.writes, ctx, s.written, r)
  {
    r := report;
    assert WordsAt(s.mode, s.signals, s.at, ctx)[..0] == [];
    WordsDeliver(s.mode, s.signals, s.writes, ctx, s.at, stop, 0, s.written, r);
  }

  /** One event is. */
  method SayOne(s: Session, out: Out, ctx: Context, ghost stop: Stop, report: Report) returns (r: Report)
    requires Stopped(s, ctx, stop, [out]) && report == ReportAt(s.mode, s.signals, s.at, ctx)
    modifies s
    ensures s.at == old(s.at)
    ensures Delivers(s.mode, s.signals, s.writes, ctx, s.written, r)
  {
    var ok := s.Write(out);
    r := if ok then report else WRITE_FAILED;
    assert WordsAt(s.mode, s.signals, s.at, ctx)[..1] == [out];
    WordsDeliver(s.mode, s.signals, s.writes, ctx, s.at, stop, 1, s.written, r);
  }

  method SendClosing(s: Session, text: Bytes, usage: Usage, ctx: Context, ghost stop: Stop) returns (r: Report)
    requires Stopped(s, ctx, stop, Closing(text, usage)) && ReportAt(s.mode, s.signals, s.at, ctx) == Terminal(Completed, "")
    modifies s
    ensures s.at == old(s.at)
    ensures Delivers(s.mode, s.signals, s.writes, ctx, s.written, r)
  {
    ghost var m: nat;
    var ok;
    ok, m := SendThree(s, TextDone(text), ItemDone(text), CompletedEvent(text, usage));
    r := if ok then Terminal(Completed, "") else WRITE_FAILED;
    assert Closing(text, usage)[..3] == Closing(text, usage);
    WordsDeliver(s.mode, s.signals, s.writes, ctx, s.at, stop, m, s.written, r);
  }

  method FinishResponses(s: Session, stop: Stop, g: Gathered, ctx: Context) returns (r: Report, http: int)
    requires s.mode == Responses && s.Going() && StopsAt(Responses, s.signals, s.at, stop) && g == GatheredAt(s.signals, s.at)
    modifies s
    ensures s.at == old(s.at) && http == HttpFor(stop, g.header, g.http, ctx)
    ensures Delivers(Responses, s.signals, s.writes, ctx, s.written, r)
  {
    http := g.http;
    if stop.AtCancel? {
      r := SayNothing(s, ctx, stop, Terminal(Aborted, "client_canceled"));
      return;
    }
    if stop.AtAdmission? {
      r := Terminal(Aborted, "memory_limit_exceeded");
      r := SayOne(s, FailureEvent(false, g.text, r.code), ctx, stop, r);
      return;
    }
    var readErr := ErrorOf(stop);
    if !g.header {
      r := OpenFailure(readErr, ctx);
      http := OpenStatus(readErr, ctx);
      if r.status == Failed {
        r := SayOne(s, FailureEvent(false, g.text, r.code), ctx, stop, r);
      } else {
        r := SayNothing(s, ctx, stop, r);
      }
      return;
    }
    r := FinishOpened(s, stop, g, ctx);
  }

  /** The upstream had answered: the terminal outcome decides. */
  method FinishOpened(s: Session, stop: Stop, g: Gathered, ctx: Context) returns (r: Report)
    requires s.mode == Responses && s.Going() && StopsAt(Responses, s.signals, s.at, stop) && g == GatheredAt(s.signals, s.at)
    requires g.header && (stop.AtDone? || stop.AtError?)
    modifies s
    ensures s.at == old(s.at)
    ensures Delivers(Responses, s.signals, s.writes, ctx, s.written, r)
  {
    var readErr := ErrorOf(stop);
    r := BridgeTerminal(stop.AtDone?, g.finish, readErr, ctx != Live || (readErr.Some? && readErr.value.canceled));
    var incomplete := r == Terminal(Failed, "upstream_incomplete") && stop.AtDone?;
    if readErr.Some? && !readErr.value.eof && readErr.value.invalid {
      r := r.(code := "upstream_event_invalid");
    }
    if r.status == Completed {
      r := SendClosing(s, g.text, g.usage, ctx, stop);
    } else if r.status == Failed {
      r := SayOne(s, FailureEvent(incomplete, g.text, r.code), ctx, stop, r);
    } else {
      r := SayNothing(s, ctx, stop, r);
    }
  }

  /**
   * The whole Responses stream, with everything that is recorded of it whichever
   * way it ends; `s.at` signals were taken in, and `stop` says why no more.
   */
  method ResponsesStream(s: Session, ctx: Context, leaseInput: int, prices: Pricing.Prices)
    returns (r: Report, charge: Charge, columns: Columns, ghost stop: Stop)
    requires s.mode == Responses && s.at == 0 && s.written == []
    modifies s
    ensures Delivers(Responses, s.signals, s.writes, ctx, s.written, r)
    ensures if stop.AtWriteFailure? then PartOf(Responses, s.signals, s.written, s.at) && !AllOk(s.writes, |s.written|)
            else StopsAt(Responses, s.signals, s.at, stop)
    ensures s.at <= |s.signals| && charge == ChargeFor(UsageOf(s.signals, s.at), |Text(s.signals, s.at)|, leaseInput, prices)
    ensures columns == Columns(HttpFor(stop, HeaderSeen(s.signals, s.at), StatusOf(s.signals, s.at), ctx), LengthSeen(s.signals, s.at))
  {
    r := WRITE_FAILED;
    stop := AtWriteFailure;
    var g, http := NOTHING_YET, 0;
    var ok := s.Write(OpenComment);
    if ok {
      var end;
      end, g := PumpResponses(s);
      stop, http := end, g.http;
      if !end.AtWriteFailure? {
        r, http := FinishResponses(s, end, g, ctx);
      }
    }
    if stop.AtWriteFailure? {
      CutDelivers(Responses, s.signals, s.writes, ctx, s.written, s.at);
    }
    charge := ChargeUsage(g.usage, |g.text|, leaseInput, prices);
    columns := Columns(http, g.length);
  }

  // ----- The chat stream -------------------------------------------------------

  /** Output characters and the last usage reported, as a chat stream counts them. */
  datatype Count = Count(characters: nat, finish: string, usage: Usage, http: int)

  const NOTHING_COUNTED := Count(0, "", NO_USAGE, 0)

  function CountedAt(signals: seq<Signal>, n: nat): Count
    requires n <= |signals|
  {
    if n == 0 then NOTHING_COUNTED
    else
      var before, signal := CountedAt(signals, n - 1), signals[n - 1];
      if signal.Opened? then before.(http := signal.status)
      else if !signal.Arrived? then before
      else Counting(before, signal.received.event)
  }

  function Counting(before: Count, event: ChatEvent): Count {
    Count(before.characters + event.characters, if event.finish != "" then event.finish else before.finish,
          if event.usage.total > 0 then event.usage else before.usage, before.http)
  }

  lemma {:induction false} CountSkips(signals: seq<Signal>, m: nat, n: nat)
    requires m <= n <= |signals| && Idle(signals, m, n)
    ensures CountedAt(signals, n) == CountedAt(signals, m)
    decreases n
  {
    if m < n {
      CountSkips(signals, m, n - 1);
    }
  }

  /** How the chat loop leaves the session: `taken` signals are counted, not the one whose write failed, and the frame that ended the stream is written. */
  ghost predicate ChatStopped(s: Session, stop: Stop, header: bool, count: Count, taken: nat)
    reads s
  {
    && s.at <= |s.signals| && taken <= |s.signals| && count == CountedAt(s.signals, taken)
    && (stop.AtWriteFailure? ==> s.Cut(taken + 1))
    && (!stop.AtWriteFailure? ==>
          && StopsAt(Chat, s.signals, s.at, stop) && header == HeaderSeen(s.signals, s.at)
          && taken == (if stop.AtDone? then s.at + 1 else s.at)
          && s.written == OutBy(Chat, s.signals, s.at) && AllOk(s.writes, |s.written|))
  }

  ghost predicate ChatGoing(s: Session, header: bool, count: Count)
    reads s
  {
    s.mode == Chat && s.Going() && header == HeaderSeen(s.signals, s.at) && count == CountedAt(s.signals, s.at)
  }

  method PumpChat(s: Session) returns (stop: Stop, header: bool, count: Count, ghost taken: nat)
    requires s.mode == Chat && s.Going() && s.at == 0
    modifies s
    ensures ChatStopped(s, stop, header, count, taken)
  {
    header, count := false, NOTHING_COUNTED;
    while true
      invariant ChatGoing(s, header, count)
      decreases |s.signals| - s.at
    {
      var result := NextForChat(s, header, count);
      if result.WriteError? {
        return AtWriteFailure, header, count, s.at - 1;
      }
      if Ends(result) {
        return StopOf(result), header, count, s.at;
      } else if result.Header? {
        NoteHeader(s, header, count);
        header, count := true, count.(http := result.status);
      } else {
        var end;
        end, count, taken := ForwardFrame(s, result.received, header, count);
        if end.Some? {
          return end.value, header, count, taken;
        }
      }
    }
  }

  /** `Next`, with nothing counted while waiting. */
  method NextForChat(s: Session, ghost header: bool, ghost count: Count) returns (r: Result)
    requires ChatGoing(s, header, count)
    modifies s
    ensures old(s.at) <= s.at
    ensures r.WriteError? ==> s.at > 0 && ChatStopped(s, AtWriteFailure, header, count, s.at - 1)
    ensures Ends(r) ==> ChatStopped(s, StopOf(r), header, count, s.at)
    ensures !r.WriteError? && !Ends(r) ==> ChatGoing(s, header, count) && s.at < |s.signals| && r == ResultOf(s.signals[s.at])
  {
    ghost var from := s.at;
    r := s.Next();
    HeaderSkips(s.signals, from, s.at);
    CountSkips(s.signals, from, s.at);
    if r.WriteError? {
      CountSkips(s.signals, from, s.at - 1);
    }
    if Ends(r) {
      EndsTheStream(Chat, s.signals, s.at, r);
    }
  }

  method NoteHeader(s: Session, ghost header: bool, ghost count: Count)
    requires ChatGoing(s, header, count) && s.at < |s.signals| && s.signals[s.at].Opened?
    modifies s
    ensures ChatGoing(s, true, count.(http := s.signals[old(s.at)].status)) && s.at == old(s.at) + 1
  {
    s.at := s.at + 1;
  }

  method ForwardFrame(s: Session, f: Received, ghost header: bool, before: Count) returns (stop: Option<Stop>, count: Count, ghost taken: nat)
    requires ChatGoing(s, header, before) && s.at < |s.signals| && s.signals[s.at] == Arrived(f)
    modifies s
    ensures stop.None? ==> ChatGoing(s, header, count) && s.at == old(s.at) + 1
    ensures stop.Some? ==> ChatStopped(s, stop.value, header, count, taken)
  {
    count, taken := before, s.at;
    var ok := s.Write(Forward(f.frame.raw));
    if !ok {
      return Some(AtWriteFailure), count, taken;
    }
    if f.event.invalid {
      return Some(AtError(INVALID_EVENT)), count, taken;
    }
    count, taken := count.(characters := count.characters + f.event.characters), taken + 1;
    if f.event.finish != "" {
      count := count.(finish := f.event.finish);
    }
    if f.event.usage.total > 0 {
      count := count.(usage := f.event.usage);
    }
    if f.parsed.DoneMark? {
      return Some(AtDone), count, taken;
    }
    s.at := s.at + 1;
    return None, count, taken;
  }

  method FinishChat(s: Session, stop: Stop, header: bool, http: int, ctx: Context) returns (r: Report, status: int)
    requires s.mode == Chat && StopsAt(Chat, s.signals, s.at, stop) && header == HeaderSeen(s.signals, s.at)
    requires s.written == OutBy(Chat, s.signals, s.at) && AllOk(s.writes, |s.written|)
    modifies s
    ensures s.at == old(s.at) && status == HttpFor(stop, header, http, ctx)
    ensures Delivers(Chat, s.signals, s.writes, ctx, s.written, r)
  {
    status := http;
    if stop.AtCancel? {
      r := SayNothing(s, ctx, stop, Terminal(Aborted, "client_canceled"));
      return;
    }
    if stop.AtAdmission? {
      r := Terminal(Aborted, "memory_limit_exceeded");
      r := SayOne(s, ChatError(r.code), ctx, stop, r);
      return;
    }
    var readErr := ErrorOf(stop);
    if header {
      r := ChatTerminal(stop.AtDone?, readErr, ctx != Live || (readErr.Some? && readErr.value.canceled));
    } else {
      r := OpenFailure(readErr, ctx);
      status := OpenStatus(readErr, ctx);
    }
    if readErr.Some? && readErr.value.invalid {
      r := r.(code := "upstream_event_invalid");
    }
    if r.status == Failed {
      r := SayOne(s, ChatError(r.code), ctx, stop, r);
    } else {
      r := SayNothing(s, ctx, stop, r);
    }
  }

  /** All of the stream but what is charged for it. */
  method RunChat(s: Session, ctx: Context) returns (r: Report, count: Count, http: int, ghost taken: nat, ghost stop: Stop)
    requires s.mode == Chat && s.at == 0 && s.written == []
    modifies s
    ensures Delivers(Chat, s.signals, s.writes, ctx, s.written, r)
    ensures taken <= |s.signals| && s.at <= |s.signals| && count == CountedAt(s.signals, taken)
    ensures ChatStops(s.signals, s.writes, s.written, s.at, taken, stop)
    ensures http == HttpFor(stop, HeaderSeen(s.signals, s.at), count.http, ctx)
  {
    r, taken := WRITE_FAILED, 0;
    stop := AtWriteFailure;
    count, http := NOTHING_COUNTED, 0;
    var ok := s.Write(OpenComment);
    if ok {
      var end, header;
      end, header, count, taken := PumpChat(s);
      stop, http := end, count.http;
      if end.AtWriteFailure? {
        CutDelivers(Chat, s.signals, s.writes, ctx, s.written, taken + 1);
      } else {
        r, http := FinishChat(s, end, header, count.http, ctx);
      }
    } else {
      CutDelivers(Chat, s.signals, s.writes, ctx, s.written, 0);
    }
  }

  /** Where a chat stream stopped, and how many signals it has counted: the one that ends it only if it is [DONE], and not one whose write failed. */
  ghost predicate ChatStops(signals: seq<Signal>, writes: nat -> bool, written: seq<Out>, at: nat, taken: nat, stop: Stop) {
    if stop.AtWriteFailure? then
      && !AllOk(writes, |written|)
      && PartOf(Chat, signals, written, if |written| == 1 then 0 else taken + 1) && (|written| == 1 ==> taken == 0)
    else StopsAt(Chat, signals, at, stop) && taken == if stop.AtDone? then at + 1 else at
  }

  /** The whole chat stream, with everything that is recorded of it; `taken` signals were counted, and `stop` says why no more. */
  method ChatStream(s: Session, ctx: Context, leaseInput: int, prices: Pricing.Prices)
    returns (r: Report, charge: Charge, columns: Columns, ghost taken: nat, ghost stop: Stop)
    requires s.mode == Chat && s.at == 0 && s.written == []
    modifies s
    ensures Delivers(Chat, s.signals, s.writes, ctx, s.written, r)
    ensures taken <= |s.signals| && s.at <= |s.signals| && ChatStops(s.signals, s.writes, s.written, s.at, taken, stop)
    ensures charge == ChargeFor(CountedAt(s.signals, taken).usage, CountedAt(s.signals, taken).characters, leaseInput, prices)
    ensures columns == Columns(HttpFor(stop, HeaderSeen(s.signals, s.at), CountedAt(s.signals, taken).http, ctx),
                               r.status == Completed && CountedAt(s.signals, taken).finish == "length")
  {
    var count, http;
    r, count, http, taken, stop := RunChat(s, ctx);
    charge := ChargeUsage(count.usage, count.characters, leaseInput, prices);
    columns := Columns(http, count.finish == "length" && r.status == Completed);
  }

  // ----- What the outcome says -------------------------------------------------

  /** [DONE] came in time, not cut short, and the request is still wanted. */
  ghost predicate CleanRun(mode: Mode, signals: seq<Signal>, ctx: Context) {
    ctx == Live && exists k: nat :: Finishes(mode, signals, k) && (mode == Chat || FinishOf(signals, k) != "length")
  }

  /** Every closing event carries the text of the deltas before it. */
  ghost predicate TextsAgree(written: seq<Out>) {
    forall i :: 0 <= i < |written| ==>
      IsPlain(written[i]) || written[i].ChatError? || written[i].text == TextOf(written[..i])
  }

  /** [DONE] was signal `k`, and everything due before it and the three closing events were written. */
  ghost predicate ClosedAfter(signals: seq<Signal>, k: nat, written: seq<Out>) {
    Finishes(Responses, signals, k) && written == Expected(Responses, signals, k) + Closing(Text(signals, k), UsageOf(signals, k))
  }

  /** What a Responses stream leaves behind. */
  ghost predicate ResponsesOutcome(signals: seq<Signal>, writes: nat -> bool, ctx: Context, written: seq<Out>, r: Report) {
    && Disciplined(written, writes)
    && TextsAgree(written)
    && (r.status == Completed <==> CleanRun(Responses, signals, ctx) && AllOk(writes, |written|))
    && (r.status == Completed ==> exists k: nat :: ClosedAfter(signals, k, written))
    && (r.status == Failed ==> written != [] && written[|written| - 1].FailureEvent? && written[|written| - 1].code == r.code)
    && (!AllOk(writes, |written|) ==> r == WRITE_FAILED)
  }

  /** [DONE] was signal `k`, and everything due up to and with it was written, nothing else. */
  ghost predicate RelayedThrough(signals: seq<Signal>, k: nat, written: seq<Out>) {
    Finishes(Chat, signals, k) && written == Expected(Chat, signals, k + 1)
  }

  /** What a chat stream leaves behind. */
  ghost predicate ChatOutcome(signals: seq<Signal>, writes: nat -> bool, ctx: Context, written: seq<Out>, r: Report) {
    && Disciplined(written, writes)
    && (r.status == Completed <==> CleanRun(Chat, signals, ctx) && AllOk(writes, |written|))
    && (r.status == Completed ==> exists k: nat :: RelayedThrough(signals, k, written))
    && (r.status == Failed ==> written != [] && written[|written| - 1] == ChatError(r.code))
    && (!AllOk(writes, |written|) ==> r == WRITE_FAILED)
  }

  /** How far the loop got decides whether the run is clean. */
  lemma CleanMeans(mode: Mode, signals: seq<Signal>, ctx: Context, n: nat, stop: Stop)
    requires StopsAt(mode, signals, n, stop)
    ensures CleanRun(mode, signals, ctx) <==>
            ctx == Live && stop.AtDone? && HeaderSeen(signals, n) && (mode == Chat || FinishOf(signals, n) != "length")
  {
    if exists k: nat :: Finishes(mode, signals, k) {
      var k: nat :| Finishes(mode, signals, k);
      assert !Continues(mode, signals[k]);
    }
    if stop.AtDone? && HeaderSeen(signals, n) {
      assert Finishes(mode, signals, n);
    }
  }

  /** Without a failed write, "completed" is recorded exactly of the clean runs. */
  lemma VerdictIsClean(mode: Mode, signals: seq<Signal>, ctx: Context) returns (n: nat, stop: Stop)
    ensures n == EndOf(mode, signals) && StopsAt(mode, signals, n, stop)
    ensures Verdict(mode, signals, ctx).status == Completed <==> CleanRun(mode, signals, ctx)
    ensures Verdict(mode, signals, ctx).status == Completed ==> stop.AtDone? && Finishes(mode, signals, n)
  {
    n := EndOf(mode, signals);
    stop := StopAt(mode, signals, n);
    CleanMeans(mode, signals, ctx, n, stop);
  }

  /** Closing events after the deltas, the last one possibly terminal. */
  lemma ClosesWell(signals: seq<Signal>, n: nat, written: seq<Out>, tail: seq<Out>)
    requires n <= |signals| && written == Expected(Responses, signals, n) + tail
    requires forall i :: 0 <= i < |tail| ==> !IsPlain(tail[i]) && !tail[i].ChatError? && tail[i].text == Text(signals, n)
    ensures TextsAgree(written)
  {
    var front := Expected(Responses, signals, n);
    PlainOutputs(Responses, signals, n);
    TextIsWritten(signals, n);
    forall i | |front| <= i < |written|
      ensures written[i].text == TextOf(written[..i])
    {
      var k := i - |front|;
      assert written[..i] == front + tail[..k];
      TextOfAppend(front, tail[..k]);
      ClosingHasNoText(tail[..k]);
    }
  }

  lemma {:induction false} ClosingHasNoText(outs: seq<Out>)
    requires forall i :: 0 <= i < |outs| ==> !IsPlain(outs[i])
    ensures TextOf(outs) == []
  {
    if outs != [] {
      ClosingHasNoText(outs[..|outs| - 1]);
    }
  }

  lemma PrefixAgrees(written: seq<Out>, all: seq<Out>)
    requires TextsAgree(all) && written <= all
    ensures TextsAgree(written)
  {
    forall i | 0 <= i < |written|
      ensures IsPlain(written[i]) || written[i].ChatError? || written[i].text == TextOf(written[..i])
    {
      assert written[i] == all[i] && written[..i] == all[..i];
    }
  }

  /** Only the very last thing due can be terminal. */
  lemma DueIsPlain(mode: Mode, signals: seq<Signal>, ctx: Context)
    ensures var due := Due(mode, signals, ctx); forall i :: 0 <= i < |due| - 1 ==> !IsTerminal(due[i])
  {
    var n := EndOf(mode, signals);
    PlainOutputs(mode, signals, if mode == Chat && n < |signals| && signals[n].Arrived? then n + 1 else n);
  }

  /** Everything that holds of an outcome, of a chat stream ... */
  lemma ChatOutcomeFollows(signals: seq<Signal>, writes: nat -> bool, ctx: Context, written: seq<Out>, r: Report)
    requires Delivers(Chat, signals, writes, ctx, written, r)
    ensures ChatOutcome(signals, writes, ctx, written, r)
  {
    var n, stop := VerdictIsClean(Chat, signals, ctx);
    DueIsPlain(Chat, signals, ctx);
    if r.status == Completed {
      assert RelayedThrough(signals, n, written);
    }
  }

  /** ... and of a Responses stream. */
  lemma ResponsesOutcomeFollows(signals: seq<Signal>, writes: nat -> bool, ctx: Context, written: seq<Out>, r: Report)
    requires Delivers(Responses, signals, writes, ctx, written, r)
    ensures ResponsesOutcome(signals, writes, ctx, written, r)
  {
    var n, stop := VerdictIsClean(Responses, signals, ctx);
    DueIsPlain(Responses, signals, ctx);
    ClosesWell(signals, n, Due(Responses, signals, ctx), WordsAt(Responses, signals, n, ctx));
    PrefixAgrees(written, Due(Responses, signals, ctx));
    if r.status == Completed {
      assert ClosedAfter(signals, n, written);
    }
  }

  // ----- Frames in, frames out -------------------------------------------------

  /** The frames among the first `n` writes. */
  function Forwarded(outs: seq<Out>, n: nat): seq<Bytes>
    requires n <= |outs|
  {
    if n == 0 then [] else Forwarded(outs, n - 1) + if outs[n - 1].Forward? then [outs[n - 1].raw] else []
  }

  /** The raw frames received among the first `n` signals. */
  function RawFrames(signals: seq<Signal>, n: nat): seq<Bytes>
    requires n <= |signals|
  {
    if n == 0 then []
    else RawFrames(signals, n - 1) + if signals[n - 1].Arrived? then [signals[n - 1].received.frame.raw] else []
  }

  lemma {:induction false} ForwardedPrefix(a: seq<Out>, b: seq<Out>, n: nat)
    requires n <= |a|
    ensures Forwarded(a + b, n) == Forwarded(a, n)
  {
    if n > 0 {
      ForwardedPrefix(a, b, n - 1);
    }
  }

  lemma ForwardsOne(before: seq<Out>, signal: Signal)
    ensures var after := before + OutOf(Chat, signal);
            Forwarded(after, |after|) == Forwarded(before, |before|) + if signal.Arrived? then [signal.received.frame.raw] else []
  {
    ForwardedPrefix(before, OutOf(Chat, signal), |before|);
  }

  /** A chat stream passes on every received frame, unchanged and in order. */
  lemma {:induction false} ForwardsEveryFrame(signals: seq<Signal>, n: nat)
    requires n <= |signals|
    ensures Forwarded(Expected(Chat, signals, n), |Expected(Chat, signals, n)|) == RawFrames(signals, n)
  {
    if n > 0 {
      ForwardsEveryFrame(signals, n - 1);
      ForwardsOne(Expected(Chat, signals, n - 1), signals[n - 1]);
    }
  }

  /** A chat stream recorded as completed has sent every frame through [DONE], in order. */
  lemma CompletedChatSentEverything(signals: seq<Signal>, writes: nat -> bool, ctx: Context, written: seq<Out>, r: Report) returns (k: nat)
    requires ChatOutcome(signals, writes, ctx, written, r) && r.status == Completed
    ensures RelayedThrough(signals, k, written) && Forwarded(written, |written|) == RawFrames(signals, k + 1) && AllOk(writes, |written|)
  {
    k :| RelayedThrough(signals, k, written);
    ForwardsEveryFrame(signals, k + 1);
  }
}
