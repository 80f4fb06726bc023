/**
 * The body that serves a translated native stream: whatever buffers its caller
 * brings, it delivers the concatenation of the translations, and what it
 * delivers reads back frame by frame.
 */
module NativeStream {
  import opened Base
  import opened Sse
  import opened SseReader
  import opened NativeTranslate

  datatype End = CleanEnd | UpstreamFailure(detail: string) | SourceFailure(error: ReadError)

  /** Bytes still to be delivered and how they end. */
  datatype Flow = Flow(bytes: Bytes, end: End)

  function Emit(frame: Frame, e: Emission): Bytes {
    match e
    case Nothing => []
    case Same => frame.raw
    case Payload(p) => Event(p)
  }

  /** All that a source with these bytes amounts to. */
  function Output(codec: Codec, protocol: Protocol, st: State, s: Bytes, final: Ending, max: nat): Flow
    decreases |s|
  {
    match Split(s, final, max)
    case Stop(error) => if error == EOF then Flow(Event(DONE), CleanEnd) else Flow([], SourceFailure(error))
    case Got(frame, rest) =>
      var t := Translate(codec, protocol, st, frame);
      if t.failure.Some? then Flow(Emit(frame, t.emission), UpstreamFailure(t.failure.value))
      else
        var later := Output(codec, protocol, t.next, rest, final, max);
        Flow(Emit(frame, t.emission) + later.bytes, later.end)
  }

  datatype ReadResult = Data(bytes: Bytes) | Finished(end: End)

  class NativeBody {
    const source: SSEReader
    const codec: Codec
    const protocol: Protocol
    var pending: Bytes
    var done: bool
    var st: State
    var failure: Option<string>

    ghost predicate Valid()
      reads this, source
    {
      source.Valid() && !(done && failure.Some?)
    }

    /** What follows the pending bytes. */
    function Later(): Flow
      requires source.Valid()
      reads this`done, this`failure, this`st, source
    {
      if done then Flow([], CleanEnd)
      else if failure.Some? then Flow([], UpstreamFailure(failure.value))
      else Output(codec, protocol, st, source.Rest(), source.final, source.max)
    }

    function Remaining(): Flow
      requires Valid()
      reads this, source
    {
      Flow(pending + Later().bytes, Later().end)
    }

    constructor (source: SSEReader, codec: Codec, protocol: Protocol)
      requires source.Valid()
      ensures Valid() && this.source == source && this.codec == codec && this.protocol == protocol
      ensures Remaining() == Output(codec, protocol, START, source.Rest(), source.final, source.max)
    {
      this.source, this.codec, this.protocol := source, codec, protocol;
      pending, done, st, failure := [], false, START, None;
    }

    /** `translate`: the emission for a frame; tool tables, counters and the failure are updated. */
    method TranslateFrame(frame: Frame) returns (bytes: Bytes)
      modifies this
      ensures pending == old(pending) && done == old(done)
      ensures var t := Translate(codec, protocol, old(st), frame);
              bytes == Emit(frame, t.emission) && st == t.next && failure == if t.failure.Some? then t.failure else old(failure)
    {
      if frame.data == [] || protocol == OpenAI {
        return frame.raw;
      }
      var t := Translation(Nothing, st, None);
      if protocol == Anthropic {
        var event := codec.anthropic(frame.data);
        if event.Some? {
          t := TranslateAnthropic(codec, st, event.value);
        }
      } else {
        var event := codec.gemini(frame.data);
        if event.Some? {
          if event.value.GeminiFailure? {
            t := TranslateGemini(codec, st, event.value);
          } else {
            var g := GatherParts(st, Truncated(event.value.index), event.value.parts);
            t := FinishGemini(codec, g, event.value.finishReason, event.value.usage);
          }
        }
      }
      st := t.next;
      if t.failure.Some? {
        failure := t.failure;
      }
      return Emit(frame, t.emission);
    }

    /** One round of the read loop: the next frame is translated, or the end is found. */
    method Fill() returns (stop: Option<End>)
      requires Valid() && pending == [] && !done && failure.None?
      modifies this, source
      ensures Valid()
      ensures stop.None? ==> Remaining() == old(Remaining()) && (done || |source.Rest()| < |old(source.Rest())|)
      ensures stop.Some? ==> old(Remaining()) == Flow([], stop.value)
    {
      ghost var rest := source.Rest();
      var next := source.Next();
      if next.NoFrame? {
        if next.error != EOF {
          return Some(SourceFailure(next.error));
        }
        pending := Event(DONE);
        done := true;
        return None;
      }
      OutputGot(codec, protocol, st, rest, source.final, source.max);
      pending := TranslateFrame(next.frame);
      return None;
    }

    method Copy(size: nat) returns (bytes: Bytes)
      requires Valid() && pending != []
      modifies this`pending
      ensures Valid() && |bytes| <= size && (size > 0 ==> |bytes| > 0)
      ensures old(Remaining()) == Flow(bytes + Remaining().bytes, Remaining().end)
    {
      var n := if size < |pending| then size else |pending|;
      ghost var later, before := Later().bytes, pending;
      bytes := pending[..n];
      pending := pending[n..];
      CutAt(before, n, later);
    }

    /**
     * At most `size` bytes of what remains, at least one if there are any and
     * there is room; the end is reported only once all bytes are delivered.
     */
    method Read(size: nat) returns (r: ReadResult)
      requires Valid()
      modifies this, source
      ensures Valid()
      ensures match r
              case Data(bytes) =>
                && |bytes| <= size && (size > 0 ==> |bytes| > 0)
                && old(Remaining()) == Flow(bytes + Remaining().bytes, Remaining().end)
              case Finished(end) => old(Remaining()) == Flow([], end)
    {
      while pending == [] && !done
        invariant Valid() && Remaining() == old(Remaining())
        decreases !done, |source.Rest()|
      {
        if failure.Some? {
          return Finished(UpstreamFailure(failure.value));
        }
        var stop := Fill();
        if stop.Some? {
          return Finished(stop.value);
        }
      }
      if pending == [] {
        return Finished(CleanEnd);
      }
      var bytes := Copy(size);
      return Data(bytes);
    }
  }

  lemma OutputGot(codec: Codec, protocol: Protocol, st: State, s: Bytes, final: Ending, max: nat)
    requires Split(s, final, max).Got?
    ensures var step := Split(s, final, max);
            var t := Translate(codec, protocol, st, step.frame);
            var later := Output(codec, protocol, t.next, step.rest, final, max);
            && |step.rest| < |s|
            && Output(codec, protocol, st, s, final, max) ==
               if t.failure.Some? then Flow(Emit(step.frame, t.emission), UpstreamFailure(t.failure.value))
               else Flow(Emit(step.frame, t.emission) + later.bytes, later.end)
  {
  }

  /** Reading to the end with buffers of any sizes delivers it all, and then how it ended. */
  method Drain(body: NativeBody, sizes: nat -> nat) returns (bytes: Bytes, end: End)
    requires body.Valid() && forall i :: sizes(i) > 0
    modifies body, body.source
    ensures Flow(bytes, end) == old(body.Remaining())
  {
    bytes := [];
    var i := 0;
    ghost var all := body.Remaining();
    ghost var left := all;
    while true
      invariant body.Valid() && left == body.Remaining()
      invariant all.bytes == bytes + left.bytes && all.end == left.end
      decreases |left.bytes|
    {
      var r := body.Read(sizes(i));
      if r.Finished? {
        return bytes, r.end;
      }
      left := body.Remaining();
      Associate(bytes, r.bytes, left.bytes);
      bytes := bytes + r.bytes;
      i := i + 1;
    }
  }

  lemma CutAt(a: Bytes, n: nat, c: Bytes)
    requires n <= |a|
    ensures a + c == a[..n] + (a[n..] + c)
  {
  }

  // ----- How the output ends ---------------------------------------------------

  /** The output is `front` and then `last`. */
  predicate EndsWith(bytes: Bytes, last: Bytes) {
    |last| <= |bytes| && bytes[|bytes| - |last|..] == last
  }

  lemma EndsWithMore(front: Bytes, bytes: Bytes, last: Bytes)
    requires EndsWith(bytes, last)
    ensures EndsWith(front + bytes, last)
  {
    assert (front + bytes)[|front + bytes| - |last|..] == bytes[|bytes| - |last|..];
  }

  /** The event that an end puts last, if it puts one. */
  function Farewell(codec: Codec, end: End): Bytes {
    match end
    case CleanEnd => Event(DONE)
    case UpstreamFailure(detail) => Event(codec.encode(ErrorChunk(detail)))
    case SourceFailure(_) => []
  }

  /** A clean end appends [DONE]; an error event is the last thing sent. */
  lemma {:induction false} OutputEnds(codec: Codec, protocol: Protocol, st: State, s: Bytes, final: Ending, max: nat)
    ensures var o := Output(codec, protocol, st, s, final, max); EndsWith(o.bytes, Farewell(codec, o.end))
    decreases |s|
  {
    var step := Split(s, final, max);
    if step.Got? {
      OutputGot(codec, protocol, st, s, final, max);
      var t := Translate(codec, protocol, st, step.frame);
      if t.failure.None? {
        OutputEnds(codec, protocol, t.next, step.rest, final, max);
        var later := Output(codec, protocol, t.next, step.rest, final, max);
        EndsWithMore(Emit(step.frame, t.emission), later.bytes, Farewell(codec, later.end));
      } else {
        FailureIsSent(codec, protocol, st, step.frame);
      }
    }
  }

  lemma FailureIsSent(codec: Codec, protocol: Protocol, st: State, frame: Frame)
    requires Translate(codec, protocol, st, frame).failure.Some?
    ensures var t := Translate(codec, protocol, st, frame);
            Emit(frame, t.emission) == Event(codec.encode(ErrorChunk(t.failure.value)))
  {
  }

  /** The error that a frame carries, whatever the translator has seen before. */
  function ErrorIn(codec: Codec, protocol: Protocol, frame: Frame): Option<string> {
    if frame.data == [] || protocol == OpenAI then None
    else if protocol == Anthropic then
      match codec.anthropic(frame.data)
      case Some(Failure(detail)) => Some(detail)
      case _ => None
    else
      match codec.gemini(frame.data)
      case Some(GeminiFailure(error)) => Some(error)
      case _ => None
  }

  function FirstError(codec: Codec, protocol: Protocol, frames: seq<Frame>): Option<string> {
    if frames == [] then None
    else if ErrorIn(codec, protocol, frames[0]).Some? then ErrorIn(codec, protocol, frames[0])
    else FirstError(codec, protocol, frames[1..])
  }

  lemma FailureIsDecoded(codec: Codec, protocol: Protocol, st: State, frame: Frame)
    ensures Translate(codec, protocol, st, frame).failure == ErrorIn(codec, protocol, frame)
  {
  }

  function EndFor(error: Option<string>, last: ReadError): End {
    if error.Some? then UpstreamFailure(error.value) else if last == EOF then CleanEnd else SourceFailure(last)
  }

  /**
   * The end is decided by what the reader finds: the first frame that carries an
   * error makes it the terminal error, and without one it is the reader's. So
   * the stream ends well exactly if the source does and no frame carries an error.
   */
  lemma {:induction false} EndIsDecided(codec: Codec, protocol: Protocol, st: State, s: Bytes, final: Ending, max: nat)
    ensures Output(codec, protocol, st, s, final, max).end ==
            EndFor(FirstError(codec, protocol, ReadAll(s, final, max).0), ReadAll(s, final, max).1)
    decreases |s|
  {
    var step := Split(s, final, max);
    if step.Got? {
      OutputGot(codec, protocol, st, s, final, max);
      var t := Translate(codec, protocol, st, step.frame);
      FailureIsDecoded(codec, protocol, st, step.frame);
      ReadAllGot(s, final, max, step.frame, step.rest);
      var frames := ReadAll(step.rest, final, max).0;
      assert ([step.frame] + frames)[1..] == frames;
      if t.failure.None? {
        EndIsDecided(codec, protocol, t.next, step.rest, final, max);
      }
    }
  }

  lemma ReadAllGot(s: Bytes, final: Ending, max: nat, frame: Frame, rest: Bytes)
    requires Split(s, final, max) == Got(frame, rest)
    ensures ReadAll(s, final, max) == ([frame] + ReadAll(rest, final, max).0, ReadAll(rest, final, max).1)
  {
  }

  // ----- Reading the output back -----------------------------------------------

  function EventFrame(payload: Bytes): Frame { Frame([], payload, Event(payload), false) }

  /** The frame a reader should find for one emission, if any. */
  function Seen(frame: Frame, e: Emission): seq<Frame> {
    match e
    case Nothing => []
    case Same => [frame]
    case Payload(p) => [EventFrame(p)]
  }

  /** One frame for each translation that is not empty, in order, and [DONE] after a clean end. */
  function Echo(codec: Codec, protocol: Protocol, st: State, s: Bytes, final: Ending, max: nat): seq<Frame>
    decreases |s|
  {
    match Split(s, final, max)
    case Stop(error) => if error == EOF then [EventFrame(DONE)] else []
    case Got(frame, rest) =>
      var t := Translate(codec, protocol, st, frame);
      Seen(frame, t.emission) + if t.failure.Some? then [] else Echo(codec, protocol, t.next, rest, final, max)
  }

  ghost predicate EncodesOneLine(codec: Codec) { forall c :: OneLine(codec.encode(c)) }

  /** Reading one emission in front of anything finds its frame. */
  lemma EmissionReadsBack(codec: Codec, protocol: Protocol, st: State, s: Bytes, final: Ending, max: nat, t: Bytes, max': nat)
    requires EncodesOneLine(codec) && Split(s, final, max).Got?
    requires var frame := Split(s, final, max).frame;
             forall f :: f in Seen(frame, Translate(codec, protocol, st, frame).emission) ==> |f.raw| <= max'
    ensures var frame := Split(s, final, max).frame;
            var e := Translate(codec, protocol, st, frame).emission;
            e == Nothing || Split(Emit(frame, e) + t, EOF, max') == Got(Seen(frame, e)[0], t)
  {
    var frame := Split(s, final, max).frame;
    var e := Translate(codec, protocol, st, frame).emission;
    if e == Same {
      assert frame in Seen(frame, e);
      RawReadsBack(s, final, max, t, EOF, max');
    } else if e.Payload? {
      assert EventFrame(e.payload) in Seen(frame, e);
      TranslatesToOneLine(codec, protocol, st, frame);
      EventReadsBack(e.payload, t, EOF, max');
    }
  }

  lemma DoneIsOneLine()
    ensures OneLine(DONE)
  {
    AfterLFMeans(DONE, 0, 0);
  }

  lemma TranslatesToOneLine(codec: Codec, protocol: Protocol, st: State, frame: Frame)
    requires EncodesOneLine(codec)
    ensures var e := Translate(codec, protocol, st, frame).emission; e.Payload? ==> OneLine(e.payload)
  {
    DoneIsOneLine();
  }

  lemma NothingToRead(max: nat)
    ensures ReadAll([], EOF, max) == ([], EOF)
  {
  }

  lemma LastReadsBack(p: Bytes, max: nat)
    requires OneLine(p) && |Event(p)| <= max
    ensures ReadAll(Event(p), EOF, max) == ([EventFrame(p)], EOF)
  {
    EventReadsBack(p, [], EOF, max);
    assert Event(p) + [] == Event(p);
    ReadAllGot(Event(p), EOF, max, EventFrame(p), []);
    NothingToRead(max);
    assert [EventFrame(p)] + [] == [EventFrame(p)];
  }

  /** One emission and what follows it read back as its frame and the frames of the rest. */
  lemma FrontReadsBack(codec: Codec, protocol: Protocol, st: State, s: Bytes, final: Ending, max: nat, later: Bytes, max': nat, frames: seq<Frame>)
    requires EncodesOneLine(codec) && Split(s, final, max).Got?
    requires var frame := Split(s, final, max).frame;
             forall f :: f in Seen(frame, Translate(codec, protocol, st, frame).emission) ==> |f.raw| <= max'
    requires ReadAll(later, EOF, max') == (frames, EOF)
    ensures var frame := Split(s, final, max).frame;
            var e := Translate(codec, protocol, st, frame).emission;
            ReadAll(Emit(frame, e) + later, EOF, max') == (Seen(frame, e) + frames, EOF)
  {
    var frame := Split(s, final, max).frame;
    var e := Translate(codec, protocol, st, frame).emission;
    if e == Nothing {
      assert Emit(frame, e) + later == later && Seen(frame, e) + frames == frames;
    } else {
      EmissionReadsBack(codec, protocol, st, s, final, max, later, max');
      ReadAllGot(Emit(frame, e) + later, EOF, max', Seen(frame, e)[0], later);
      assert Seen(frame, e) == [Seen(frame, e)[0]];
    }
  }

  lemma EchoGot(codec: Codec, protocol: Protocol, st: State, s: Bytes, final: Ending, max: nat)
    requires Split(s, final, max).Got?
    ensures var step := Split(s, final, max);
            var t := Translate(codec, protocol, st, step.frame);
            && |step.rest| < |s|
            && Echo(codec, protocol, st, s, final, max) ==
               Seen(step.frame, t.emission) + if t.failure.Some? then [] else Echo(codec, protocol, t.next, step.rest, final, max)
  {
  }

  /** The whole output, read through a reader that admits its frames, is exactly the echo. */
  lemma {:induction false} OutputReadsBack(codec: Codec, protocol: Protocol, st: State, s: Bytes, final: Ending, max: nat, max': nat)
    requires EncodesOneLine(codec)
    requires forall f :: f in Echo(codec, protocol, st, s, final, max) ==> |f.raw| <= max'
    ensures ReadAll(Output(codec, protocol, st, s, final, max).bytes, EOF, max') == (Echo(codec, protocol, st, s, final, max), EOF)
    decreases |s|
  {
    var step := Split(s, final, max);
    if step.Stop? {
      NothingToRead(max');
      if step.error == EOF {
        assert EventFrame(DONE) in Echo(codec, protocol, st, s, final, max);
        DoneIsOneLine();
        LastReadsBack(DONE, max');
      }
    } else {
      OutputGot(codec, protocol, st, s, final, max);
      EchoGot(codec, protocol, st, s, final, max);
      var t := Translate(codec, protocol, st, step.frame);
      if t.failure.Some? {
        NothingToRead(max');
        FrontReadsBack(codec, protocol, st, s, final, max, [], max', []);
        assert Emit(step.frame, t.emission) + [] == Emit(step.frame, t.emission);
      } else {
        OutputReadsBack(codec, protocol, t.next, step.rest, final, max, max');
        FrontReadsBack(codec, protocol, st, s, final, max, Output(codec, protocol, t.next, step.rest, final, max).bytes, max',
                       Echo(codec, protocol, t.next, step.rest, final, max));
      }
    }
  }

  // ----- How often [DONE] is sent ------------------------------------------------

  /** JSON objects do not read as [DONE]. */
  ghost predicate EncodesNoDone(codec: Codec) { forall c :: codec.encode(c) != DONE }

  function DoneCount(frames: seq<Frame>): nat {
    if frames == [] then 0 else (if frames[0].data == DONE then 1 else 0) + DoneCount(frames[1..])
  }

  lemma {:induction false} DoneCountAppend(a: seq<Frame>, b: seq<Frame>)
    ensures DoneCount(a + b) == DoneCount(a) + DoneCount(b)
  {
    if a == [] {
      assert a + b == b;
    } else {
      assert (a + b)[1..] == a[1..] + b;
      DoneCountAppend(a[1..], b);
    }
  }

  predicate IsMessageStop(codec: Codec, protocol: Protocol, frame: Frame) {
    frame.data != [] && protocol == Anthropic && codec.anthropic(frame.data) == Some(MessageStop)
  }

  /** The `message_stop` events before the first error. */
  function Stops(codec: Codec, protocol: Protocol, frames: seq<Frame>): nat {
    if frames == [] || ErrorIn(codec, protocol, frames[0]).Some? then 0
    else (if IsMessageStop(codec, protocol, frames[0]) then 1 else 0) + Stops(codec, protocol, frames[1..])
  }

  lemma SeenDone(codec: Codec, protocol: Protocol, st: State, frame: Frame)
    requires EncodesNoDone(codec) && protocol != OpenAI
    ensures DoneCount(Seen(frame, Translate(codec, protocol, st, frame).emission)) == if IsMessageStop(codec, protocol, frame) then 1 else 0
  {
    var e := Translate(codec, protocol, st, frame).emission;
    if e != Nothing {
      OneSeen(Seen(frame, e)[0]);
    }
  }

  lemma OneSeen(frame: Frame)
    ensures DoneCount([frame]) == if frame.data == DONE then 1 else 0
  {
    assert [frame][1..] == [];
  }

  /**
   * A translated stream carries one [DONE] for each `message_stop` and one more
   * for a clean end: exactly one after a clean end if and only if no
   * `message_stop` came, and none after an error unless one came.
   */
  lemma {:induction false} DoneIsCounted(codec: Codec, protocol: Protocol, st: State, s: Bytes, final: Ending, max: nat)
    requires EncodesNoDone(codec) && protocol != OpenAI
    ensures DoneCount(Echo(codec, protocol, st, s, final, max)) ==
            Stops(codec, protocol, ReadAll(s, final, max).0) + if Output(codec, protocol, st, s, final, max).end.CleanEnd? then 1 else 0
    decreases |s|
  {
    var step := Split(s, final, max);
    if step.Stop? {
      OneSeen(EventFrame(DONE));
    } else {
      var t := Translate(codec, protocol, st, step.frame);
      OutputGot(codec, protocol, st, s, final, max);
      EchoGot(codec, protocol, st, s, final, max);
      FailureIsDecoded(codec, protocol, st, step.frame);
      SeenDone(codec, protocol, st, step.frame);
      ReadAllGot(s, final, max, step.frame, step.rest);
      var frames := ReadAll(step.rest, final, max).0;
      assert ([step.frame] + frames)[1..] == frames;
      if t.failure.Some? {
        ErrorIsNoStop(codec, protocol, step.frame);
        assert Seen(step.frame, t.emission) + [] == Seen(step.frame, t.emission);
      } else {
        DoneIsCounted(codec, protocol, t.next, step.rest, final, max);
        DoneCountAppend(Seen(step.frame, t.emission), Echo(codec, protocol, t.next, step.rest, final, max));
      }
    }
  }

  lemma ErrorIsNoStop(codec: Codec, protocol: Protocol, frame: Frame)
    requires ErrorIn(codec, protocol, frame).Some?
    ensures !IsMessageStop(codec, protocol, frame)
  {
  }

  /** The smallest such stream: one `message_stop` event and the end of the body give [DONE] twice. */
  lemma DoneTwice(codec: Codec, p: Bytes, max: nat)
    requires OneLine(p) && |Event(p)| <= max && codec.anthropic(p) == Some(MessageStop)
    ensures Output(codec, Anthropic, START, Event(p), EOF, max) == Flow(Event(DONE) + Event(DONE), CleanEnd)
    ensures Echo(codec, Anthropic, START, Event(p), EOF, max) == [EventFrame(DONE), EventFrame(DONE)]
  {
    EventReadsBack(p, [], EOF, max);
    assert Event(p) + [] == Event(p);
    NothingLeft(max);
    OutputGot(codec, Anthropic, START, Event(p), EOF, max);
    EchoGot(codec, Anthropic, START, Event(p), EOF, max);
    assert [EventFrame(DONE)] + [EventFrame(DONE)] == [EventFrame(DONE), EventFrame(DONE)];
  }

  lemma NothingLeft(max: nat)
    ensures Split([], EOF, max) == Stop(EOF)
  {
  }
}
