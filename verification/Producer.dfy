/**
 * The producer goroutine of a stream session: it opens the upstream, reads
 * frames through the SSE reader and hands them on one by one until [DONE], an
 * error or a refusal. Joined with the handlers this ties what a client receives
 * to the bytes that came from upstream.
 */
module Producer {
  import opened Base
  import opened Sse
  import opened SseReader
  import opened Bridge

  datatype Opening = Answered(status: int) | Refused(error: StreamError)

  /** How a frame is understood; the library's JSON decoding is behind it. */
  type Reading = Frame -> Received

  ghost predicate KeepsFrame(read: Reading) { forall f :: read(f).frame == f }

  function ErrorOf(e: ReadError): StreamError { StreamError(e == EOF, false, false, None, false) }

  /** What is handed on for a body with these bytes. */
  function Feed(s: Bytes, final: Ending, max: nat, read: Reading): seq<Signal>
    decreases |s|
  {
    match Split(s, final, max)
    case Stop(error) => [Broken(ErrorOf(error))]
    case Got(frame, rest) =>
      [Arrived(read(frame))] + if read(frame).parsed.DoneMark? then [] else Feed(rest, final, max, read)
  }

  function Produced(opening: Opening, s: Bytes, final: Ending, max: nat, read: Reading): seq<Signal> {
    match opening
    case Refused(error) => [Broken(error)]
    case Answered(status) => [Opened(status)] + Feed(s, final, max, read)
  }

  lemma FeedGot(s: Bytes, final: Ending, max: nat, read: Reading)
    requires Split(s, final, max).Got?
    ensures var step := Split(s, final, max);
            && |step.rest| < |s|
            && Feed(s, final, max, read) ==
               [Arrived(read(step.frame))] + if read(step.frame).parsed.DoneMark? then [] else Feed(step.rest, final, max, read)
  {
  }

  /** `sent` is as much of `all` as was accepted. */
  ghost predicate SentFrom(all: seq<Signal>, sent: seq<Signal>, accepts: nat -> bool) {
    && |sent| <= |all| && sent == all[..|sent|]
    && (forall i :: 0 <= i < |sent| ==> accepts(i))
    && (|sent| < |all| ==> !accepts(|sent|))
  }

  /** With `left` still to come: it is refused, or its first signal is sent. */
  lemma SendOne(all: seq<Signal>, sent: seq<Signal>, left: seq<Signal>, accepts: nat -> bool)
    requires all == sent + left && left != [] && forall i :: 0 <= i < |sent| ==> accepts(i)
    ensures !accepts(|sent|) ==> SentFrom(all, sent, accepts)
    ensures accepts(|sent|) ==> all == (sent + left[..1]) + left[1..] && forall i :: 0 <= i < |sent| + 1 ==> accepts(i)
    ensures accepts(|sent|) && |left| == 1 ==> SentFrom(all, sent + left, accepts)
  {
  }

  /** The goroutine: everything in order, up to the first result that is refused. */
  method Produce(opening: Opening, reader: SSEReader, read: Reading, accepts: nat -> bool) returns (sent: seq<Signal>)
    requires reader.Valid()
    modifies reader
    ensures SentFrom(Produced(opening, old(reader.Rest()), reader.final, reader.max, read), sent, accepts)
  {
    ghost var all := Produced(opening, reader.Rest(), reader.final, reader.max, read);
    SendOne(all, [], all, accepts);
    if !accepts(0) {
      return [];
    }
    if opening.Refused? {
      return [Broken(opening.error)];
    }
    sent := [Opened(opening.status)];
    ghost var left := all[1..];
    while true
      invariant reader.Valid() && left == Feed(reader.Rest(), reader.final, reader.max, read)
      invariant all == sent + left && forall i :: 0 <= i < |sent| ==> accepts(i)
      decreases |reader.Rest()|
    {
      ghost var rest := reader.Rest();
      var r := reader.Next();
      SendOne(all, sent, left, accepts);
      if !accepts(|sent|) {
        return;
      }
      if r.NoFrame? {
        return sent + [Broken(ErrorOf(r.error))];
      }
      FeedGot(rest, reader.final, reader.max, read);
      sent := sent + [Arrived(read(r.frame))];
      left := left[1..];
      if read(r.frame).parsed.DoneMark? {
        return;
      }
    }
  }

  // ----- What a client of a completed chat stream has received -----------------

  /** The frames of a stream up to and including [DONE]. */
  function ThroughDone(frames: seq<Frame>, read: Reading): seq<Frame> {
    if frames == [] then []
    else [frames[0]] + if read(frames[0]).parsed.DoneMark? then [] else ThroughDone(frames[1..], read)
  }

  function Arrivals(frames: seq<Frame>, read: Reading): seq<Signal> {
    if frames == [] then [] else [Arrived(read(frames[0]))] + Arrivals(frames[1..], read)
  }

  predicate HasDone(frames: seq<Frame>, read: Reading) { exists i :: 0 <= i < |frames| && read(frames[i]).parsed.DoneMark? }

  /** Handed on are the frames that the bytes hold, up to [DONE], and without one the error that ends them: a plain end only if they end cleanly. */
  lemma {:induction false} FeedMeans(s: Bytes, final: Ending, max: nat, read: Reading)
    ensures var (frames, error) := ReadAll(s, final, max);
            Feed(s, final, max, read) ==
            Arrivals(ThroughDone(frames, read), read)
            + if HasDone(frames, read) then [] else [Broken(StreamError(error == EOF, false, false, None, false))]
    decreases |s|
  {
    var step := Split(s, final, max);
    if step.Got? {
      FeedGot(s, final, max, read);
      var (frames, error) := ReadAll(step.rest, final, max);
      FramesCons(step.frame, frames, read);
      if !read(step.frame).parsed.DoneMark? {
        FeedMeans(step.rest, final, max, read);
        Associate([Arrived(read(step.frame))], Arrivals(ThroughDone(frames, read), read),
                  if HasDone(frames, read) then [] else [Broken(StreamError(error == EOF, false, false, None, false))]);
      }
    }
  }

  lemma FramesCons(frame: Frame, frames: seq<Frame>, read: Reading)
    ensures var all, done := [frame] + frames, read(frame).parsed.DoneMark?;
            && Arrivals(ThroughDone(all, read), read) == [Arrived(read(frame))] + (if done then [] else Arrivals(ThroughDone(frames, read), read))
            && (HasDone(all, read) <==> done || HasDone(frames, read))
  {
    var all := [frame] + frames;
    assert all[1..] == frames;
    if read(frame).parsed.DoneMark? {
      assert ThroughDone(all, read) == [frame] && [frame][1..] == [];
      assert read(all[0]).parsed.DoneMark?;
    } else {
      var more := ThroughDone(frames, read);
      assert ThroughDone(all, read) == [frame] + more && ([frame] + more)[1..] == more;
      if HasDone(frames, read) {
        var i :| 0 <= i < |frames| && read(frames[i]).parsed.DoneMark?;
        assert all[i + 1] == frames[i];
      }
    }
  }

  predicate FromProducer(signal: Signal) { signal.Opened? || signal.Arrived? || signal.Broken? }

  /** The producer's share of the first `n` signals. */
  function Share(signals: seq<Signal>, n: nat): seq<Signal>
    requires n <= |signals|
  {
    if n == 0 then [] else Share(signals, n - 1) + if FromProducer(signals[n - 1]) then [signals[n - 1]] else []
  }

  /** Other signals may come in between, in any number. */
  ghost predicate FedBy(signals: seq<Signal>, all: seq<Signal>) {
    forall n :: 0 <= n <= |signals| ==> |Share(signals, n)| <= |all| && Share(signals, n) == all[..|Share(signals, n)|]
  }

  function RawOf(signal: Signal): seq<Bytes> { if signal.Arrived? then [signal.received.frame.raw] else [] }

  function Raws(signals: seq<Signal>): seq<Bytes> {
    if signals == [] then [] else RawOf(signals[0]) + Raws(signals[1..])
  }

  lemma {:induction false} RawsAppend(a: seq<Signal>, b: seq<Signal>)
    ensures Raws(a + b) == Raws(a) + Raws(b)
    decreases |a|
  {
    if a == [] {
      assert a + b == b;
    } else {
      assert (a + b)[1..] == a[1..] + b;
      RawsAppend(a[1..], b);
      Associate(RawOf(a[0]), Raws(a[1..]), Raws(b));
    }
  }

  lemma RawsSnoc(signals: seq<Signal>, signal: Signal)
    ensures Raws(signals + [signal]) == Raws(signals) + RawOf(signal)
  {
    RawsAppend(signals, [signal]);
    assert [signal][1..] == [];
    assert Raws([signal]) == RawOf(signal) + Raws([]) == RawOf(signal);
  }

  lemma SharesNext(share: seq<Signal>, signal: Signal, share': seq<Signal>)
    requires share' == share + if FromProducer(signal) then [signal] else []
    ensures Raws(share') == Raws(share) + RawOf(signal)
  {
    if FromProducer(signal) {
      RawsSnoc(share, signal);
    } else {
      assert share' == share;
    }
  }

  lemma NextRaw(signals: seq<Signal>, n: nat)
    requires 0 < n <= |signals|
    ensures RawFrames(signals, n) == RawFrames(signals, n - 1) + RawOf(signals[n - 1])
  {
  }

  lemma {:induction false} RawFramesAreShared(signals: seq<Signal>, n: nat)
    requires n <= |signals|
    ensures RawFrames(signals, n) == Raws(Share(signals, n))
  {
    if n > 0 {
      RawFramesAreShared(signals, n - 1);
      SharesNext(Share(signals, n - 1), signals[n - 1], Share(signals, n));
      NextRaw(signals, n);
    }
  }

  lemma {:induction false} HeaderIsShared(signals: seq<Signal>, n: nat)
    requires n <= |signals|
    ensures Share(signals, n) != [] && Share(signals, n)[0].Opened? ==> HeaderSeen(signals, n)
  {
    if n > 0 {
      HeaderIsShared(signals, n - 1);
    }
  }

  /** The producer answers before it hands on frames, so a handler that sees a frame has seen the header. */
  lemma HeaderComesFirst(signals: seq<Signal>, opening: Opening, s: Bytes, final: Ending, max: nat, read: Reading, k: nat)
    requires FedBy(signals, Produced(opening, s, final, max, read)) && k < |signals| && signals[k].Arrived?
    ensures HeaderSeen(signals, k)
  {
    var all := Produced(opening, s, final, max, read);
    var share, more := Share(signals, k), Share(signals, k + 1);
    assert more == share + [signals[k]];
    assert more[0] == all[..|more|][0] == all[0];
    assert share != [];
    assert share[0] == more[0];
    HeaderIsShared(signals, k);
  }

  predicate IsDoneMark(signal: Signal) { signal.Arrived? && signal.received.parsed.DoneMark? }

  /** [DONE] is the last thing handed on, and by then the frames are those read through [DONE]. */
  lemma {:induction false} FeedThroughDone(s: Bytes, final: Ending, max: nat, read: Reading, i: nat)
    requires KeepsFrame(read) && i < |Feed(s, final, max, read)| && IsDoneMark(Feed(s, final, max, read)[i])
    ensures i == |Feed(s, final, max, read)| - 1
    ensures Raws(Feed(s, final, max, read)) == RawsOf(ThroughDone(ReadAll(s, final, max).0, read))
    decreases |s|
  {
    var step := Split(s, final, max);
    if step.Got? {
      FeedGot(s, final, max, read);
      var feed, frames := Feed(s, final, max, read), ReadAll(step.rest, final, max).0;
      assert ReadAll(s, final, max).0 == [step.frame] + frames;
      assert ([step.frame] + frames)[1..] == frames;
      assert read(step.frame).frame == step.frame;
      if read(step.frame).parsed.DoneMark? {
        assert feed[1..] == [];
        assert ThroughDone([step.frame] + frames, read) == [step.frame];
        OneFrame(step.frame);
      } else {
        assert feed[1..] == Feed(step.rest, final, max, read);
        FeedThroughDone(step.rest, final, max, read, i - 1);
        var more := ThroughDone(frames, read);
        assert ThroughDone([step.frame] + frames, read) == [step.frame] + more;
        assert ([step.frame] + more)[1..] == more;
      }
    }
  }

  lemma OneFrame(frame: Frame)
    ensures RawsOf([frame]) == [frame.raw]
  {
    assert [frame][1..] == [];
  }

  function RawsOf(frames: seq<Frame>): seq<Bytes> {
    if frames == [] then [] else [frames[0].raw] + RawsOf(frames[1..])
  }

  /** A chat stream recorded as completed has relayed exactly the upstream frames through [DONE]. */
  lemma CompletedChatRelaysUpstream(signals: seq<Signal>, writes: nat -> bool, ctx: Context, written: seq<Out>, r: Report,
                                    opening: Opening, s: Bytes, final: Ending, max: nat, read: Reading)
    requires ChatOutcome(signals, writes, ctx, written, r) && r.status == Completed
    requires KeepsFrame(read) && FedBy(signals, Produced(opening, s, final, max, read))
    ensures Forwarded(written, |written|) == RawsOf(ThroughDone(ReadAll(s, final, max).0, read))
  {
    var k := CompletedChatSentEverything(signals, writes, ctx, written, r);
    RawFramesAreShared(signals, k + 1);
    ShareThroughDone(signals, opening, s, final, max, read, k);
  }

  /** Once [DONE] was taken from the producer, nothing is left of what it hands on. */
  lemma ShareThroughDone(signals: seq<Signal>, opening: Opening, s: Bytes, final: Ending, max: nat, read: Reading, k: nat)
    requires KeepsFrame(read) && FedBy(signals, Produced(opening, s, final, max, read)) && k < |signals| && IsDoneMark(signals[k])
    ensures Raws(Share(signals, k + 1)) == RawsOf(ThroughDone(ReadAll(s, final, max).0, read))
  {
    var all, share := Produced(opening, s, final, max, read), Share(signals, k + 1);
    assert share == Share(signals, k) + [signals[k]];
    var i := |share| - 1;
    assert all[i] == all[..|share|][i] == signals[k];
    LastProduced(opening, s, final, max, read, i);
    assert share == all;
  }

  lemma LastProduced(opening: Opening, s: Bytes, final: Ending, max: nat, read: Reading, i: nat)
    requires KeepsFrame(read)
    requires var all := Produced(opening, s, final, max, read); i < |all| && IsDoneMark(all[i])
    ensures var all := Produced(opening, s, final, max, read);
            i == |all| - 1 && Raws(all) == RawsOf(ThroughDone(ReadAll(s, final, max).0, read))
  {
    var all, feed := Produced(opening, s, final, max, read), Feed(s, final, max, read);
    assert opening.Answered?;
    assert all[1..] == feed && feed[i - 1] == all[i];
    FeedThroughDone(s, final, max, read, i - 1);
  }
}
