/**
 * What a translated native stream says, read off the upstream's events: for each
 * event the chunk it calls for, told by what came before it, and what the chunks
 * of a whole stream add up to.
 */
module NativeLaws {
  import opened Base
  import opened Sse
  import opened NativeTranslate
  import opened NativeStream

  /** One event sent to the client. */
  datatype Sent = Says(chunk: Chunk) | SaysDone

  function Encoded(codec: Codec, sends: seq<Sent>): seq<Bytes> {
    if sends == [] then [] else [if sends[0].Says? then codec.encode(sends[0].chunk) else DONE] + Encoded(codec, sends[1..])
  }

  lemma {:induction false} EncodedAppend(codec: Codec, a: seq<Sent>, b: seq<Sent>)
    ensures Encoded(codec, a + b) == Encoded(codec, a) + Encoded(codec, b)
  {
    if a == [] {
      assert a + b == b;
    } else {
      assert (a + b)[1..] == a[1..] + b;
      EncodedAppend(codec, a[1..], b);
    }
  }

  /** The payloads among frames; comments have none. */
  function DataOf(frames: seq<Frame>): seq<Bytes> {
    if frames == [] then [] else (if frames[0].data != [] then [frames[0].data] else []) + DataOf(frames[1..])
  }

  lemma {:induction false} DataAppend(a: seq<Frame>, b: seq<Frame>)
    ensures DataOf(a + b) == DataOf(a) + DataOf(b)
  {
    if a == [] {
      assert a + b == b;
    } else {
      assert (a + b)[1..] == a[1..] + b;
      DataAppend(a[1..], b);
      Associate(if a[0].data != [] then [a[0].data] else [], DataOf(a[1..]), DataOf(b));
    }
  }

  lemma OneData(frame: Frame)
    ensures DataOf([frame]) == if frame.data != [] then [frame.data] else []
  {
    assert [frame][1..] == [];
  }

  // ----- Anthropic: what one event calls for ------------------------------------

  /** The content blocks of tools opened so far. */
  function Opened(events: seq<AnthropicEvent>): set<int> {
    set j | 0 <= j < |events| && events[j].ToolBlock? :: Truncated(events[j].index)
  }

  /** The last event that opened this block. */
  function LastOpening(events: seq<AnthropicEvent>, block: int): Option<nat> {
    if events == [] then None
    else
      var n := |events| - 1;
      if events[n].ToolBlock? && Truncated(events[n].index) == block then Some(n) else LastOpening(events[..n], block)
  }

  /** The token counts of the last `message_start`. */
  function Announced(events: seq<AnthropicEvent>): Tokens {
    if events == [] then Tokens(0, 0, 0, 0)
    else
      var last := events[|events| - 1];
      if last.MessageStart? then Tokens(Truncated(last.input), 0, Truncated(last.cached), Truncated(last.cacheWrite))
      else Announced(events[..|events| - 1])
  }

  /** The index under which the client knows the block opened by event `j`: the number of blocks opened before it. */
  function Slot(events: seq<AnthropicEvent>, j: nat): nat
    requires j < |events|
  {
    |Opened(events[..j])|
  }

  /** What an event calls for after those before it. */
  function Calls(before: seq<AnthropicEvent>, event: AnthropicEvent): seq<Sent> {
    match event
    case TextDelta(text) => if text == "" then [] else [Says(TextChunk(text))]
    case ToolBlock(_, id, name) => [Says(OpenTool(Tool(Given(id), name, |Opened(before)|)))]
    case JsonDelta(index, json) =>
      var j := LastOpening(before, Truncated(index));
      if j.None? || j.value >= |before| || !before[j.value].ToolBlock? then [Says(ToolArgs(0, Given(""), json))]
      else [Says(ToolArgs(Slot(before, j.value), Given(before[j.value].id), json))]
    case MessageDelta(reason, output) =>
      [Says(FinishChunk(
         if reason == "" then None
         else if reason == "tool_use" then Some("tool_calls") else if reason == "max_tokens" then Some("length") else Some("stop"),
         if output.None? then None
         else Some(Tokens(Announced(before).input, Truncated(output.value), Announced(before).cached, Announced(before).cacheWrite))))]
    case MessageStop => [SaysDone]
    case Failure(detail) => [Says(ErrorChunk(detail))]
    case MessageStart(_, _, _) => []
    case Ignored => []
  }

  /** What a stream sends: nothing more after the first error. */
  function Sends(before: seq<AnthropicEvent>, events: seq<AnthropicEvent>): seq<Sent>
    decreases |events|
  {
    if events == [] then []
    else Calls(before, events[0]) + if events[0].Failure? then [] else Sends(before + [events[0]], events[1..])
  }

  /** The translator's state after these events. */
  function StateAfter(codec: Codec, events: seq<AnthropicEvent>): State {
    if events == [] then START
    else TranslateAnthropic(codec, StateAfter(codec, events[..|events| - 1]), events[|events| - 1]).next
  }

  lemma StateSnoc(codec: Codec, before: seq<AnthropicEvent>, event: AnthropicEvent)
    ensures StateAfter(codec, before + [event]) == TranslateAnthropic(codec, StateAfter(codec, before), event).next
  {
    assert (before + [event])[..|before|] == before;
  }

  lemma OpenedSnoc(before: seq<AnthropicEvent>, event: AnthropicEvent)
    ensures Opened(before + [event]) == Opened(before) + if event.ToolBlock? then {Truncated(event.index)} else {}
  {
    var after := before + [event];
    forall b | b in Opened(after)
      ensures b in Opened(before) + if event.ToolBlock? then {Truncated(event.index)} else {}
    {
      var j :| 0 <= j < |after| && after[j].ToolBlock? && Truncated(after[j].index) == b;
      assert j < |before| ==> before[j] == after[j];
    }
    forall b | b in Opened(before)
      ensures b in Opened(after)
    {
      var j :| 0 <= j < |before| && before[j].ToolBlock? && Truncated(before[j].index) == b;
      assert after[j] == before[j];
    }
    assert after[|before|] == event;
  }

  /** What the translator remembers is what the events before have said. */
  ghost predicate Remembers(st: State, events: seq<AnthropicEvent>) {
    && st.tokens == Announced(events) && st.blocks.Keys == Opened(events)
    && AllRemembered(events, st.blocks)
  }

  ghost predicate AllRemembered(events: seq<AnthropicEvent>, blocks: map<int, Tool>) {
    forall b :: b in blocks ==> RememberedAs(events, b, blocks[b])
  }

  ghost predicate RememberedAs(events: seq<AnthropicEvent>, b: int, tool: Tool) {
    var j := LastOpening(events, b);
    && j.Some? && j.value < |events| && events[j.value].ToolBlock?
    && tool == Tool(Given(events[j.value].id), events[j.value].name, Slot(events, j.value))
  }

  lemma RememberedStays(before: seq<AnthropicEvent>, event: AnthropicEvent, b: int, tool: Tool)
    requires RememberedAs(before, b, tool) && !(event.ToolBlock? && Truncated(event.index) == b)
    ensures RememberedAs(before + [event], b, tool)
  {
    var after, j := before + [event], LastOpening(before, b).value;
    assert after[..|before|] == before;
    assert after[..j] == before[..j];
  }

  lemma LatestIsRemembered(before: seq<AnthropicEvent>, event: AnthropicEvent)
    requires event.ToolBlock?
    ensures RememberedAs(before + [event], Truncated(event.index), Tool(Given(event.id), event.name, |Opened(before)|))
  {
    assert (before + [event])[..|before|] == before;
  }

  /** What an event changes of the state. */
  lemma StateChanges(codec: Codec, st: State, event: AnthropicEvent)
    ensures var st' := TranslateAnthropic(codec, st, event).next;
            && st'.blocks == (if event.ToolBlock? then st.blocks[Truncated(event.index) := Tool(Given(event.id), event.name, |st.blocks|)] else st.blocks)
            && st'.tokens == if event.MessageStart?
                             then Tokens(Truncated(event.input), st.tokens.completion, Truncated(event.cached), Truncated(event.cacheWrite))
                             else st.tokens
  {
  }

  lemma OthersAreRemembered(before: seq<AnthropicEvent>, event: AnthropicEvent, blocks: map<int, Tool>)
    requires AllRemembered(before, blocks) && (event.ToolBlock? ==> Truncated(event.index) !in blocks)
    ensures AllRemembered(before + [event], blocks)
  {
    forall b | b in blocks
      ensures RememberedAs(before + [event], b, blocks[b])
    {
      RememberedStays(before, event, b, blocks[b]);
    }
  }

  lemma FewerAreRemembered(events: seq<AnthropicEvent>, blocks: map<int, Tool>, b: int)
    requires AllRemembered(events, blocks)
    ensures AllRemembered(events, blocks - {b})
  {
  }

  lemma OneMoreIsRemembered(events: seq<AnthropicEvent>, blocks: map<int, Tool>, b: int, tool: Tool)
    requires AllRemembered(events, blocks) && RememberedAs(events, b, tool)
    ensures AllRemembered(events, blocks[b := tool])
  {
  }

  lemma OpeningTable(before: seq<AnthropicEvent>, event: AnthropicEvent, blocks: map<int, Tool>, tool: Tool)
    requires AllRemembered(before, blocks) && event.ToolBlock?
    requires tool == Tool(Given(event.id), event.name, |Opened(before)|)
    ensures AllRemembered(before + [event], (blocks - {Truncated(event.index)})[Truncated(event.index) := tool])
  {
    LatestIsRemembered(before, event);
    FewerAreRemembered(before, blocks, Truncated(event.index));
    OthersAreRemembered(before, event, blocks - {Truncated(event.index)});
    OneMoreIsRemembered(before + [event], blocks - {Truncated(event.index)}, Truncated(event.index), tool);
  }

  lemma Replaced(blocks: map<int, Tool>, b: int, tool: Tool)
    ensures (blocks - {b})[b := tool] == blocks[b := tool] && blocks[b := tool].Keys == blocks.Keys + {b} && |blocks| == |blocks.Keys|
  {
  }

  lemma AnnouncedStays(before: seq<AnthropicEvent>, event: AnthropicEvent)
    ensures Announced(before + [event]) ==
            if event.MessageStart? then Tokens(Truncated(event.input), 0, Truncated(event.cached), Truncated(event.cacheWrite)) else Announced(before)
  {
    assert (before + [event])[..|before|] == before;
  }

  lemma OpeningRemembers(before: seq<AnthropicEvent>, event: AnthropicEvent, st: State, st': State)
    requires Remembers(st, before) && event.ToolBlock? && st'.tokens == st.tokens
    requires st'.blocks == st.blocks[Truncated(event.index) := Tool(Given(event.id), event.name, |st.blocks|)]
    ensures Remembers(st', before + [event])
  {
    var b, tool := Truncated(event.index), Tool(Given(event.id), event.name, |st.blocks|);
    Replaced(st.blocks, b, tool);
    AnnouncedStays(before, event);
    OpenedSnoc(before, event);
    OpeningTable(before, event, st.blocks, tool);
  }

  lemma OtherRemembers(before: seq<AnthropicEvent>, event: AnthropicEvent, st: State, st': State)
    requires Remembers(st, before) && !event.ToolBlock? && st'.blocks == st.blocks
    requires st'.tokens == if event.MessageStart? then Tokens(Truncated(event.input), 0, Truncated(event.cached), Truncated(event.cacheWrite)) else st.tokens
    ensures Remembers(st', before + [event])
  {
    AnnouncedStays(before, event);
    OpenedSnoc(before, event);
    OthersAreRemembered(before, event, st.blocks);
  }

  lemma {:induction false} StateRemembers(codec: Codec, events: seq<AnthropicEvent>)
    ensures Remembers(StateAfter(codec, events), events) && StateAfter(codec, events).tokens.completion == 0
  {
    if events != [] {
      var before, event := events[..|events| - 1], events[|events| - 1];
      assert events == before + [event];
      StateRemembers(codec, before);
      StateChanges(codec, StateAfter(codec, before), event);
      if event.ToolBlock? {
        OpeningRemembers(before, event, StateAfter(codec, before), StateAfter(codec, events));
      } else {
        OtherRemembers(before, event, StateAfter(codec, before), StateAfter(codec, events));
      }
    }
  }

  lemma {:induction false} NeverOpened(events: seq<AnthropicEvent>, b: int)
    requires b !in Opened(events)
    ensures LastOpening(events, b) == None
  {
    if events != [] {
      var before, event := events[..|events| - 1], events[|events| - 1];
      assert events == before + [event];
      OpenedSnoc(before, event);
      NeverOpened(before, b);
    }
  }

  /** Sent at most once, or not at all. */
  function Emitted(codec: Codec, sends: seq<Sent>): Emission {
    if sends == [] then Nothing else if sends[0].Says? then Payload(codec.encode(sends[0].chunk)) else Payload(DONE)
  }

  /** The translator sends exactly what the event calls for, and fails exactly on an error. */
  lemma EventIsTranslated(codec: Codec, before: seq<AnthropicEvent>, event: AnthropicEvent)
    ensures var t := TranslateAnthropic(codec, StateAfter(codec, before), event);
            && t.emission == Emitted(codec, Calls(before, event)) && |Calls(before, event)| <= 1
            && t.failure == (if event.Failure? then Some(event.detail) else None)
            && t.next == StateAfter(codec, before + [event])
  {
    StateRemembers(codec, before);
    StateSnoc(codec, before, event);
    if event.JsonDelta? {
      var b := Truncated(event.index);
      if b in Opened(before) {
        assert RememberedAs(before, b, StateAfter(codec, before).blocks[b]);
      } else {
        NeverOpened(before, b);
      }
    }
  }

  // ----- Gemini: what one event calls for ---------------------------------------

  function PartTexts(parts: seq<Part>): string {
    if parts == [] then "" else PartTexts(parts[..|parts| - 1]) + parts[|parts| - 1].text
  }

  function PartCalls(parts: seq<Part>): seq<Call> {
    if parts == [] then []
    else PartCalls(parts[..|parts| - 1]) + if parts[|parts| - 1].call.Some? then [parts[|parts| - 1].call.value] else []
  }

  /** The token counts after these events: the last of each kind reported; a completion that is missing is the total less the prompt. */
  function Totals(events: seq<GeminiEvent>): Tokens {
    if events == [] then Tokens(0, 0, 0, 0)
    else
      var before, last := Totals(events[..|events| - 1]), events[|events| - 1];
      if last.GeminiFailure? || last.usage.None? then before
      else
        var u := last.usage.value;
        var input := if u.prompt.Some? then Truncated(u.prompt.value) else before.input;
        Tokens(input,
               if u.candidates.Some? then Truncated(u.candidates.value) else if u.total > 0.0 then Truncated(u.total) - input else before.completion,
               if u.cached.Some? then Truncated(u.cached.value) else before.cached, 0)
  }

  /** The deltas sent for the tool calls of one event. */
  function DeltasFor(codec: Codec, before: seq<GeminiEvent>, event: GeminiEvent): seq<ToolDelta> {
    var sent := |StreamCalls(codec, before)|;
    var all := StreamCalls(codec, before + [event]);
    if sent <= |all| then all[sent..] else []
  }

  function FinishText(reason: string): string {
    if reason == "" then "" else if reason == "MAX_TOKENS" then "length"
    else if reason == "SAFETY" || reason == "RECITATION" || reason == "BLOCKLIST" || reason == "PROHIBITED_CONTENT" || reason == "SPII"
    then "content_filter" else "stop"
  }

  function GeminiCalls(codec: Codec, before: seq<GeminiEvent>, event: GeminiEvent): seq<Sent> {
    match event
    case GeminiFailure(error) => [Says(ErrorChunk(error))]
    case Candidate(_, parts, reason, usage) =>
      if PartTexts(parts) == "" && PartCalls(parts) == [] && reason == "" && usage.None? then []
      else
        [Says(CandidateChunk(
           PartTexts(parts), DeltasFor(codec, before, event),
           FinishText(reason), if usage.Some? then Some(Totals(before + [event])) else None))]
  }

  function GeminiSends(codec: Codec, before: seq<GeminiEvent>, events: seq<GeminiEvent>): seq<Sent>
    decreases |events|
  {
    if events == [] then []
    else GeminiCalls(codec, before, events[0]) + if events[0].GeminiFailure? then [] else GeminiSends(codec, before + [events[0]], events[1..])
  }

  /** A delta carries the arguments of its call, and its name if it opens it. */
  predicate Carries(delta: ToolDelta, call: Call) {
    delta.args == call.args && (delta.opening.Some? ==> delta.opening.value.1 == call.name)
  }

  ghost predicate AllCarried(deltas: seq<ToolDelta>, calls: seq<Call>) {
    |deltas| == |calls| && forall i :: 0 <= i < |deltas| ==> Carries(deltas[i], calls[i])
  }

  lemma {:induction false} GatherMeans(st: State, candidate: int, parts: seq<Part>, n: nat)
    requires n <= |parts|
    ensures var g := Gather(st, candidate, parts, n);
            g.content == PartTexts(parts[..n]) && AllCarried(g.calls, PartCalls(parts[..n])) && g.st.tokens == st.tokens
  {
    if n > 0 {
      GatherMeans(st, candidate, parts, n - 1);
      assert parts[..n][..n - 1] == parts[..n - 1];
    }
  }

  lemma StreamSnoc(codec: Codec, before: seq<GeminiEvent>, event: GeminiEvent)
    ensures var st := StreamState(codec, before);
            && StreamState(codec, before + [event]) == TranslateGemini(codec, st, event).next
            && DeltasFor(codec, before, event) == if event.GeminiFailure? then [] else Gather(st, Truncated(event.index), event.parts, |event.parts|).calls
  {
    assert (before + [event])[..|before|] == before;
  }

  lemma {:induction false} TotalsAreKept(codec: Codec, events: seq<GeminiEvent>)
    ensures StreamState(codec, events).tokens == Totals(events) && Totals(events).cacheWrite == 0
  {
    if events != [] {
      var before, event := events[..|events| - 1], events[|events| - 1];
      TotalsAreKept(codec, before);
      if event.Candidate? {
        GatherMeans(StreamState(codec, before), Truncated(event.index), event.parts, |event.parts|);
      }
    }
  }

  lemma FinishMeans(codec: Codec, g: Gathered, reason: string, usage: Option<GeminiUsage>)
    ensures var t := FinishGemini(codec, g, reason, usage);
            && t.failure == None
            && t.emission == if g.content == "" && g.calls == [] && reason == "" && usage.None? then Nothing
                             else Payload(codec.encode(CandidateChunk(g.content, g.calls, FinishText(reason),
                                                                      if usage.Some? then Some(t.next.tokens) else None)))
  {
  }

  /** The translator sends exactly what the event calls for, with the arguments of its calls, and fails exactly on an error. */
  lemma GeminiIsTranslated(codec: Codec, before: seq<GeminiEvent>, event: GeminiEvent)
    ensures var t := TranslateGemini(codec, StreamState(codec, before), event);
            && t.emission == Emitted(codec, GeminiCalls(codec, before, event)) && |GeminiCalls(codec, before, event)| <= 1
            && t.failure == (if event.GeminiFailure? then Some(event.error) else None)
            && t.next == StreamState(codec, before + [event])
    ensures event.Candidate? ==> AllCarried(DeltasFor(codec, before, event), PartCalls(event.parts))
  {
    StreamSnoc(codec, before, event);
    TotalsAreKept(codec, before + [event]);
    if event.Candidate? {
      var st := StreamState(codec, before);
      GatherMeans(st, Truncated(event.index), event.parts, |event.parts|);
      assert event.parts[..|event.parts|] == event.parts;
      FinishMeans(codec, Gather(st, Truncated(event.index), event.parts, |event.parts|), event.finishReason, event.usage);
    }
  }

  // ----- What the client receives -----------------------------------------------

  /** The events that the frames carry. */
  function Events(codec: Codec, frames: seq<Frame>): seq<AnthropicEvent> {
    if frames == [] then []
    else
      var last := frames[|frames| - 1].data;
      Events(codec, frames[..|frames| - 1]) + if last != [] && codec.anthropic(last).Some? then [codec.anthropic(last).value] else []
  }

  function GeminiEvents(codec: Codec, frames: seq<Frame>): seq<GeminiEvent> {
    if frames == [] then []
    else
      var last := frames[|frames| - 1].data;
      GeminiEvents(codec, frames[..|frames| - 1]) + if last != [] && codec.gemini(last).Some? then [codec.gemini(last).value] else []
  }

  lemma EventsSnoc(codec: Codec, frames: seq<Frame>, frame: Frame)
    ensures Events(codec, frames + [frame]) ==
            Events(codec, frames) + if frame.data != [] && codec.anthropic(frame.data).Some? then [codec.anthropic(frame.data).value] else []
    ensures GeminiEvents(codec, frames + [frame]) ==
            GeminiEvents(codec, frames) + if frame.data != [] && codec.gemini(frame.data).Some? then [codec.gemini(frame.data).value] else []
  {
    assert (frames + [frame])[..|frames|] == frames;
  }

  /** What a frame calls for after those before it. */
  function FrameCalls(codec: Codec, protocol: Protocol, before: seq<Frame>, frame: Frame): seq<Sent> {
    if frame.data == [] then []
    else if protocol == Anthropic then
      match codec.anthropic(frame.data)
      case None => []
      case Some(event) => Calls(Events(codec, before), event)
    else
      match codec.gemini(frame.data)
      case None => []
      case Some(event) => GeminiCalls(codec, GeminiEvents(codec, before), event)
  }

  function FrameSends(codec: Codec, protocol: Protocol, before: seq<Frame>, frames: seq<Frame>): seq<Sent>
    decreases |frames|
  {
    if frames == [] then []
    else
      FrameCalls(codec, protocol, before, frames[0]) +
      if ErrorIn(codec, protocol, frames[0]).Some? then [] else FrameSends(codec, protocol, before + [frames[0]], frames[1..])
  }

  lemma FrameSendsCons(codec: Codec, protocol: Protocol, before: seq<Frame>, frame: Frame, frames: seq<Frame>)
    ensures FrameSends(codec, protocol, before, [frame] + frames) ==
            FrameCalls(codec, protocol, before, frame) +
            if ErrorIn(codec, protocol, frame).Some? then [] else FrameSends(codec, protocol, before + [frame], frames)
  {
    assert ([frame] + frames)[1..] == frames;
  }

  function StateOf(codec: Codec, protocol: Protocol, frames: seq<Frame>): State {
    if protocol == Anthropic then StateAfter(codec, Events(codec, frames)) else StreamState(codec, GeminiEvents(codec, frames))
  }

  lemma FrameIsTranslated(codec: Codec, protocol: Protocol, before: seq<Frame>, frame: Frame)
    requires protocol != OpenAI
    ensures var t, calls := Translate(codec, protocol, StateOf(codec, protocol, before), frame), FrameCalls(codec, protocol, before, frame);
            && t.next == StateOf(codec, protocol, before + [frame])
            && |calls| <= 1 && t.emission == (if frame.data == [] then Same else Emitted(codec, calls))
            && t.failure == ErrorIn(codec, protocol, frame)
  {
    EventsSnoc(codec, before, frame);
    if frame.data != [] {
      if protocol == Anthropic {
        if codec.anthropic(frame.data).Some? {
          EventIsTranslated(codec, Events(codec, before), codec.anthropic(frame.data).value);
        } else {
          assert Events(codec, before) + [] == Events(codec, before);
        }
      } else if codec.gemini(frame.data).Some? {
        GeminiIsTranslated(codec, GeminiEvents(codec, before), codec.gemini(frame.data).value);
      } else {
        assert GeminiEvents(codec, before) + [] == GeminiEvents(codec, before);
      }
    } else {
      assert Events(codec, before) + [] == Events(codec, before) && GeminiEvents(codec, before) + [] == GeminiEvents(codec, before);
    }
  }

  /** What one emission lets the client read. */
  lemma EmittedIsSeen(codec: Codec, frame: Frame, e: Emission, sends: seq<Sent>)
    requires EncodesOneLine(codec) && |sends| <= 1
    requires if frame.data == [] then e == Same && sends == [] else e == Emitted(codec, sends)
    ensures DataOf(Seen(frame, e)) == Encoded(codec, sends)
  {
    DoneIsOneLine();
    if frame.data == [] {
      OneData(frame);
    } else if sends == [] {
      assert DataOf([]) == [];
    } else {
      var p := if sends[0].Says? then codec.encode(sends[0].chunk) else DONE;
      OneData(EventFrame(p));
      assert sends[1..] == [];
      assert Encoded(codec, sends) == [p] + [];
    }
  }

  function LastDone(end: End): seq<Bytes> { if end.CleanEnd? then [DONE] else [] }

  /** The claim below, for one state of affairs. */
  ghost predicate IsTranslated(codec: Codec, protocol: Protocol, before: seq<Frame>, s: Bytes, final: Ending, max: nat) {
    var st := StateOf(codec, protocol, before);
    DataOf(Echo(codec, protocol, st, s, final, max)) ==
    Encoded(codec, FrameSends(codec, protocol, before, ReadAll(s, final, max).0)) + LastDone(Output(codec, protocol, st, s, final, max).end)
  }

  lemma StopIsTranslated(codec: Codec, protocol: Protocol, before: seq<Frame>, s: Bytes, final: Ending, max: nat)
    requires Split(s, final, max).Stop?
    ensures IsTranslated(codec, protocol, before, s, final, max)
  {
    DoneIsOneLine();
    OneData(EventFrame(DONE));
    assert DataOf([]) == [];
  }

  /** One frame, and what follows it if it is no error. */
  lemma NextIsTranslated(codec: Codec, protocol: Protocol, before: seq<Frame>, s: Bytes, final: Ending, max: nat, frame: Frame, rest: Bytes)
    requires EncodesOneLine(codec) && protocol != OpenAI && Split(s, final, max) == Got(frame, rest)
    requires IsTranslated(codec, protocol, before + [frame], rest, final, max)
    ensures IsTranslated(codec, protocol, before, s, final, max)
  {
    var st, frames := StateOf(codec, protocol, before), ReadAll(rest, final, max).0;
    var t, calls := Translate(codec, protocol, st, frame), FrameCalls(codec, protocol, before, frame);
    OutputGot(codec, protocol, st, s, final, max);
    EchoGot(codec, protocol, st, s, final, max);
    ReadAllGot(s, final, max, frame, rest);
    FrameIsTranslated(codec, protocol, before, frame);
    EmittedIsSeen(codec, frame, t.emission, calls);
    FrameSendsCons(codec, protocol, before, frame, frames);
    var echo := if t.failure.Some? then [] else Echo(codec, protocol, t.next, rest, final, max);
    var sends := if t.failure.Some? then [] else FrameSends(codec, protocol, before + [frame], frames);
    DataAppend(Seen(frame, t.emission), echo);
    EncodedAppend(codec, calls, sends);
    if t.failure.Some? {
      assert DataOf([]) == [] && Encoded(codec, []) == [];
    } else {
      Associate(Encoded(codec, calls), Encoded(codec, sends), LastDone(Output(codec, protocol, t.next, rest, final, max).end));
    }
  }

  /**
   * The payloads that a client reads in the whole output are the encodings of
   * what the upstream's frames call for, in order, and [DONE] after a clean end.
   */
  lemma {:induction false} StreamIsTranslated(codec: Codec, protocol: Protocol, before: seq<Frame>, s: Bytes, final: Ending, max: nat)
    requires EncodesOneLine(codec) && protocol != OpenAI
    ensures IsTranslated(codec, protocol, before, s, final, max)
    decreases |s|
  {
    var step := Split(s, final, max);
    if step.Stop? {
      StopIsTranslated(codec, protocol, before, s, final, max);
    } else {
      OutputGot(codec, protocol, StateOf(codec, protocol, before), s, final, max);
      StreamIsTranslated(codec, protocol, before + [step.frame], step.rest, final, max);
      NextIsTranslated(codec, protocol, before, s, final, max, step.frame, step.rest);
    }
  }

  // ----- Frames and events ------------------------------------------------------

  lemma {:induction false} EventsCons(codec: Codec, frame: Frame, frames: seq<Frame>)
    ensures Events(codec, [frame] + frames) ==
            (if frame.data != [] && codec.anthropic(frame.data).Some? then [codec.anthropic(frame.data).value] else []) + Events(codec, frames)
    ensures GeminiEvents(codec, [frame] + frames) ==
            (if frame.data != [] && codec.gemini(frame.data).Some? then [codec.gemini(frame.data).value] else []) + GeminiEvents(codec, frames)
    decreases |frames|
  {
    if frames == [] {
      EventsSnoc(codec, [], frame);
      assert [] + [frame] == [frame] + frames;
    } else {
      var front, last := frames[..|frames| - 1], frames[|frames| - 1];
      EventsCons(codec, frame, front);
      EventsSnoc(codec, [frame] + front, last);
      assert [frame] + frames == ([frame] + front) + [last];
      EventsSnoc(codec, front, last);
      assert frames == front + [last];
    }
  }

  /** What the frames call for is what their events call for. */
  lemma {:induction false} AnthropicFrames(codec: Codec, before: seq<Frame>, frames: seq<Frame>)
    ensures FrameSends(codec, Anthropic, before, frames) == Sends(Events(codec, before), Events(codec, frames))
    decreases |frames|
  {
    if frames != [] {
      var frame, rest := frames[0], frames[1..];
      assert frames == [frame] + rest;
      EventsCons(codec, frame, rest);
      EventsSnoc(codec, before, frame);
      AnthropicFrames(codec, before + [frame], rest);
      if frame.data != [] && codec.anthropic(frame.data).Some? {
        assert ([codec.anthropic(frame.data).value] + Events(codec, rest))[1..] == Events(codec, rest);
      } else {
        assert Events(codec, before) + [] == Events(codec, before) && [] + Events(codec, rest) == Events(codec, rest);
      }
    }
  }

  lemma {:induction false} GeminiFrames(codec: Codec, before: seq<Frame>, frames: seq<Frame>)
    ensures FrameSends(codec, Gemini, before, frames) == GeminiSends(codec, GeminiEvents(codec, before), GeminiEvents(codec, frames))
    decreases |frames|
  {
    if frames != [] {
      var frame, rest := frames[0], frames[1..];
      assert frames == [frame] + rest;
      EventsCons(codec, frame, rest);
      EventsSnoc(codec, before, frame);
      GeminiFrames(codec, before + [frame], rest);
      if frame.data != [] && codec.gemini(frame.data).Some? {
        assert ([codec.gemini(frame.data).value] + GeminiEvents(codec, rest))[1..] == GeminiEvents(codec, rest);
      } else {
        assert GeminiEvents(codec, before) + [] == GeminiEvents(codec, before) && [] + GeminiEvents(codec, rest) == GeminiEvents(codec, rest);
      }
    }
  }

  // ----- Whole streams: text ----------------------------------------------------

  /** The text the client receives. */
  function TextSent(sends: seq<Sent>): string {
    if sends == [] then ""
    else (if !sends[0].Says? then "" else if sends[0].chunk.TextChunk? then sends[0].chunk.text
          else if sends[0].chunk.CandidateChunk? then sends[0].chunk.content else "") + TextSent(sends[1..])
  }

  /** The text of the upstream's events before the first error. */
  function TextGiven(events: seq<AnthropicEvent>): string {
    if events == [] || events[0].Failure? then "" else (if events[0].TextDelta? then events[0].text else "") + TextGiven(events[1..])
  }

  function GeminiTextGiven(events: seq<GeminiEvent>): string {
    if events == [] || events[0].GeminiFailure? then "" else PartTexts(events[0].parts) + GeminiTextGiven(events[1..])
  }

  lemma {:induction false} TextSentAppend(a: seq<Sent>, b: seq<Sent>)
    ensures TextSent(a + b) == TextSent(a) + TextSent(b)
  {
    if a == [] {
      assert a + b == b;
    } else {
      assert (a + b)[1..] == a[1..] + b;
      TextSentAppend(a[1..], b);
    }
  }

  lemma TextOfOne(sent: Sent)
    ensures TextSent([sent]) ==
            if !sent.Says? then "" else if sent.chunk.TextChunk? then sent.chunk.text else if sent.chunk.CandidateChunk? then sent.chunk.content else ""
  {
    assert [sent][1..] == [];
  }

  lemma TextOfCall(before: seq<AnthropicEvent>, event: AnthropicEvent)
    ensures TextSent(Calls(before, event)) == if event.TextDelta? then event.text else ""
  {
    var calls := Calls(before, event);
    if calls != [] {
      TextOfOne(calls[0]);
      assert calls == [calls[0]];
    }
  }

  /** Not a character of the upstream's text is lost, added or moved. */
  lemma {:induction false} TextIsPassedOn(before: seq<AnthropicEvent>, events: seq<AnthropicEvent>)
    ensures TextSent(Sends(before, events)) == TextGiven(events)
    decreases |events|
  {
    if events != [] {
      var event, rest := events[0], events[1..];
      TextOfCall(before, event);
      TextSentAppend(Calls(before, event), if event.Failure? then [] else Sends(before + [event], rest));
      if !event.Failure? {
        TextIsPassedOn(before + [event], rest);
      }
    }
  }

  lemma {:induction false} GeminiTextIsPassedOn(codec: Codec, before: seq<GeminiEvent>, events: seq<GeminiEvent>)
    ensures TextSent(GeminiSends(codec, before, events)) == GeminiTextGiven(events)
    decreases |events|
  {
    if events != [] {
      var calls := GeminiCalls(codec, before, events[0]);
      TextSentAppend(calls, if events[0].GeminiFailure? then [] else GeminiSends(codec, before + [events[0]], events[1..]));
      if calls != [] {
        TextOfOne(calls[0]);
        assert calls == [calls[0]];
      }
      if events[0].Candidate? {
        GeminiTextIsPassedOn(codec, before + [events[0]], events[1..]);
      }
    }
  }

  // ----- Whole streams: finish reason and usage ---------------------------------

  /** The last chunk that gives a finish reason or a usage. */
  function LastFinish(sends: seq<Sent>): Option<Chunk> {
    if sends == [] then None
    else
      var last := sends[|sends| - 1];
      if last.Says? && last.chunk.FinishChunk? then Some(last.chunk) else LastFinish(sends[..|sends| - 1])
  }

  predicate NoFailure(events: seq<AnthropicEvent>) { forall i :: 0 <= i < |events| ==> !events[i].Failure? }

  predicate NoMessageDelta(events: seq<AnthropicEvent>) { forall i :: 0 <= i < |events| ==> !events[i].MessageDelta? }

  lemma {:induction false} SendsAppend(before: seq<AnthropicEvent>, a: seq<AnthropicEvent>, b: seq<AnthropicEvent>)
    requires NoFailure(a)
    ensures Sends(before, a + b) == Sends(before, a) + Sends(before + a, b)
    decreases |a|
  {
    if a == [] {
      assert a + b == b && before + a == before;
    } else {
      assert (a + b)[1..] == a[1..] + b && before + [a[0]] + a[1..] == before + a;
      SendsAppend(before + [a[0]], a[1..], b);
    }
  }

  lemma {:induction false} LastFinishAppend(a: seq<Sent>, b: seq<Sent>)
    ensures LastFinish(a + b) == if LastFinish(b).Some? then LastFinish(b) else LastFinish(a)
    decreases |b|
  {
    if b == [] {
      assert a + b == a;
    } else {
      assert (a + b)[..|a + b| - 1] == a + b[..|b| - 1];
      LastFinishAppend(a, b[..|b| - 1]);
    }
  }

  lemma {:induction false} NothingFinishes(before: seq<AnthropicEvent>, events: seq<AnthropicEvent>)
    requires NoMessageDelta(events)
    ensures LastFinish(Sends(before, events)) == None
    decreases |events|
  {
    if events != [] {
      var calls := Calls(before, events[0]);
      if !events[0].Failure? {
        NothingFinishes(before + [events[0]], events[1..]);
      }
      LastFinishAppend(calls, if events[0].Failure? then [] else Sends(before + [events[0]], events[1..]));
      OneFinish(calls);
    }
  }

  lemma OneFinish(sends: seq<Sent>)
    requires |sends| <= 1
    ensures LastFinish(sends) == if sends != [] && sends[0].Says? && sends[0].chunk.FinishChunk? then Some(sends[0].chunk) else None
  {
    if sends != [] {
      assert sends[..0] == [];
    }
  }

  /** The client is told last what the last `message_delta` says, with the counts of the `message_start` before it. */
  lemma FinishIsOfLastDelta(front: seq<AnthropicEvent>, reason: string, output: Option<real>, rest: seq<AnthropicEvent>)
    requires NoFailure(front) && NoMessageDelta(rest)
    ensures LastFinish(Sends([], front + ([MessageDelta(reason, output)] + rest))) ==
            Some(FinishChunk(
              if reason == "" then None else Some(if reason == "tool_use" then "tool_calls" else if reason == "max_tokens" then "length" else "stop"),
              if output.None? then None
              else Some(Tokens(Announced(front).input, Truncated(output.value), Announced(front).cached, Announced(front).cacheWrite))))
  {
    var delta := MessageDelta(reason, output);
    assert [] + front == front;
    SendsAppend([], front, [delta] + rest);
    SendsCons(front, delta, rest);
    NothingFinishes(front + [delta], rest);
    OneFinish(Calls(front, delta));
    LastFinishAppend(Calls(front, delta), Sends(front + [delta], rest));
    LastFinishAppend(Sends([], front), Sends(front, [delta] + rest));
  }

  // ----- Whole streams: tool arguments of Anthropic blocks ----------------------

  lemma OpenedGrows(events: seq<AnthropicEvent>, i: nat, j: nat)
    requires i <= j <= |events|
    ensures Opened(events[..i]) <= Opened(events[..j])
    ensures |Opened(events[..i])| <= |Opened(events[..j])|
  {
    forall b | b in Opened(events[..i])
      ensures b in Opened(events[..j])
    {
      var k :| 0 <= k < i && events[..i][k].ToolBlock? && Truncated(events[..i][k].index) == b;
      assert events[..j][k] == events[..i][k];
    }
    SubsetIsSmaller(Opened(events[..i]), Opened(events[..j]));
  }

  lemma SubsetIsSmaller(a: set<int>, b: set<int>)
    requires a <= b
    ensures |a| <= |b|
  {
    assert a + (b - a) == b && a * (b - a) == {};
  }

  /** Event `j` opens a block that was not open. */
  predicate OpensNew(events: seq<AnthropicEvent>, j: nat)
    requires j < |events|
  {
    events[j].ToolBlock? && Truncated(events[j].index) !in Opened(events[..j])
  }

  lemma NewTakesASlot(events: seq<AnthropicEvent>, j: nat)
    requires j < |events| && events[j].ToolBlock?
    ensures |Opened(events[..j + 1])| == Slot(events, j) + if OpensNew(events, j) then 1 else 0
  {
    assert events[..j + 1] == events[..j] + [events[j]];
    OpenedSnoc(events[..j], events[j]);
    if !OpensNew(events, j) {
      assert Opened(events[..j]) + {Truncated(events[j].index)} == Opened(events[..j]);
    }
  }

  /** Two tools share an index exactly if a block is opened again and another one follows. */
  lemma SlotsApartIff(events: seq<AnthropicEvent>)
    ensures (forall i, j :: 0 <= i < j < |events| && events[i].ToolBlock? && events[j].ToolBlock? ==> Slot(events, i) != Slot(events, j)) <==>
            (forall i, j :: 0 <= i < j < |events| && events[i].ToolBlock? && events[j].ToolBlock? ==> OpensNew(events, i))
  {
    forall i: nat, j: nat | i < j < |events| && events[i].ToolBlock? && events[j].ToolBlock? && OpensNew(events, i)
      ensures Slot(events, i) < Slot(events, j)
    {
      NewTakesASlot(events, i);
      OpenedGrows(events, i + 1, j);
    }
    forall i: nat, j: nat | i < j < |events| && events[i].ToolBlock? && events[j].ToolBlock? && !OpensNew(events, i)
      ensures exists k :: i < k < |events| && events[k].ToolBlock? && Slot(events, i) == Slot(events, k)
    {
      NewTakesASlot(events, i);
      var k := NextBlock(events, i + 1, j);
    }
  }

  lemma {:induction false} NextBlock(events: seq<AnthropicEvent>, i: nat, j: nat) returns (k: nat)
    requires i <= j < |events| && events[j].ToolBlock?
    ensures i <= k <= j && events[k].ToolBlock? && Opened(events[..k]) == Opened(events[..i])
    decreases j - i
  {
    if events[i].ToolBlock? {
      k := i;
    } else {
      k := NextBlock(events, i + 1, j);
      assert events[..i + 1] == events[..i] + [events[i]];
      OpenedSnoc(events[..i], events[i]);
    }
  }

  /** Every block is opened once, and before its arguments come. */
  ghost predicate WellOpened(events: seq<AnthropicEvent>) {
    && (forall i :: 0 <= i < |events| && events[i].ToolBlock? ==> OpensNew(events, i))
    && (forall i :: 0 <= i < |events| && events[i].JsonDelta? ==> Truncated(events[i].index) in Opened(events[..i]))
  }

  /** The arguments sent under one index. */
  function ArgsUnder(sends: seq<Sent>, slot: nat): string {
    if sends == [] then ""
    else (if sends[0].Says? && sends[0].chunk.ToolArgs? && sends[0].chunk.index == slot then sends[0].chunk.json else "") + ArgsUnder(sends[1..], slot)
  }

  /** The fragments that the upstream gives for one block before the first error. */
  function Fragments(events: seq<AnthropicEvent>, block: int): string {
    if events == [] || events[0].Failure? then ""
    else (if events[0].JsonDelta? && Truncated(events[0].index) == block then events[0].json else "") + Fragments(events[1..], block)
  }

  lemma {:induction false} ArgsAppend(a: seq<Sent>, b: seq<Sent>, slot: nat)
    ensures ArgsUnder(a + b, slot) == ArgsUnder(a, slot) + ArgsUnder(b, slot)
  {
    if a == [] {
      assert a + b == b;
    } else {
      assert (a + b)[1..] == a[1..] + b;
      ArgsAppend(a[1..], b, slot);
    }
  }

  lemma {:induction false} LastOpeningOpens(events: seq<AnthropicEvent>, b: int)
    requires b in Opened(events)
    ensures LastOpening(events, b).Some?
    ensures var j := LastOpening(events, b).value; j < |events| && events[j].ToolBlock? && Truncated(events[j].index) == b
  {
    if events != [] {
      var before, event := events[..|events| - 1], events[|events| - 1];
      assert events == before + [event];
      OpenedSnoc(before, event);
      if !(event.ToolBlock? && Truncated(event.index) == b) {
        LastOpeningOpens(before, b);
      }
    }
  }

  /** The arguments of one event go under the index of its block, and under no other. */
  lemma OneFragment(before: seq<AnthropicEvent>, events: seq<AnthropicEvent>, j: nat)
    requires events != [] && WellOpened(before + events) && j < |before + events| && (before + events)[j].ToolBlock?
    ensures var all := before + events;
            ArgsUnder(Calls(before, events[0]), Slot(all, j)) ==
            if events[0].JsonDelta? && Truncated(events[0].index) == Truncated(all[j].index) then events[0].json else ""
  {
    var all, event, calls := before + events, events[0], Calls(before, events[0]);
    assert all[..|before|] == before && all[|before|] == event;
    if calls != [] {
      assert calls[1..] == [];
      assert ArgsUnder([], Slot(all, j)) == "";
    }
    if event.JsonDelta? {
      var b := Truncated(event.index);
      LastOpeningOpens(before, b);
      var i := LastOpening(before, b).value;
      assert all[..i] == before[..i] && all[i] == before[i];
      SameSlotSameBlock(all, i, j);
    }
  }

  lemma SameSlotSameBlock(events: seq<AnthropicEvent>, i: nat, j: nat)
    requires WellOpened(events) && i < |events| && j < |events| && events[i].ToolBlock? && events[j].ToolBlock?
    ensures Slot(events, i) == Slot(events, j) <==> i == j
    ensures Truncated(events[i].index) == Truncated(events[j].index) <==> i == j
  {
    if i < j {
      BlocksApart(events, i, j);
    } else if j < i {
      BlocksApart(events, j, i);
    }
  }

  lemma BlocksApart(events: seq<AnthropicEvent>, i: nat, j: nat)
    requires i < j < |events| && events[i].ToolBlock? && OpensNew(events, i) && OpensNew(events, j)
    ensures Slot(events, i) < Slot(events, j) && Truncated(events[i].index) != Truncated(events[j].index)
  {
    NewTakesASlot(events, i);
    OpenedGrows(events, i + 1, j);
    assert events[..j][i] == events[i];
  }

  lemma FragmentsGoOn(before: seq<AnthropicEvent>, event: AnthropicEvent, events: seq<AnthropicEvent>, slot: nat, block: int)
    requires ArgsUnder(Calls(before, event), slot) == if event.JsonDelta? && Truncated(event.index) == block then event.json else ""
    requires !event.Failure? ==> ArgsUnder(Sends(before + [event], events), slot) == Fragments(events, block)
    ensures ArgsUnder(Sends(before, [event] + events), slot) == Fragments([event] + events, block)
  {
    SendsCons(before, event, events);
    ArgsAppend(Calls(before, event), if event.Failure? then [] else Sends(before + [event], events), slot);
    assert ([event] + events)[1..] == events;
    assert ArgsUnder([], slot) == "";
  }

  lemma SendsCons(before: seq<AnthropicEvent>, event: AnthropicEvent, events: seq<AnthropicEvent>)
    ensures Sends(before, [event] + events) == Calls(before, event) + if event.Failure? then [] else Sends(before + [event], events)
  {
    assert ([event] + events)[1..] == events;
  }

  /** A well-opened stream: the arguments sent under the index of a tool are the fragments of its block, in order. */
  lemma {:induction false} ArgsReachTheirTool(before: seq<AnthropicEvent>, events: seq<AnthropicEvent>, j: nat)
    requires WellOpened(before + events) && j < |before + events| && (before + events)[j].ToolBlock?
    ensures var all := before + events;
            ArgsUnder(Sends(before, events), Slot(all, j)) == Fragments(events, Truncated(all[j].index))
    decreases |events|
  {
    if events != [] {
      var all, event, rest := before + events, events[0], events[1..];
      assert events == [event] + rest;
      OneFragment(before, events, j);
      assert (before + [event]) + rest == all;
      ArgsReachTheirTool(before + [event], rest, j);
      FragmentsGoOn(before, event, rest, Slot(all, j), Truncated(all[j].index));
    }
  }

  // ----- Whole streams: tool arguments of Gemini calls --------------------------

  /** All tool calls of a stream of events, in order. */
  function CallsGiven(events: seq<GeminiEvent>): seq<Call> {
    if events == [] then []
    else CallsGiven(events[..|events| - 1]) + if events[|events| - 1].GeminiFailure? then [] else PartCalls(events[|events| - 1].parts)
  }

  /** Over a whole stream each delta carries the arguments of its call, and the name where it opens the tool. */
  lemma {:induction false} DeltasCarryTheirCalls(codec: Codec, events: seq<GeminiEvent>)
    ensures AllCarried(StreamCalls(codec, events), CallsGiven(events))
  {
    if events != [] {
      var before, event := events[..|events| - 1], events[|events| - 1];
      DeltasCarryTheirCalls(codec, before);
      if event.Candidate? {
        GatherMeans(StreamState(codec, before), Truncated(event.index), event.parts, |event.parts|);
        assert event.parts[..|event.parts|] == event.parts;
      }
    }
  }

  /** The arguments sent under index `n`, and those given for one key. */
  function DeltaArgs(deltas: seq<ToolDelta>, n: nat): string {
    if deltas == [] then "" else DeltaArgs(deltas[..|deltas| - 1], n) + if deltas[|deltas| - 1].index == n then deltas[|deltas| - 1].args else ""
  }

  function KeyArgs(keys: seq<ToolKey>, calls: seq<Call>, key: ToolKey): string
    requires |keys| == |calls|
  {
    if keys == [] then ""
    else KeyArgs(keys[..|keys| - 1], calls[..|calls| - 1], key) + if keys[|keys| - 1] == key then calls[|calls| - 1].args else ""
  }

  lemma {:induction false} ArgsByKey(order: seq<ToolKey>, keys: seq<ToolKey>, deltas: seq<ToolDelta>, calls: seq<Call>, n: nat)
    requires |deltas| == |keys| == |calls| && n < |order|
    requires forall i, j :: 0 <= i < j < |order| ==> order[i] != order[j]
    requires forall i :: 0 <= i < |keys| ==> deltas[i].index < |order| && order[deltas[i].index] == keys[i] && deltas[i].args == calls[i].args
    ensures DeltaArgs(deltas, n) == KeyArgs(keys, calls, order[n])
    decreases |keys|
  {
    if keys != [] {
      var k := |keys| - 1;
      ArgsByKey(order, keys[..k], deltas[..k], calls[..k], n);
      assert deltas[k].index == n <==> keys[k] == order[n];
    }
  }

  /** The arguments sent under an index are those given for the tool that it stands for. */
  lemma GeminiArgsReachTheirTool(codec: Codec, events: seq<GeminiEvent>, n: nat)
    requires n < |Order(StreamKeys(events))|
    ensures |StreamKeys(events)| == |CallsGiven(events)|
    ensures DeltaArgs(StreamCalls(codec, events), n) == KeyArgs(StreamKeys(events), CallsGiven(events), Order(StreamKeys(events))[n])
  {
    var keys, deltas := StreamKeys(events), StreamCalls(codec, events);
    ToolIndicesByFirstAppearance(codec, events);
    DeltasCarryTheirCalls(codec, events);
    forall i | 0 <= i < |keys|
      ensures deltas[i].index < |Order(keys)| && Order(keys)[deltas[i].index] == keys[i] && deltas[i].args == CallsGiven(events)[i].args
    {
      assert Names(Order(keys), keys[i], deltas[i], IsFirst(keys, i)) && Carries(deltas[i], CallsGiven(events)[i]);
    }
    ArgsByKey(Order(keys), keys, deltas, CallsGiven(events), n);
  }
}
