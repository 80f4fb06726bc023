/**
 * Translation of native Anthropic and Gemini stream events into chat chunks.
 * JSON text is behind `Codec`; what the decoded events do is spelled out.
 */
module NativeTranslate {
  import opened Base
  import opened Sse

  datatype Protocol = OpenAI | Anthropic | Gemini

  /** Ids are the upstream's own, or made up as "call_<n>". */
  datatype ToolId = Given(text: string) | Numbered(n: nat)

  datatype Tool = Tool(id: ToolId, name: string, index: nat)

  datatype Tokens = Tokens(input: int, completion: int, cached: int, cacheWrite: int)

  type ToolKey = (int, nat)

  datatype State = State(tokens: Tokens, blocks: map<int, Tool>, calls: map<ToolKey, Tool>, nextCall: nat)

  const START := State(Tokens(0, 0, 0, 0), map[], map[], 0)

  /** A JSON number made an integer: the fraction is dropped, toward zero. */
  function Truncated(x: real): (n: int)
    ensures if x >= 0.0 then n as real <= x < n as real + 1.0 else n as real - 1.0 < x <= n as real
  {
    if x >= 0.0 then x.Floor else -(-x).Floor
  }

  datatype AnthropicEvent =
    | Failure(detail: string)
    | MessageStart(input: real, cached: real, cacheWrite: real)
    | ToolBlock(index: real, id: string, name: string)
    | TextDelta(text: string)
    | JsonDelta(index: real, json: string)
    | MessageDelta(stopReason: string, output: Option<real>)
    | MessageStop
    | Ignored

  datatype Call = Call(name: string, args: string)

  datatype Part = Part(text: string, call: Option<Call>)

  datatype GeminiUsage = GeminiUsage(prompt: Option<real>, candidates: Option<real>, total: real, cached: Option<real>)

  datatype GeminiEvent =
    | GeminiFailure(error: string)
    | Candidate(index: real, parts: seq<Part>, finishReason: string, usage: Option<GeminiUsage>)

  /** A tool call in a chunk; the id and name are given only once. */
  datatype ToolDelta = ToolDelta(index: nat, opening: Option<(ToolId, string)>, args: string)

  datatype Chunk =
    | ErrorChunk(detail: string)
    | OpenTool(tool: Tool)
    | TextChunk(text: string)
    | ToolArgs(index: nat, id: ToolId, json: string)
    | FinishChunk(reason: Option<string>, usage: Option<Tokens>)
    | CandidateChunk(content: string, calls: seq<ToolDelta>, finish: string, totals: Option<Tokens>)

  /** JSON text in and out: what the library makes of a payload, and the text of a chunk. */
  datatype Codec = Codec(anthropic: Bytes -> Option<AnthropicEvent>, gemini: Bytes -> Option<GeminiEvent>, encode: Chunk -> Bytes)

  predicate OneLine(p: Bytes) { p != [] && NoLF(p) && p[|p| - 1] != CR }

  /** What is sent for one frame: nothing, the frame as it came, or one event. */
  datatype Emission = Nothing | Same | Payload(payload: Bytes)

  datatype Translation = Translation(emission: Emission, next: State, failure: Option<string>)

  const DONE: Bytes := [91, 68, 79, 78, 69, 93]

  function Translate(codec: Codec, protocol: Protocol, st: State, frame: Frame): Translation {
    if frame.data == [] || protocol == OpenAI then Translation(Same, st, None)
    else if protocol == Anthropic then
      match codec.anthropic(frame.data)
      case None => Translation(Nothing, st, None)
      case Some(event) => TranslateAnthropic(codec, st, event)
    else
      match codec.gemini(frame.data)
      case None => Translation(Nothing, st, None)
      case Some(event) => TranslateGemini(codec, st, event)
  }

  function AnthropicFinish(reason: string): string {
    if reason == "tool_use" then "tool_calls" else if reason == "max_tokens" then "length" else "stop"
  }

  function TranslateAnthropic(codec: Codec, st: State, event: AnthropicEvent): Translation {
    match event
    case Failure(detail) => Translation(Payload(codec.encode(ErrorChunk(detail))), st, Some(detail))
    case MessageStart(input, cached, cacheWrite) =>
      Translation(Nothing, st.(tokens := st.tokens.(input := Truncated(input), cached := Truncated(cached), cacheWrite := Truncated(cacheWrite))), None)
    case ToolBlock(index, id, name) =>
      var tool := Tool(Given(id), name, |st.blocks|);
      Translation(Payload(codec.encode(OpenTool(tool))), st.(blocks := st.blocks[Truncated(index) := tool]), None)
    case TextDelta(text) =>
      Translation(if text == "" then Nothing else Payload(codec.encode(TextChunk(text))), st, None)
    case JsonDelta(index, json) =>
      var tool := if Truncated(index) in st.blocks then st.blocks[Truncated(index)] else Tool(Given(""), "", 0);
      Translation(Payload(codec.encode(ToolArgs(tool.index, tool.id, json))), st, None)
    case MessageDelta(reason, output) =>
      var finish := if reason == "" then None else Some(AnthropicFinish(reason));
      var usage := if output.Some? then Some(st.tokens.(completion := Truncated(output.value))) else None;
      Translation(Payload(codec.encode(FinishChunk(finish, usage))), st, None)
    case MessageStop => Translation(Payload(DONE), st, None)
    case Ignored => Translation(Nothing, st, None)
  }

  function GeminiFinish(reason: string): string {
    if reason == "" then "" else if reason == "MAX_TOKENS" then "length"
    else if reason in ["SAFETY", "RECITATION", "BLOCKLIST", "PROHIBITED_CONTENT", "SPII"] then "content_filter"
    else "stop"
  }

  function GeminiTokens(t: Tokens, u: GeminiUsage): Tokens {
    var input := if u.prompt.Some? then Truncated(u.prompt.value) else t.input;
    var completion :=
      if u.candidates.Some? then Truncated(u.candidates.value) else if u.total > 0.0 then Truncated(u.total) - input else t.completion;
    Tokens(input, completion, if u.cached.Some? then Truncated(u.cached.value) else t.cached, t.cacheWrite)
  }

  /** What the parts of one candidate add up to, after the first `n`. */
  datatype Gathered = Gathered(st: State, content: string, calls: seq<ToolDelta>)

  function Gather(st: State, candidate: int, parts: seq<Part>, n: nat): Gathered
    requires n <= |parts|
  {
    if n == 0 then Gathered(st, "", [])
    else
      var g := Gather(st, candidate, parts, n - 1);
      var part := parts[n - 1];
      var content := g.content + part.text;
      if part.call.None? then g.(content := content)
      else
        var (next, delta) := Announce(g.st, (candidate, n - 1), part.call.value);
        Gathered(next, content, g.calls + [delta])
  }

  /** A known call only sends its arguments; a new one gets the next index and opens with its id and name. */
  function Announce(st: State, key: ToolKey, call: Call): (State, ToolDelta) {
    if key in st.calls then (st, ToolDelta(st.calls[key].index, None, call.args))
    else
      var tool := Tool(Numbered(st.nextCall), call.name, st.nextCall);
      (st.(calls := st.calls[key := tool], nextCall := st.nextCall + 1),
       ToolDelta(tool.index, Some((tool.id, tool.name)), call.args))
  }

  function TranslateGemini(codec: Codec, st: State, event: GeminiEvent): Translation {
    match event
    case GeminiFailure(error) => Translation(Payload(codec.encode(ErrorChunk(error))), st, Some(error))
    case Candidate(index, parts, reason, usage) => FinishGemini(codec, Gather(st, Truncated(index), parts, |parts|), reason, usage)
  }

  function FinishGemini(codec: Codec, g: Gathered, reason: string, usage: Option<GeminiUsage>): Translation {
    var st := if usage.Some? then g.st.(tokens := GeminiTokens(g.st.tokens, usage.value)) else g.st;
    if g.content == "" && g.calls == [] && reason == "" && usage.None? then Translation(Nothing, st, None)
    else
      Translation(Payload(codec.encode(CandidateChunk(g.content, g.calls, GeminiFinish(reason),
                                                      if usage.Some? then Some(st.tokens) else None))), st, None)
  }

  /** The loop over the parts of a candidate. */
  method GatherParts(st: State, candidate: int, parts: seq<Part>) returns (g: Gathered)
    ensures g == Gather(st, candidate, parts, |parts|)
  {
    var next, content, calls := st, "", [];
    var i := 0;
    while i < |parts|
      invariant 0 <= i <= |parts| && Gathered(next, content, calls) == Gather(st, candidate, parts, i)
    {
      var part := parts[i];
      if part.text != "" {
        content := content + part.text;
      }
      if part.call.Some? {
        var key, call := (candidate, i), part.call.value;
        if key in next.calls {
          calls := calls + [ToolDelta(next.calls[key].index, None, call.args)];
        } else {
          var tool := Tool(Numbered(next.nextCall), call.name, next.nextCall);
          next := next.(calls := next.calls[key := tool], nextCall := next.nextCall + 1);
          calls := calls + [ToolDelta(tool.index, Some((tool.id, tool.name)), call.args)];
        }
      }
      i := i + 1;
    }
    return Gathered(next, content, calls);
  }

  // ----- Gemini tool indices over a whole stream -------------------------------

  /** The keys of the calls of one candidate, in order. */
  function KeysOf(candidate: int, parts: seq<Part>, n: nat): seq<ToolKey>
    requires n <= |parts|
  {
    if n == 0 then []
    else KeysOf(candidate, parts, n - 1) + if parts[n - 1].call.Some? then [(candidate, n - 1)] else []
  }

  function EventKeys(event: GeminiEvent): seq<ToolKey> {
    if event.GeminiFailure? then [] else KeysOf(Truncated(event.index), event.parts, |event.parts|)
  }

  /** All keys of a stream of events, all deltas sent for them, and the state reached. */
  function StreamKeys(events: seq<GeminiEvent>): seq<ToolKey> {
    if events == [] then [] else StreamKeys(events[..|events| - 1]) + EventKeys(events[|events| - 1])
  }

  function StreamState(codec: Codec, events: seq<GeminiEvent>): State {
    if events == [] then START
    else TranslateGemini(codec, StreamState(codec, events[..|events| - 1]), events[|events| - 1]).next
  }

  function StreamCalls(codec: Codec, events: seq<GeminiEvent>): seq<ToolDelta> {
    if events == [] then []
    else
      var st := StreamState(codec, events[..|events| - 1]);
      var event := events[|events| - 1];
      StreamCalls(codec, events[..|events| - 1]) +
      if event.GeminiFailure? then [] else Gather(st, Truncated(event.index), event.parts, |event.parts|).calls
  }

  /** The keys in the order in which they first appear. */
  function Order(keys: seq<ToolKey>): seq<ToolKey> {
    if keys == [] then []
    else
      var before := Order(keys[..|keys| - 1]);
      var key := keys[|keys| - 1];
      if key in before then before else before + [key]
  }

  predicate IsFirst(keys: seq<ToolKey>, i: nat)
    requires i < |keys|
  {
    forall j :: 0 <= j < i ==> keys[j] != keys[i]
  }

  /** The delta names its key by its place in `order`, and opens it if this is its first appearance. */
  predicate Names(order: seq<ToolKey>, key: ToolKey, delta: ToolDelta, first: bool) {
    && delta.index < |order| && order[delta.index] == key
    && (delta.opening.Some? <==> first)
    && (first ==> delta.opening.value.0 == Numbered(delta.index))
  }

  ghost predicate Indexed(keys: seq<ToolKey>, deltas: seq<ToolDelta>) {
    |deltas| == |keys| && forall i :: 0 <= i < |deltas| ==> Names(Order(keys), keys[i], deltas[i], IsFirst(keys, i))
  }

  /** The translator's table after `order`. */
  ghost predicate Registered(st: State, order: seq<ToolKey>) {
    && st.nextCall == |order|
    && (forall k :: k in order <==> k in st.calls)
    && (forall k :: k in st.calls ==> st.calls[k].index < |order| && order[st.calls[k].index] == k)
  }

  lemma OrderSnoc(keys: seq<ToolKey>, key: ToolKey)
    ensures Order(keys + [key]) == if key in Order(keys) then Order(keys) else Order(keys) + [key]
  {
    assert (keys + [key])[..|keys|] == keys;
  }

  lemma {:induction false} OrderCovers(keys: seq<ToolKey>, key: ToolKey)
    ensures key in Order(keys) <==> key in keys
  {
    if keys != [] {
      var before := keys[..|keys| - 1];
      assert keys == before + [keys[|keys| - 1]];
      OrderCovers(before, key);
    }
  }

  lemma {:induction false} OrderHasNoDuplicates(keys: seq<ToolKey>)
    ensures forall i, j :: 0 <= i < j < |Order(keys)| ==> Order(keys)[i] != Order(keys)[j]
  {
    if keys != [] {
      OrderHasNoDuplicates(keys[..|keys| - 1]);
    }
  }

  lemma AnnounceRegisters(st: State, order: seq<ToolKey>, key: ToolKey, call: Call)
    requires Registered(st, order)
    ensures var (st', delta) := Announce(st, key, call);
            var order' := if key in order then order else order + [key];
            Registered(st', order') && Names(order', key, delta, key !in order)
  {
  }

  lemma NamesMore(order: seq<ToolKey>, order': seq<ToolKey>, key: ToolKey, delta: ToolDelta, first: bool)
    requires Names(order, key, delta, first) && |order| <= |order'| && order == order'[..|order|]
    ensures Names(order', key, delta, first)
  {
    assert order[delta.index] == order'[..|order|][delta.index];
  }

  lemma FirstStays(keys: seq<ToolKey>, key: ToolKey, i: nat)
    requires i < |keys|
    ensures (keys + [key])[i] == keys[i] && (IsFirst(keys + [key], i) <==> IsFirst(keys, i))
  {
    assert forall j :: 0 <= j <= i ==> (keys + [key])[j] == keys[j];
  }

  lemma LastIsFirst(keys: seq<ToolKey>, key: ToolKey)
    ensures IsFirst(keys + [key], |keys|) <==> key !in keys
  {
    assert forall j :: 0 <= j < |keys| ==> (keys + [key])[j] == keys[j];
  }

  lemma AnnounceKeeps(st: State, keys: seq<ToolKey>, deltas: seq<ToolDelta>, key: ToolKey, call: Call, keys': seq<ToolKey>, deltas': seq<ToolDelta>)
    requires Indexed(keys, deltas) && Registered(st, Order(keys))
    requires keys' == keys + [key] && deltas' == deltas + [Announce(st, key, call).1]
    ensures Indexed(keys', deltas') && Registered(Announce(st, key, call).0, Order(keys'))
  {
    AnnounceRegisters(st, Order(keys), key, call);
    OrderSnoc(keys, key);
    OrderCovers(keys, key);
    IndexedMore(keys, deltas, key, Announce(st, key, call).1);
  }

  lemma IndexedMore(keys: seq<ToolKey>, deltas: seq<ToolDelta>, key: ToolKey, delta: ToolDelta)
    requires Indexed(keys, deltas) && Names(Order(keys + [key]), key, delta, key !in keys)
    ensures Indexed(keys + [key], deltas + [delta])
  {
    var keys', deltas' := keys + [key], deltas + [delta];
    OrderSnoc(keys, key);
    LastIsFirst(keys, key);
    forall i | 0 <= i < |deltas'|
      ensures Names(Order(keys'), keys'[i], deltas'[i], IsFirst(keys', i))
    {
      if i < |deltas| {
        FirstStays(keys, key, i);
        NamesMore(Order(keys), Order(keys'), keys[i], deltas[i], IsFirst(keys, i));
      }
    }
  }

  lemma GatherNext(st: State, keys: seq<ToolKey>, deltas: seq<ToolDelta>, candidate: int, parts: seq<Part>, n: nat)
    requires n < |parts|
    ensures var g, g', key, call := Gather(st, candidate, parts, n), Gather(st, candidate, parts, n + 1), (candidate, n), parts[n].call;
            var keys', deltas' := keys + KeysOf(candidate, parts, n), deltas + g.calls;
            if call.None? then g'.st == g.st && keys + KeysOf(candidate, parts, n + 1) == keys' && deltas + g'.calls == deltas'
            else
              var (st', delta) := Announce(g.st, key, call.value);
              g'.st == st' && keys + KeysOf(candidate, parts, n + 1) == keys' + [key] && deltas + g'.calls == deltas' + [delta]
  {
  }

  /** The table and the deltas are as they should be after `keys`. */
  ghost predicate Kept(st: State, keys: seq<ToolKey>, deltas: seq<ToolDelta>) { Indexed(keys, deltas) && Registered(st, Order(keys)) }

  lemma GatherStep(st: State, keys: seq<ToolKey>, deltas: seq<ToolDelta>, candidate: int, parts: seq<Part>, n: nat)
    requires n < |parts|
    requires Kept(Gather(st, candidate, parts, n).st, keys + KeysOf(candidate, parts, n), deltas + Gather(st, candidate, parts, n).calls)
    ensures Kept(Gather(st, candidate, parts, n + 1).st, keys + KeysOf(candidate, parts, n + 1), deltas + Gather(st, candidate, parts, n + 1).calls)
  {
    GatherNext(st, keys, deltas, candidate, parts, n);
    var keys1, deltas1 := keys + KeysOf(candidate, parts, n), deltas + Gather(st, candidate, parts, n).calls;
    var keys2, deltas2 := keys + KeysOf(candidate, parts, n + 1), deltas + Gather(st, candidate, parts, n + 1).calls;
    if parts[n].call.Some? {
      AnnounceKeeps(Gather(st, candidate, parts, n).st, keys1, deltas1, (candidate, n), parts[n].call.value, keys2, deltas2);
    }
  }

  lemma {:induction false} GatherKeeps(st: State, keys: seq<ToolKey>, deltas: seq<ToolDelta>, candidate: int, parts: seq<Part>, n: nat)
    requires n <= |parts| && Kept(st, keys, deltas)
    ensures Kept(Gather(st, candidate, parts, n).st, keys + KeysOf(candidate, parts, n), deltas + Gather(st, candidate, parts, n).calls)
  {
    if n == 0 {
      assert keys + [] == keys && deltas + [] == deltas;
    } else {
      GatherKeeps(st, keys, deltas, candidate, parts, n - 1);
      GatherStep(st, keys, deltas, candidate, parts, n - 1);
    }
  }

  lemma {:induction false} StreamIndexes(codec: Codec, events: seq<GeminiEvent>)
    ensures Indexed(StreamKeys(events), StreamCalls(codec, events))
    ensures Registered(StreamState(codec, events), Order(StreamKeys(events)))
  {
    if events != [] {
      var before, event := events[..|events| - 1], events[|events| - 1];
      StreamIndexes(codec, before);
      var st, keys, calls := StreamState(codec, before), StreamKeys(before), StreamCalls(codec, before);
      if event.Candidate? {
        GatherKeeps(st, keys, calls, Truncated(event.index), event.parts, |event.parts|);
      } else {
        assert keys + [] == keys && calls + [] == calls;
      }
    }
  }

  lemma {:induction false} FirstAppearance(keys: seq<ToolKey>, key: ToolKey) returns (i: nat)
    requires key in keys
    ensures i < |keys| && keys[i] == key && IsFirst(keys, i)
    decreases |keys|
  {
    var before := keys[..|keys| - 1];
    if key in before {
      i := FirstAppearance(before, key);
    } else {
      i := |before|;
      assert forall j :: 0 <= j < i ==> keys[j] == before[j];
    }
  }

  /** The delta at `i` opens tool number `n`. */
  predicate OpensAt(calls: seq<ToolDelta>, i: nat, n: nat) {
    i < |calls| && calls[i].opening.Some? && calls[i].opening.value.0 == Numbered(n)
  }

  /** Every tool is opened ... */
  lemma EachToolIsOpened(codec: Codec, events: seq<GeminiEvent>, n: nat) returns (i: nat)
    requires n < |Order(StreamKeys(events))|
    ensures OpensAt(StreamCalls(codec, events), i, n)
  {
    var keys := StreamKeys(events);
    StreamIndexes(codec, events);
    OrderCovers(keys, Order(keys)[n]);
    OrderHasNoDuplicates(keys);
    i := FirstAppearance(keys, Order(keys)[n]);
    assert Names(Order(keys), keys[i], StreamCalls(codec, events)[i], true);
  }

  /** ... and only once. */
  lemma NoToolIsOpenedTwice(codec: Codec, events: seq<GeminiEvent>, i: nat, j: nat, n: nat)
    requires OpensAt(StreamCalls(codec, events), i, n) && OpensAt(StreamCalls(codec, events), j, n)
    ensures i == j
  {
    var keys, calls := StreamKeys(events), StreamCalls(codec, events);
    StreamIndexes(codec, events);
    assert Names(Order(keys), keys[i], calls[i], IsFirst(keys, i)) && Names(Order(keys), keys[j], calls[j], IsFirst(keys, j));
  }

  /** Over a whole stream the indices are 0, 1, 2, ... by first appearance, and each id is sent exactly once. */
  lemma ToolIndicesByFirstAppearance(codec: Codec, events: seq<GeminiEvent>)
    ensures var keys, calls := StreamKeys(events), StreamCalls(codec, events);
            && Indexed(keys, calls)
            && (forall i, j :: 0 <= i < j < |Order(keys)| ==> Order(keys)[i] != Order(keys)[j])
            && (forall i, j: nat, n: nat :: OpensAt(calls, i, n) && OpensAt(calls, j, n) ==> i == j)
  {
    StreamIndexes(codec, events);
    OrderHasNoDuplicates(StreamKeys(events));
    forall i: nat, j: nat, n: nat | OpensAt(StreamCalls(codec, events), i, n) && OpensAt(StreamCalls(codec, events), j, n)
      ensures i == j
    {
      NoToolIsOpenedTwice(codec, events, i, j, n);
    }
  }
}
