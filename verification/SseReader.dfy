/**
 * The reader itself: a buffered source that hands out arbitrary chunks, the line
 * loop and the frame loop, proved to return what the bytes alone determine.
 */
module SseReader {
  import opened Base
  import opened Sse

  datatype Slice = Delimited | BufferFull | SourceEnd

  datatype LineResult = GotLine(start: nat) | NoLine(error: ReadError)

  datatype Result = GotFrame(frame: Frame) | NoFrame(error: ReadError)

  function Clamp(maxBytes: int): (max: nat)
    ensures 0 < max <= DEFAULT_MAX && (0 < maxBytes <= DEFAULT_MAX ==> max == maxBytes)
  {
    if maxBytes <= 0 || maxBytes > DEFAULT_MAX then DEFAULT_MAX else maxBytes
  }

  lemma {:induction false} AfterLFShift(s: Bytes, k: nat, i: nat)
    requires k <= i <= |s|
    ensures AfterLF(s[k..], i - k) == if AfterLF(s, i) == 0 then 0 else AfterLF(s, i) - k
    decreases |s| - i
  {
    if i < |s| {
      assert s[k..][i - k] == s[i];
      if s[i] != LF {
        AfterLFShift(s, k, i + 1);
      }
    }
  }

  // ----- What the frame loop has seen ------------------------------------------

  datatype Seen = Seen(raw: Bytes, data: seq<Bytes>, events: seq<Bytes>, comments: bool)

  const NOTHING := Seen([], [], [], true)

  function Add(seen: Seen, line: Bytes): Seen {
    var c := Content(line);
    Seen(seen.raw + line, seen.data + ValuesOf(c, DATA), seen.events + ValuesOf(c, EVENT), seen.comments && IsComment(c))
  }

  function AddAll(seen: Seen, lines: Lines): Seen
    decreases lines
  {
    match lines
    case Nil => seen
    case Cons(line, more) => AddAll(Add(seen, line), more)
  }

  function FrameOf(seen: Seen, end: Bytes): Frame {
    Frame(LastOf(seen.events), Join(seen.data), seen.raw + end, seen.comments)
  }

  /** What becomes of the frame begun with `seen`, if `scan` and then `tail` is what follows. */
  function Conclude(scan: Scan, tail: Bytes, final: Ending, seen: Seen): Step {
    match scan
    case Found(_, body, end, rest) => Got(FrameOf(AddAll(seen, body), end), Concat(rest) + tail)
    case Ended(_, body) => Stop(EndError(final, |AddAll(seen, body).raw| + |tail|))
    case Over => Stop(TooLarge)
  }

  lemma {:induction false} AddAllRaw(seen: Seen, lines: Lines)
    ensures AddAll(seen, lines).raw == seen.raw + Concat(lines)
    ensures AddAll(seen, lines).comments == (seen.comments && AllComments(lines))
    decreases lines
  {
    if lines.Cons? {
      AddAllRaw(Add(seen, lines.line), lines.more);
      assert seen.raw + lines.line + Concat(lines.more) == seen.raw + (lines.line + Concat(lines.more));
    }
  }

  lemma {:induction false} AddAllData(seen: Seen, lines: Lines)
    ensures AddAll(seen, lines).data == seen.data + Values(lines, DATA)
    decreases lines
  {
    if lines.Cons? {
      AddAllData(Add(seen, lines.line), lines.more);
      Associate(seen.data, ValuesOf(Content(lines.line), DATA), Values(lines.more, DATA));
    }
  }

  lemma {:induction false} AddAllEvents(seen: Seen, lines: Lines)
    ensures AddAll(seen, lines).events == seen.events + Values(lines, EVENT)
    decreases lines
  {
    if lines.Cons? {
      AddAllEvents(Add(seen, lines.line), lines.more);
      Associate(seen.events, ValuesOf(Content(lines.line), EVENT), Values(lines.more, EVENT));
    }
  }

  lemma ConcludesNothing(scan: Scan, tail: Bytes, final: Ending)
    ensures Conclude(scan, tail, final, NOTHING) == Outcome(scan, tail, final)
  {
    if !scan.Over? {
      var b := scan.body;
      AddAllRaw(NOTHING, b);
      AddAllData(NOTHING, b);
      AddAllEvents(NOTHING, b);
      assert [] + Concat(b) == Concat(b) && [] + Values(b, DATA) == Values(b, DATA) && [] + Values(b, EVENT) == Values(b, EVENT);
    }
  }

  lemma ConcludeText(line: Bytes, scan: Scan, tail: Bytes, final: Ending, seen: Seen)
    ensures Conclude(WithText(line, scan), tail, final, seen) == Conclude(scan, tail, final, Add(seen, line))
  {
  }

  lemma ConcludeBlank(line: Bytes, scan: Scan, tail: Bytes, final: Ending)
    ensures Conclude(WithBlank(line, scan), tail, final, NOTHING) == Conclude(scan, tail, final, NOTHING)
  {
  }

  /** What the frame begun with `seen` comes to, if these lines and then `tail` follow. */
  function Todo(lines: Lines, tail: Bytes, max: nat, final: Ending, seen: Seen): Step {
    Conclude(ScanLines(lines, |tail|, max, |seen.raw|), tail, final, seen)
  }

  /** Starting from nothing, the loop heads for the specified result. */
  lemma TodoFromNothing(s: Bytes, lines: Lines, tail: Bytes, max: nat, final: Ending)
    requires Chop(s) == Chopped(lines, tail)
    ensures Todo(lines, tail, max, final, NOTHING) == Split(s, final, max)
  {
    var scan := ScanLines(lines, |tail|, max, 0);
    ConcludesNothing(scan, tail, final);
    SplitBy(s, final, max, lines, tail, scan);
  }

  /** One text line more, and the values it gave. */
  lemma TextStep(line: Bytes, more: Lines, tail: Bytes, max: nat, final: Ending, seen: Seen, seen': Seen)
    requires ContentLength(line) > 0 && |seen.raw| + |line| <= max && seen' == Add(seen, line)
    ensures Todo(Cons(line, more), tail, max, final, seen) == Todo(more, tail, max, final, seen')
  {
    var scan := ScanLines(more, |tail|, max, |seen.raw| + |line|);
    assert |seen'.raw| == |seen.raw| + |line|;
    ConcludeText(line, scan, tail, final, seen);
  }

  /** A blank line closes what was begun and is skipped otherwise. */
  lemma BlankStep(line: Bytes, more: Lines, tail: Bytes, max: nat, final: Ending, seen: Seen)
    requires ContentLength(line) == 0 && |seen.raw| + |line| <= max
    ensures seen == NOTHING ==> Todo(Cons(line, more), tail, max, final, seen) == Todo(more, tail, max, final, seen)
    ensures seen.raw != [] ==> Todo(Cons(line, more), tail, max, final, seen) == Got(FrameOf(seen, line), Concat(more) + tail)
  {
    if seen == NOTHING {
      ConcludeBlank(line, ScanLines(more, |tail|, max, 0), tail, final);
    }
  }

  /** The first line of some bytes is the first of their lines. */
  lemma ChopStep(s: Bytes)
    requires LineLength(s) > 0
    ensures var n := LineLength(s);
            Chop(s) == Chopped(Cons(s[..n], Chop(s[n..]).lines), Chop(s[n..]).tail)
  {
  }

  /** With no further line within the limit, the frame loop stops. */
  lemma StopStep(s: Bytes, lines: Lines, tail: Bytes, max: nat, final: Ending, seen: Seen)
    requires Chop(s) == Chopped(lines, tail)
    requires var n := LineLength(s); n == 0 || |seen.raw| + n > max
    ensures Todo(lines, tail, max, final, seen) ==
            Stop(if LineLength(s) > 0 || |seen.raw| + |s| > max then TooLarge else EndError(final, |seen.raw| + |s|))
  {
  }

  class SSEReader {
    const input: Bytes
    const final: Ending
    const max: nat
    var pos: nat

    ghost predicate Valid()
      reads this
    {
      pos <= |input|
    }

    /** The bytes not yet read. */
    function Rest(): Bytes
      requires Valid()
      reads this
    {
      input[pos..]
    }

    constructor (input: Bytes, final: Ending, maxBytes: int)
      ensures Valid() && this.input == input && this.final == final && max == Clamp(maxBytes) && pos == 0
    {
      this.input, this.final, max, pos := input, final, Clamp(maxBytes), 0;
    }

    /** A run of bytes up to LF, up to a full buffer of any size, or up to the end. */
    method ReadSlice() returns (part: Bytes, slice: Slice)
      requires Valid()
      modifies this
      ensures Valid() && old(pos) <= pos && part == input[old(pos)..pos]
      ensures slice.Delimited? ==> pos == AfterLF(input, old(pos)) && pos > 0
      ensures !slice.Delimited? ==> AfterLF(input, pos) == AfterLF(input, old(pos))
      ensures slice.BufferFull? ==> pos > old(pos)
      ensures slice.SourceEnd? ==> pos == |input|
    {
      var start := pos;
      var capacity: nat :| capacity > 0;
      while pos < |input| && input[pos] != LF && pos - start < capacity
        invariant start <= pos <= |input| && pos - start <= capacity && AfterLF(input, pos) == AfterLF(input, start)
      {
        pos := pos + 1;
      }
      if pos < |input| && pos - start < capacity {
        pos := pos + 1;
        return input[start..pos], Delimited;
      }
      return input[start..pos], if pos - start == capacity then BufferFull else SourceEnd;
    }

    /** Appends the next line to `raw`; the limit is checked chunk by chunk, with the same result. */
    method ReadLine(raw: Bytes) returns (raw': Bytes, r: LineResult)
      requires Valid() && |raw| <= max
      modifies this
      ensures Valid() && old(pos) <= pos
      ensures var s := old(Rest()); var n := LineLength(s);
              if n > 0 && |raw| + n <= max then r == GotLine(|raw|) && raw' == raw + s[..n] && Rest() == s[n..]
              else if n > 0 || |raw| + |s| > max then r == NoLine(TooLarge) && |raw| + (pos - old(pos)) > max && (n > 0 ==> pos <= old(pos) + n)
              else r == NoLine(final) && raw' == raw + s && pos == |input|
    {
      var start := pos;
      raw' := raw;
      AfterLFShift(input, start, start);
      while true
        invariant Valid() && start <= pos && raw' == raw + input[start..pos] && |raw'| <= max
        invariant AfterLF(input, pos) == AfterLF(input, start)
        decreases |input| - pos
      {
        var from := pos;
        var part, slice := ReadSlice();
        if |raw'| + |part| > max {
          return raw', NoLine(TooLarge);
        }
        raw' := raw' + part;
        assert raw' == raw + input[start..pos];
        if slice.BufferFull? {
          continue;
        }
        if slice.SourceEnd? {
          return raw', NoLine(final);
        }
        assert input[start..pos] == input[start..][..pos - start] && input[pos..] == input[start..][pos - start..];
        return raw', GotLine(|raw|);
      }
    }

    /** The next frame or error, whatever the chunks were. */
    method Next() returns (r: Result)
      requires Valid()
      modifies this
      ensures Valid() && old(pos) <= pos
      ensures r == NoFrame(TooLarge) ==> pos - old(pos) > max
      ensures match Split(old(Rest()), final, max)
              case Got(frame, rest) => r == GotFrame(frame) && Rest() == rest
              case Stop(error) => r == NoFrame(error) && (error != TooLarge ==> Rest() == [])
    {
      var raw: Bytes := [];
      var fields := Fields([], [], false, false, false);
      ghost var seen, lines, tail := NOTHING, Chop(Rest()).lines, Chop(Rest()).tail;
      ghost var target := Split(Rest(), final, max);
      TodoFromNothing(Rest(), lines, tail, max, final);
      while true
        invariant Valid() && |raw| <= max && raw == seen.raw && |raw| <= pos - old(pos) && Chop(Rest()) == Chopped(lines, tail)
        invariant target == Todo(lines, tail, max, final, seen)
        invariant Tracks(seen, fields)
        decreases |input| - pos
      {
        var line;
        ghost var s := Rest();
        raw, line := ReadLine(raw);
        if line.NoLine? {
          StopStep(s, lines, tail, max, final, seen);
          return NoFrame(if line.error == EOF && |raw| > 0 then UnexpectedEOF else line.error);
        }
        ghost var whole := s[..LineLength(s)];
        ChopStep(s);
        lines := lines.more;
        assert raw[line.start..] == whole;
        var content := Content(raw[line.start..]);
        if content == [] {
          BlankStep(whole, lines, tail, max, final, seen);
          if !fields.sawData && !fields.sawComment && !fields.sawField {
            raw := [];
            continue;
          }
          ChopConcat(Rest());
          return GotFrame(Frame(fields.event, fields.data, raw, fields.sawComment && !fields.sawData && !fields.sawField));
        }
        TextStep(whole, lines, tail, max, final, seen, Add(seen, whole));
        fields := Note(fields, content, seen, whole);
        seen := Add(seen, whole);
      }
    }
  }

  /** The variables of the frame loop, besides the raw bytes. */
  datatype Fields = Fields(data: Bytes, event: Bytes, sawData: bool, sawComment: bool, sawField: bool)

  /** One line that is not blank: a comment, a data or event field, or a field that is ignored. */
  method Note(before: Fields, content: Bytes, ghost seen: Seen, ghost line: Bytes) returns (fields: Fields)
    requires content == Content(line) && content != [] && Tracks(seen, before)
    ensures Tracks(Add(seen, line), fields)
  {
    fields := before;
    if content[0] == COLON {
      TracksComment(seen, line, before);
      fields := fields.(sawComment := true);
      return;
    }
    TracksField(seen, line, before);
    var value := FieldValue(content);
    fields := fields.(sawField := true);
    if FieldName(content) == DATA {
      fields := fields.(data := if fields.sawData then fields.data + [LF] + value else fields.data + value, sawData := true);
    } else if FieldName(content) == EVENT {
      fields := fields.(event := value);
    }
  }

  /** The loop's variables hold what was seen. */
  ghost predicate Tracks(seen: Seen, f: Fields) {
    && f.data == Join(seen.data) && f.event == LastOf(seen.events)
    && (f.sawData <==> seen.data != []) && (f.sawData ==> f.sawField) && seen.comments == !f.sawField
    && (f.sawComment || f.sawField <==> seen.raw != [])
    && (seen.raw == [] ==> seen == NOTHING)
  }

  lemma TracksComment(seen: Seen, line: Bytes, f: Fields)
    requires Tracks(seen, f) && IsComment(Content(line))
    ensures Tracks(Add(seen, line), f.(sawComment := true))
  {
    assert seen.data + [] == seen.data && seen.events + [] == seen.events;
  }

  lemma JoinSnoc(values: seq<Bytes>, value: Bytes)
    ensures Join(values + [value]) == if values == [] then value else Join(values) + [LF] + value
  {
    assert (values + [value])[..|values|] == values;
  }

  lemma TracksValue(seen: Seen, seen': Seen, f: Fields, data: seq<Bytes>, events: seq<Bytes>)
    requires Tracks(seen, f) && |data| <= 1 && |events| <= 1
    requires seen'.data == seen.data + data && seen'.events == seen.events + events && !seen'.comments && seen'.raw != []
    ensures Tracks(seen', Fields(if data == [] then f.data else if f.sawData then f.data + [LF] + data[0] else f.data + data[0],
                                 if events == [] then f.event else events[0],
                                 f.sawData || data != [], f.sawComment, true))
  {
    assert seen.data + [] == seen.data && seen.events + [] == seen.events;
    if data != [] {
      assert data == [data[0]];
      JoinSnoc(seen.data, data[0]);
    }
  }

  lemma TracksField(seen: Seen, line: Bytes, f: Fields)
    requires Tracks(seen, f)
    requires Content(line) != [] && !IsComment(Content(line))
    ensures var name, value := FieldName(Content(line)), FieldValue(Content(line));
            Tracks(Add(seen, line),
                   Fields(if name == DATA then (if f.sawData then f.data + [LF] + value else f.data + value) else f.data,
                          if name == EVENT then value else f.event,
                          f.sawData || name == DATA, f.sawComment, true))
  {
    TracksValue(seen, Add(seen, line), f, ValuesOf(Content(line), DATA), ValuesOf(Content(line), EVENT));
  }
}
