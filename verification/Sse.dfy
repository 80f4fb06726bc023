/**
 * The byte-level reader of server-sent events: a specification that only looks
 * at the bytes, a declarative account of what it splits off, and the loop that
 * reads through a buffered source with arbitrary chunks.
 */
module Sse {
  import opened Base

  newtype byte = x: int | 0 <= x < 256
  type Bytes = seq<byte>

  const LF: byte := 10
  const CR: byte := 13
  const SPACE: byte := 32
  const COLON: byte := 58
  const DATA: Bytes := [100, 97, 116, 97]
  const EVENT: Bytes := [101, 118, 101, 110, 116]

  const DEFAULT_MAX: nat := 0x10_0000

  datatype ReadError = EOF | UnexpectedEOF | TooLarge | SourceFailed

  /** How the underlying source ends, once its bytes are used up. */
  type Ending = e: ReadError | e == EOF || e == SourceFailed witness EOF

  datatype Frame = Frame(event: Bytes, data: Bytes, raw: Bytes, comment: bool)

  datatype Step = Got(frame: Frame, rest: Bytes) | Stop(error: ReadError)

  datatype Lines = Nil | Cons(line: Bytes, more: Lines)

  // ----- Lines -----------------------------------------------------------------

  /** The position just after the first LF from `i` on; zero if there is none. */
  function AfterLF(s: Bytes, i: nat): (n: nat)
    requires i <= |s|
    ensures n == 0 || i < n <= |s|
    decreases |s| - i
  {
    if i == |s| then 0 else if s[i] == LF then i + 1 else AfterLF(s, i + 1)
  }

  /** Length of the first line with its LF; zero if the LF is missing. */
  function LineLength(s: Bytes): nat { AfterLF(s, 0) }

  predicate NoLF(s: Bytes) { LineLength(s) == 0 }

  predicate IsLine(line: Bytes) { |line| > 0 && LineLength(line) == |line| }

  lemma {:induction false} AfterLFMeans(s: Bytes, i: nat, n: nat)
    requires i <= |s|
    ensures AfterLF(s, i) == n <==>
            if n == 0 then forall j :: i <= j < |s| ==> s[j] != LF
            else i < n <= |s| && s[n - 1] == LF && forall j :: i <= j < n - 1 ==> s[j] != LF
    decreases |s| - i
  {
    if i < |s| && s[i] != LF {
      AfterLFMeans(s, i + 1, n);
    }
  }

  lemma {:induction false} AfterLFPrefix(s: Bytes, t: Bytes, i: nat)
    requires i <= |s| && 0 < AfterLF(s, i) <= |t| && t[..AfterLF(s, i)] == s[..AfterLF(s, i)]
    ensures AfterLF(t, i) == AfterLF(s, i)
    decreases |s| - i
  {
    var n := AfterLF(s, i);
    assert t[i] == t[..n][i] == s[..n][i] == s[i];
    if s[i] != LF {
      AfterLFPrefix(s, t, i + 1);
    }
  }

  lemma HasLine(s: Bytes)
    requires LineLength(s) > 0
    ensures IsLine(s[..LineLength(s)])
  {
    AfterLFPrefix(s, s[..LineLength(s)], 0);
  }

  /** The length of a line without its LF and then without one CR. */
  function ContentLength(line: Bytes): (n: nat)
    ensures n <= |line|
  {
    var n := if |line| > 0 && line[|line| - 1] == LF then |line| - 1 else |line|;
    if n > 0 && line[n - 1] == CR then n - 1 else n
  }

  function Content(line: Bytes): Bytes { line[..ContentLength(line)] }

  predicate IsBlank(line: Bytes) { IsLine(line) && ContentLength(line) == 0 }

  predicate IsText(line: Bytes) { IsLine(line) && ContentLength(line) > 0 }

  lemma BlankLines(line: Bytes)
    ensures IsBlank(line) <==> line == [LF] || line == [CR, LF]
  {
    AfterLFMeans(line, 0, |line|);
  }

  lemma FirstLine(line: Bytes, rest: Bytes)
    requires IsLine(line)
    ensures LineLength(line + rest) == |line|
  {
    AfterLFPrefix(line, line + rest, 0);
  }

  // ----- What a block of lines means -------------------------------------------

  /** Position of the first colon from `i` on, or the length of the line. */
  function ColonFrom(line: Bytes, i: nat): (n: nat)
    requires i <= |line|
    ensures i <= n <= |line|
    decreases |line| - i
  {
    if i == |line| || line[i] == COLON then i else ColonFrom(line, i + 1)
  }

  function ColonAt(line: Bytes): nat { ColonFrom(line, 0) }

  lemma {:induction false} ColonFromMeans(line: Bytes, i: nat, n: nat)
    requires i <= |line|
    ensures ColonFrom(line, i) == n <==>
            i <= n <= |line| && (n < |line| ==> line[n] == COLON) && forall j :: i <= j < n ==> line[j] != COLON
    decreases |line| - i
  {
    if i < |line| && line[i] != COLON {
      ColonFromMeans(line, i + 1, n);
    }
  }

  function IsComment(line: Bytes): bool { |line| > 0 && line[0] == COLON }

  function FieldName(line: Bytes): Bytes { line[..ColonAt(line)] }

  /** What follows the colon, less one leading space. */
  function FieldValue(line: Bytes): Bytes {
    var n := ColonAt(line);
    var v := if n < |line| then line[n + 1..] else [];
    if |v| > 0 && v[0] == SPACE then v[1..] else v
  }

  /** The values given to one field, in order. */
  function Values(lines: Lines, name: Bytes): seq<Bytes> {
    match lines
    case Nil => []
    case Cons(line, more) => ValuesOf(Content(line), name) + Values(more, name)
  }

  function ValuesOf(content: Bytes, name: Bytes): seq<Bytes> {
    if !IsComment(content) && FieldName(content) == name then [FieldValue(content)] else []
  }

  function Join(values: seq<Bytes>): Bytes {
    if values == [] then []
    else if |values| == 1 then values[0]
    else Join(values[..|values| - 1]) + [LF] + values[|values| - 1]
  }

  function LastOf(values: seq<Bytes>): Bytes { if values == [] then [] else values[|values| - 1] }

  predicate AllComments(lines: Lines) {
    lines.Cons? ==> IsComment(Content(lines.line)) && AllComments(lines.more)
  }

  function Meaning(lines: Lines, raw: Bytes): Frame {
    Frame(LastOf(Values(lines, EVENT)), Join(Values(lines, DATA)), raw, AllComments(lines))
  }

  // ----- Cutting into lines ------------------------------------------------------

  /** The terminated lines of some bytes, and what is left without an LF. */
  datatype Chopped = Chopped(lines: Lines, tail: Bytes)

  function Chop(s: Bytes): Chopped
    decreases |s|
  {
    var n := LineLength(s);
    if n == 0 then Chopped(Nil, s)
    else
      var rest := Chop(s[n..]);
      Chopped(Cons(s[..n], rest.lines), rest.tail)
  }

  function Concat(lines: Lines): Bytes {
    match lines
    case Nil => []
    case Cons(line, more) => line + Concat(more)
  }

  function Append(a: Lines, b: Lines): Lines {
    match a
    case Nil => b
    case Cons(line, more) => Cons(line, Append(more, b))
  }

  predicate AllLines(lines: Lines) { lines.Cons? ==> IsLine(lines.line) && AllLines(lines.more) }

  lemma {:induction false} ChopConcat(s: Bytes)
    ensures Concat(Chop(s).lines) + Chop(s).tail == s
    decreases |s|
  {
    var n := LineLength(s);
    if n > 0 {
      ChopConcat(s[n..]);
      Rejoin(s, n, Concat(Chop(s[n..]).lines), Chop(s[n..]).tail);
    } else {
      assert Concat(Nil) + s == s;
    }
  }

  lemma Rejoin(s: Bytes, n: nat, a: Bytes, b: Bytes)
    requires n <= |s| && a + b == s[n..]
    ensures (s[..n] + a) + b == s
  {
  }

  lemma {:induction false} ChopLines(s: Bytes)
    ensures AllLines(Chop(s).lines)
    decreases |s|
  {
    var n := LineLength(s);
    if n > 0 {
      HasLine(s);
      ChopLines(s[n..]);
    }
  }

  lemma {:induction false} ChopTail(s: Bytes)
    ensures NoLF(Chop(s).tail)
    decreases |s|
  {
    var n := LineLength(s);
    if n > 0 {
      ChopTail(s[n..]);
    }
  }

  lemma ChopGlues(s: Bytes)
    ensures Concat(Chop(s).lines) + Chop(s).tail == s && AllLines(Chop(s).lines) && NoLF(Chop(s).tail)
  {
    ChopConcat(s);
    ChopLines(s);
    ChopTail(s);
  }

  /** Bytes are cut into lines in one way only. */
  lemma {:induction false} ChopIsUnique(s: Bytes, lines: Lines, tail: Bytes)
    requires AllLines(lines) && NoLF(tail) && s == Concat(lines) + tail
    ensures Chop(s) == Chopped(lines, tail)
    decreases lines
  {
    match lines
    case Nil =>
      assert s == tail;
    case Cons(line, more) =>
      var rest := Concat(more) + tail;
      Associate(line, Concat(more), tail);
      FirstLine(line, rest);
      assert s[..|line|] == line && s[|line|..] == rest;
      ChopIsUnique(rest, more, tail);
  }

  lemma {:induction false} ConcatAppend(a: Lines, b: Lines)
    ensures Concat(Append(a, b)) == Concat(a) + Concat(b)
  {
    match a
    case Nil =>
      assert [] + Concat(b) == Concat(b);
    case Cons(line, more) =>
      ConcatAppend(more, b);
      Associate(line, Concat(more), Concat(b));
  }

  lemma {:induction false} AppendLines(a: Lines, b: Lines)
    ensures AllLines(Append(a, b)) <==> AllLines(a) && AllLines(b)
  {
    if a.Cons? {
      AppendLines(a.more, b);
    }
  }

  // ----- One frame off a list of lines -------------------------------------------

  /**
   * Blank lines, text lines, the blank line that ends the frame and what
   * follows; or no such line; or more than the limit allows.
   */
  datatype Scan = Found(skip: Lines, body: Lines, end: Bytes, rest: Lines) | Ended(skip: Lines, body: Lines) | Over

  function WithText(line: Bytes, scan: Scan): Scan {
    match scan
    case Found(skip, body, end, rest) => Found(skip, Cons(line, body), end, rest)
    case Ended(skip, body) => Ended(skip, Cons(line, body))
    case Over => Over
  }

  function WithBlank(line: Bytes, scan: Scan): Scan {
    match scan
    case Found(skip, body, end, rest) => Found(Cons(line, skip), body, end, rest)
    case Ended(skip, body) => Ended(Cons(line, skip), body)
    case Over => Over
  }

  /** `used` bytes of the frame are already taken; `tail` bytes without an LF come after the lines. */
  function ScanLines(lines: Lines, tail: nat, max: nat, used: nat): Scan
    decreases lines
  {
    match lines
    case Nil => if used + tail > max then Over else Ended(Nil, Nil)
    case Cons(line, more) =>
      if used + |line| > max then Over
      else if ContentLength(line) > 0 then WithText(line, ScanLines(more, tail, max, used + |line|))
      else if used > 0 then Found(Nil, Nil, line, more)
      else WithBlank(line, ScanLines(more, tail, max, 0))
  }

  /** The source ended: a clean end needs nothing left over. */
  function EndError(final: Ending, leftover: nat): ReadError {
    if final == EOF && leftover > 0 then UnexpectedEOF else final
  }

  /** What a scan comes to, with `tail` after the lines. */
  function Outcome(scan: Scan, tail: Bytes, final: Ending): Step {
    match scan
    case Found(_, body, end, rest) => Got(Meaning(body, Concat(body) + end), Concat(rest) + tail)
    case Ended(_, body) => Stop(EndError(final, |Concat(body)| + |tail|))
    case Over => Stop(TooLarge)
  }

  /** One frame off `s`, by its bytes alone. */
  function Split(s: Bytes, final: Ending, max: nat): (step: Step)
    ensures step.Got? ==> |step.rest| < |s|
  {
    var c := Chop(s);
    ChopGlues(s);
    FoundIsShorter(c.lines, |c.tail|, max, 0);
    Outcome(ScanLines(c.lines, |c.tail|, max, 0), c.tail, final)
  }

  lemma SplitBy(s: Bytes, final: Ending, max: nat, lines: Lines, tail: Bytes, scan: Scan)
    requires Chop(s) == Chopped(lines, tail) && ScanLines(lines, |tail|, max, 0) == scan
    ensures Split(s, final, max) == Outcome(scan, tail, final)
  {
  }

  lemma {:induction false} FoundIsShorter(lines: Lines, tail: nat, max: nat, used: nat)
    requires AllLines(lines)
    ensures var scan := ScanLines(lines, tail, max, used); scan.Found? ==> |Concat(scan.rest)| < |Concat(lines)|
    decreases lines
  {
    if lines.Cons? {
      FoundIsShorter(lines.more, tail, max, used + |lines.line|);
      FoundIsShorter(lines.more, tail, max, 0);
    }
  }

  // ----- The scan is the only cut there is ---------------------------------------

  predicate NoContent(lines: Lines) { lines.Cons? ==> ContentLength(lines.line) == 0 && NoContent(lines.more) }

  predicate AllContent(lines: Lines) { lines.Cons? ==> ContentLength(lines.line) > 0 && AllContent(lines.more) }

  /** Each line is within the limit on its own. */
  predicate Within(lines: Lines, max: nat) { lines.Cons? ==> |lines.line| <= max && Within(lines.more, max) }

  function Size(lines: Lines): nat { if lines == Nil then 0 else |lines.line| + Size(lines.more) }

  lemma {:induction false} SizeOf(lines: Lines)
    ensures Size(lines) == |Concat(lines)|
  {
    if lines.Cons? {
      SizeOf(lines.more);
    }
  }

  /** What a scan claims about the lines. */
  ghost predicate Cuts(scan: Scan, lines: Lines, tail: nat, max: nat, used: nat) {
    match scan
    case Found(skip, body, end, rest) =>
      && lines == Append(skip, Append(body, Cons(end, rest)))
      && NoContent(skip) && Within(skip, max) && AllContent(body) && ContentLength(end) == 0
      && (if used > 0 then skip == Nil else body != Nil) && used + Size(body) + |end| <= max
    case Ended(skip, body) =>
      && lines == Append(skip, body)
      && NoContent(skip) && Within(skip, max) && AllContent(body)
      && (used > 0 ==> skip == Nil) && used + Size(body) + tail <= max
    case Over => false
  }

  lemma CutsWithText(line: Bytes, scan: Scan, more: Lines, tail: nat, max: nat, used: nat)
    requires |line| > 0 && ContentLength(line) > 0
    ensures Cuts(WithText(line, scan), Cons(line, more), tail, max, used) <==> Cuts(scan, more, tail, max, used + |line|)
  {
  }

  lemma CutsWithBlank(line: Bytes, scan: Scan, more: Lines, tail: nat, max: nat)
    requires ContentLength(line) == 0
    ensures Cuts(WithBlank(line, scan), Cons(line, more), tail, max, 0) <==> |line| <= max && Cuts(scan, more, tail, max, 0)
  {
  }

  /** Every scan that is not cut short is such a cut ... */
  lemma {:induction false} ScanCuts(lines: Lines, tail: nat, max: nat, used: nat)
    requires AllLines(lines)
    ensures var scan := ScanLines(lines, tail, max, used); scan.Over? || Cuts(scan, lines, tail, max, used)
    decreases lines
  {
    if lines.Cons? && used + |lines.line| <= max {
      var line, more := lines.line, lines.more;
      if ContentLength(line) > 0 {
        ScanCuts(more, tail, max, used + |line|);
        CutsWithText(line, ScanLines(more, tail, max, used + |line|), more, tail, max, used);
      } else if used == 0 {
        ScanCuts(more, tail, max, 0);
        CutsWithBlank(line, ScanLines(more, tail, max, 0), more, tail, max);
      }
    }
  }

  /** ... and any such cut is the scan. */
  lemma {:induction false} CutIsUnique(scan: Scan, lines: Lines, tail: nat, max: nat, used: nat)
    requires AllLines(lines) && Cuts(scan, lines, tail, max, used)
    ensures ScanLines(lines, tail, max, used) == scan
    decreases lines
  {
    if scan.skip != Nil {
      var less := scan.(skip := scan.skip.more);
      CutsWithBlank(lines.line, less, lines.more, tail, max);
      CutIsUnique(less, lines.more, tail, max, 0);
    } else if scan.body != Nil {
      var less := scan.(body := scan.body.more);
      CutsWithText(lines.line, less, lines.more, tail, max, used);
      CutIsUnique(less, lines.more, tail, max, used + |lines.line|);
    }
  }

  // ----- What Next returns, told by the bytes alone -------------------------------

  predicate AllBlank(lines: Lines) { AllLines(lines) && NoContent(lines) }

  predicate AllText(lines: Lines) { AllLines(lines) && AllContent(lines) }

  /** `s` opens with blank lines, then a block of text lines closed by a blank line, within the limit. */
  ghost predicate Opens(s: Bytes, max: nat, skip: Lines, body: Lines, end: Bytes, rest: Bytes) {
    && AllBlank(skip) && Within(skip, max) && AllText(body) && body != Nil && IsBlank(end)
    && s == Concat(skip) + (Concat(body) + (end + rest))
    && |Concat(body)| + |end| <= max
  }

  /** `s` ends before another frame: blank lines, text lines and an unterminated tail, within the limit. */
  ghost predicate Ends(s: Bytes, max: nat, skip: Lines, body: Lines, tail: Bytes) {
    && AllBlank(skip) && Within(skip, max) && AllText(body) && NoLF(tail)
    && s == Concat(skip) + (Concat(body) + tail)
    && |Concat(body)| + |tail| <= max
  }

  lemma GluedBlock(skip: Lines, body: Lines, end: Bytes, rest: Lines, tail: Bytes)
    ensures var lines := Append(skip, Append(body, Cons(end, rest)));
            && Concat(lines) + tail == Concat(skip) + (Concat(body) + (end + (Concat(rest) + tail)))
            && (AllLines(lines) <==> AllLines(skip) && AllLines(body) && IsLine(end) && AllLines(rest))
  {
    var block := Append(body, Cons(end, rest));
    ConcatAppend(skip, block);
    ConcatAppend(body, Cons(end, rest));
    AppendLines(skip, block);
    AppendLines(body, Cons(end, rest));
    Associate(end, Concat(rest), tail);
    Associate(Concat(body), end + Concat(rest), tail);
    Associate(Concat(skip), Concat(block), tail);
  }

  lemma GluedTail(skip: Lines, body: Lines, tail: Bytes)
    ensures var lines := Append(skip, body);
            && Concat(lines) + tail == Concat(skip) + (Concat(body) + tail)
            && (AllLines(lines) <==> AllLines(skip) && AllLines(body))
  {
    ConcatAppend(skip, body);
    AppendLines(skip, body);
    Associate(Concat(skip), Concat(body), tail);
  }

  /** Any way to see `s` as blank lines, a block and a rest is the one the reader finds. */
  lemma OpensDecides(s: Bytes, final: Ending, max: nat, skip: Lines, body: Lines, end: Bytes, rest: Bytes)
    requires Opens(s, max, skip, body, end, rest)
    ensures Split(s, final, max) == Got(Meaning(body, Concat(body) + end), rest)
  {
    var c := Chop(rest);
    ChopGlues(rest);
    GluedBlock(skip, body, end, c.lines, c.tail);
    var lines := Append(skip, Append(body, Cons(end, c.lines)));
    ChopIsUnique(s, lines, c.tail);
    SizeOf(body);
    CutIsUnique(Found(skip, body, end, c.lines), lines, |c.tail|, max, 0);
    SplitBy(s, final, max, lines, c.tail, Found(skip, body, end, c.lines));
  }

  lemma CutEnds(lines: Lines, skip: Lines, body: Lines, tail: Bytes, max: nat)
    requires lines == Append(skip, body) && AllLines(lines) && NoContent(skip) && Within(skip, max) && AllContent(body)
    requires |Concat(body)| + |tail| <= max
    ensures ScanLines(lines, |tail|, max, 0) == Ended(skip, body)
  {
    SizeOf(body);
    CutIsUnique(Ended(skip, body), lines, |tail|, max, 0);
  }

  lemma EndsChop(s: Bytes, max: nat, skip: Lines, body: Lines, tail: Bytes) returns (lines: Lines)
    requires Ends(s, max, skip, body, tail)
    ensures Chop(s) == Chopped(lines, tail) && ScanLines(lines, |tail|, max, 0) == Ended(skip, body)
  {
    lines := Append(skip, body);
    GluedTail(skip, body, tail);
    ChopIsUnique(s, lines, tail);
    CutEnds(lines, skip, body, tail, max);
  }

  lemma EndedMeans(skip: Lines, body: Lines, tail: Bytes, final: Ending)
    ensures Outcome(Ended(skip, body), tail, final) == Stop(EndError(final, |Concat(body)| + |tail|))
  {
  }

  lemma EndsDecides(s: Bytes, final: Ending, max: nat, skip: Lines, body: Lines, tail: Bytes)
    requires Ends(s, max, skip, body, tail)
    ensures Split(s, final, max) == Stop(EndError(final, |Concat(body)| + |tail|))
  {
    var lines := EndsChop(s, max, skip, body, tail);
    SplitBy(s, final, max, lines, tail, Ended(skip, body));
    EndedMeans(skip, body, tail, final);
  }

  /** The parts of a frame that was split off. */
  lemma GotOpens(s: Bytes, final: Ending, max: nat) returns (skip: Lines, body: Lines, end: Bytes)
    requires Split(s, final, max).Got?
    ensures var step := Split(s, final, max);
            Opens(s, max, skip, body, end, step.rest) && step.frame == Meaning(body, Concat(body) + end)
  {
    var c := Chop(s);
    ChopGlues(s);
    ScanCuts(c.lines, |c.tail|, max, 0);
    var scan := ScanLines(c.lines, |c.tail|, max, 0);
    skip, body, end := scan.skip, scan.body, scan.end;
    GluedBlock(skip, body, end, scan.rest, c.tail);
    SizeOf(body);
  }

  lemma StopEnds(s: Bytes, final: Ending, max: nat) returns (skip: Lines, body: Lines, tail: Bytes)
    requires Split(s, final, max).Stop? && Split(s, final, max).error != TooLarge
    ensures Ends(s, max, skip, body, tail)
  {
    var c := Chop(s);
    ChopGlues(s);
    ScanCuts(c.lines, |c.tail|, max, 0);
    var scan := ScanLines(c.lines, |c.tail|, max, 0);
    skip, body, tail := scan.skip, scan.body, c.tail;
    GluedTail(skip, body, tail);
    SizeOf(body);
  }

  /**
   * What `Next` returns is decided by the bytes: a frame exactly if they open
   * with one within the limit; an error other than "too large" exactly if they
   * end before the next frame within the limit; and "too large" otherwise.
   */
  lemma SplitIsDeclarative(s: Bytes, final: Ending, max: nat)
    ensures forall frame, rest ::
              Split(s, final, max) == Got(frame, rest) <==>
              exists skip, body, end :: Opens(s, max, skip, body, end, rest) && frame == Meaning(body, Concat(body) + end)
    ensures forall error | error != TooLarge ::
              Split(s, final, max) == Stop(error) <==>
              exists skip, body, tail :: Ends(s, max, skip, body, tail) && error == EndError(final, |Concat(body)| + |tail|)
  {
    var step := Split(s, final, max);
    forall rest, skip, body, end | Opens(s, max, skip, body, end, rest)
      ensures step == Got(Meaning(body, Concat(body) + end), rest)
    {
      OpensDecides(s, final, max, skip, body, end, rest);
    }
    forall skip, body, tail | Ends(s, max, skip, body, tail)
      ensures step == Stop(EndError(final, |Concat(body)| + |tail|))
    {
      EndsDecides(s, final, max, skip, body, tail);
    }
    if step.Got? {
      var skip, body, end := GotOpens(s, final, max);
    } else if step.error != TooLarge {
      var skip, body, tail := StopEnds(s, final, max);
    }
  }

  // ----- Whole streams ---------------------------------------------------------

  function ReadAll(s: Bytes, final: Ending, max: nat): (seq<Frame>, ReadError)
    decreases |s|
  {
    match Split(s, final, max)
    case Stop(error) => ([], error)
    case Got(frame, rest) =>
      var (frames, error) := ReadAll(rest, final, max);
      ([frame] + frames, error)
  }

  ghost predicate BlankBytes(s: Bytes, max: nat) {
    exists lines :: AllBlank(lines) && Within(lines, max) && Concat(lines) == s
  }

  /** `s` is the frames' raw bytes in order, each after some blank lines, and then `tail`. */
  ghost predicate Rebuilds(s: Bytes, frames: seq<Frame>, tail: Bytes, max: nat)
    decreases |frames|
  {
    if frames == [] then s == tail
    else exists skip, rest :: Leads(s, skip, frames[0], rest, max) && Rebuilds(rest, frames[1..], tail, max)
  }

  ghost predicate Leads(s: Bytes, skip: Bytes, frame: Frame, rest: Bytes, max: nat) {
    s == skip + (frame.raw + rest) && BlankBytes(skip, max) && 0 < |frame.raw| <= max
  }

  lemma SplitLeads(s: Bytes, final: Ending, max: nat) returns (skip: Bytes)
    requires Split(s, final, max).Got?
    ensures var step := Split(s, final, max); Leads(s, skip, step.frame, step.rest, max)
  {
    var lines, body, end := GotOpens(s, final, max);
    skip := Concat(lines);
    Associate(Concat(body), end, Split(s, final, max).rest);
  }

  /** A stop is clean exactly when the source ended well and left nothing but blank lines. */
  lemma CleanStop(s: Bytes, final: Ending, max: nat)
    requires Split(s, final, max).Stop?
    ensures Split(s, final, max).error == EOF <==> final == EOF && BlankBytes(s, max)
  {
    if Split(s, final, max).error == EOF {
      var skip, body, tail := StopEnds(s, final, max);
      EndsDecides(s, final, max, skip, body, tail);
      assert Concat(skip) == s;
    }
    if final == EOF && BlankBytes(s, max) {
      var lines :| AllBlank(lines) && Within(lines, max) && Concat(lines) == s;
      assert Concat(Nil) + [] == [];
      EndsDecides(s, final, max, lines, Nil, []);
    }
  }

  /** The frames with the skipped blank lines rebuild the input, up to a tail that only a clean end leaves blank. */
  lemma {:induction false} StreamRebuilds(s: Bytes, final: Ending, max: nat) returns (tail: Bytes)
    ensures var (frames, error) := ReadAll(s, final, max);
            Rebuilds(s, frames, tail, max) && (error == EOF <==> final == EOF && BlankBytes(tail, max))
    decreases |s|
  {
    var step := Split(s, final, max);
    if step.Stop? {
      tail := s;
      CleanStop(s, final, max);
    } else {
      var skip := SplitLeads(s, final, max);
      tail := StreamRebuilds(step.rest, final, max);
      var frames := ReadAll(step.rest, final, max).0;
      assert ([step.frame] + frames)[1..] == frames;
      assert Leads(s, skip, ([step.frame] + frames)[0], step.rest, max) && Rebuilds(step.rest, frames, tail, max);
    }
  }

  predicate EndsInLF(s: Bytes) { |s| > 0 && s[|s| - 1] == LF }

  lemma LineEndsInLF(line: Bytes)
    requires IsLine(line)
    ensures EndsInLF(line)
  {
    AfterLFMeans(line, 0, |line|);
  }

  lemma {:induction false} LinesEndInLF(lines: Lines)
    requires AllLines(lines)
    ensures lines == Nil || EndsInLF(Concat(lines))
  {
    if lines.Cons? {
      LineEndsInLF(lines.line);
      LinesEndInLF(lines.more);
      if lines.more == Nil {
        assert Concat(lines) == lines.line;
      }
    }
  }

  lemma UnterminatedRest(s: Bytes, final: Ending, max: nat)
    requires s != [] && !EndsInLF(s) && Split(s, final, max).Got?
    ensures var rest := Split(s, final, max).rest; rest != [] && !EndsInLF(rest)
  {
    var skip, body, end := GotOpens(s, final, max);
    LineEndsInLF(end);
    Associate(Concat(skip), Concat(body), end + Split(s, final, max).rest);
    RestKeepsEnd(Concat(skip) + Concat(body), end, Split(s, final, max).rest, s);
  }

  lemma UnterminatedStop(s: Bytes, final: Ending, max: nat)
    requires s != [] && !EndsInLF(s) && Split(s, final, max).Stop?
    ensures Split(s, final, max).error != EOF
  {
    CleanStop(s, final, max);
    if BlankBytes(s, max) {
      var lines :| AllBlank(lines) && Within(lines, max) && Concat(lines) == s;
      LinesEndInLF(lines);
    }
  }

  /** Input that does not end in LF never reads as a clean end. */
  lemma {:induction false} UnterminatedTailErrors(s: Bytes, final: Ending, max: nat)
    requires s != [] && !EndsInLF(s)
    ensures ReadAll(s, final, max).1 != EOF
    decreases |s|
  {
    var step := Split(s, final, max);
    if step.Got? {
      UnterminatedRest(s, final, max);
      UnterminatedTailErrors(step.rest, final, max);
    } else {
      UnterminatedStop(s, final, max);
    }
  }

  lemma RestKeepsEnd(front: Bytes, end: Bytes, rest: Bytes, s: Bytes)
    requires s == front + (end + rest) && EndsInLF(end) && !EndsInLF(s)
    ensures rest != [] && !EndsInLF(rest)
  {
  }

  // ----- Reading a frame back --------------------------------------------------

  /** The bytes of a frame read on their own, before anything, give the same frame. */
  lemma RawReadsBack(s: Bytes, final: Ending, max: nat, t: Bytes, final': Ending, max': nat)
    requires var step := Split(s, final, max); step.Got? && |step.frame.raw| <= max'
    ensures var frame := Split(s, final, max).frame; Split(frame.raw + t, final', max') == Got(frame, t)
  {
    var skip, body, end := GotOpens(s, final, max);
    BlockReadsBack(body, end, t, final', max');
  }

  lemma BlockReadsBack(body: Lines, end: Bytes, t: Bytes, final: Ending, max: nat)
    requires AllText(body) && body != Nil && IsBlank(end) && |Concat(body) + end| <= max
    ensures Split(Concat(body) + end + t, final, max) == Got(Meaning(body, Concat(body) + end), t)
  {
    var s := Concat(body) + end + t;
    Associate(Concat(body), end, t);
    assert Concat(Nil) + s == s;
    OpensDecides(s, final, max, Nil, body, end, t);
  }

  /** The event that carries a payload. */
  function Event(payload: Bytes): Bytes { DATA + [COLON, SPACE] + payload + [LF, LF] }

  lemma DataLine(payload: Bytes)
    requires NoLF(payload) && (payload == [] || payload[|payload| - 1] != CR)
    ensures var line := DATA + [COLON, SPACE] + payload + [LF];
            && IsText(line) && Content(line) == DATA + [COLON, SPACE] + payload
            && ValuesOf(Content(line), DATA) == [payload] && ValuesOf(Content(line), EVENT) == [] && !IsComment(Content(line))
  {
    var content := DATA + [COLON, SPACE] + payload;
    var line := content + [LF];
    AfterLFMeans(payload, 0, 0);
    AfterLFMeans(line, 0, |line|);
    assert line == DATA + [COLON, SPACE] + payload + [LF];
    assert Content(line) == content;
    assert content[4] == COLON && forall i :: 0 <= i < 4 ==> content[i] == DATA[i];
    ColonFromMeans(content, 0, 4);
    assert FieldName(content) == DATA;
    assert content[5..] == [SPACE] + payload && FieldValue(content) == payload;
  }

  /** A block of one line that gives one data value. */
  lemma OneDataLine(line: Bytes, value: Bytes, raw: Bytes)
    requires ValuesOf(Content(line), DATA) == [value] && ValuesOf(Content(line), EVENT) == [] && !IsComment(Content(line))
    ensures Meaning(Cons(line, Nil), raw) == Frame([], value, raw, false)
  {
    var body := Cons(line, Nil);
    assert Values(body, DATA) == ValuesOf(Content(line), DATA) + Values(Nil, DATA) == [value];
    assert Values(body, EVENT) == ValuesOf(Content(line), EVENT) + Values(Nil, EVENT) == [];
    assert Join([value]) == value;
  }

  /** A payload without line breaks, sent as an event, is read back as one frame with that data. */
  lemma EventReadsBack(payload: Bytes, t: Bytes, final: Ending, max: nat)
    requires NoLF(payload) && (payload == [] || payload[|payload| - 1] != CR) && |Event(payload)| <= max
    ensures Split(Event(payload) + t, final, max) == Got(Frame([], payload, Event(payload), false), t)
  {
    var line := DATA + [COLON, SPACE] + payload + [LF];
    DataLine(payload);
    OneLineBlock(line);
    assert line + [LF] == Event(payload);
    BlankLines([LF]);
    BlockReadsBack(Cons(line, Nil), [LF], t, final, max);
    OneDataLine(line, payload, Event(payload));
  }

  lemma OneLineBlock(line: Bytes)
    requires IsText(line)
    ensures Concat(Cons(line, Nil)) == line && AllText(Cons(line, Nil))
  {
    assert Concat(Cons(line, Nil)) == line + Concat(Nil) == line;
  }
}
