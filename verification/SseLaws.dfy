/**
 * What the event reader makes of what a server may write: fields with and
 * without a space after the colon, bare names, comments, LF and CR LF.
 */
module SseLaws {
  import opened Sse
  import opened SseReader

  /** One line as a server writes it. */
  datatype Item = Field(name: Bytes, spaced: bool, value: Bytes, crlf: bool) | Bare(name: Bytes, crlf: bool) | Comment(text: Bytes, crlf: bool)

  function ContentOf(item: Item): Bytes {
    match item
    case Field(name, spaced, value, _) => name + [COLON] + (if spaced then [SPACE] else []) + value
    case Bare(name, _) => name
    case Comment(text, _) => [COLON] + text
  }

  function Terminator(crlf: bool): Bytes { if crlf then [CR, LF] else [LF] }

  function Written(item: Item): Bytes { ContentOf(item) + Terminator(item.crlf) }

  predicate Clean(s: Bytes) { forall i :: 0 <= i < |s| ==> s[i] != LF }

  predicate IsName(name: Bytes) { name != [] && Clean(name) && forall i :: 0 <= i < |name| ==> name[i] != COLON }

  /** The line can be written so: no line breaks inside, no space to be taken for the optional one, no CR to be taken for the line end. */
  predicate Writable(item: Item) {
    && (match item
        case Field(name, spaced, value, _) => IsName(name) && Clean(value) && (!spaced ==> value == [] || value[0] != SPACE)
        case Bare(name, _) => IsName(name)
        case Comment(text, _) => Clean(text))
    && (!item.crlf ==> ContentOf(item)[|ContentOf(item)| - 1] != CR)
  }

  /** The values a line gives to a field: a bare name gives an empty one. */
  function Gives(item: Item, name: Bytes): seq<Bytes> {
    if item.Field? && item.name == name then [item.value] else if item.Bare? && item.name == name then [[]] else []
  }

  lemma ContentIsClean(item: Item)
    requires Writable(item)
    ensures ContentOf(item) != [] && Clean(ContentOf(item))
  {
  }

  /** The line is read as a text line with the content that was written. */
  lemma LineIsRead(item: Item)
    requires Writable(item)
    ensures IsText(Written(item)) && Content(Written(item)) == ContentOf(item)
  {
    ContentIsClean(item);
    var line := Written(item);
    assert forall i :: 0 <= i < |ContentOf(item)| ==> line[i] == ContentOf(item)[i];
    AfterLFMeans(line, 0, |line|);
  }

  lemma NameEndsAtColon(content: Bytes, name: Bytes)
    requires IsName(name) && |name| <= |content| && content[..|name|] == name && (|name| < |content| ==> content[|name|] == COLON)
    ensures ColonAt(content) == |name| && FieldName(content) == name && !IsComment(content)
  {
    assert forall j :: 0 <= j < |name| ==> content[j] == name[j];
    ColonFromMeans(content, 0, |name|);
  }

  lemma FieldIsRead(name: Bytes, spaced: bool, value: Bytes)
    requires IsName(name) && (!spaced ==> value == [] || value[0] != SPACE)
    ensures var content := name + [COLON] + (if spaced then [SPACE] else []) + value;
            FieldName(content) == name && FieldValue(content) == value && !IsComment(content)
  {
    var rest: Bytes := (if spaced then [SPACE] else []) + value;
    var content := name + [COLON] + (if spaced then [SPACE] else []) + value;
    assert content[..|name|] == name && content[|name|] == COLON;
    NameEndsAtColon(content, name);
    assert content[|name| + 1..] == rest;
    assert spaced ==> rest[1..] == value;
    assert !spaced ==> rest == value;
  }

  /** It gives the value that was written, to the field that was named. */
  lemma ItemMeans(item: Item, name: Bytes)
    requires Writable(item)
    ensures ValuesOf(Content(Written(item)), name) == Gives(item, name)
    ensures IsComment(Content(Written(item))) <==> item.Comment?
  {
    LineIsRead(item);
    if item.Field? {
      FieldIsRead(item.name, item.spaced, item.value);
    } else if item.Bare? {
      NameEndsAtColon(item.name, item.name);
    }
  }

  function LinesOf(items: seq<Item>): Lines {
    if items == [] then Nil else Cons(Written(items[0]), LinesOf(items[1..]))
  }

  function AllWritten(items: seq<Item>): Bytes {
    if items == [] then [] else Written(items[0]) + AllWritten(items[1..])
  }

  /** The values given to a field, in order. */
  function AllGiven(items: seq<Item>, name: Bytes): seq<Bytes> {
    if items == [] then [] else Gives(items[0], name) + AllGiven(items[1..], name)
  }

  lemma {:induction false} BlockMeans(items: seq<Item>, name: Bytes)
    requires forall i :: 0 <= i < |items| ==> Writable(items[i])
    ensures AllText(LinesOf(items)) && Concat(LinesOf(items)) == AllWritten(items)
    ensures Values(LinesOf(items), name) == AllGiven(items, name)
    ensures AllComments(LinesOf(items)) <==> forall i :: 0 <= i < |items| ==> items[i].Comment?
  {
    if items != [] {
      LineIsRead(items[0]);
      ItemMeans(items[0], name);
      BlockMeans(items[1..], name);
      assert forall i :: 0 < i < |items| ==> items[i] == items[1..][i - 1];
    }
  }

  /** The values on lines of their own. */
  function OnLines(values: seq<Bytes>): Bytes {
    if values == [] then [] else if |values| == 1 then values[0] else values[0] + [LF] + OnLines(values[1..])
  }

  lemma {:induction false} OnLinesSnoc(values: seq<Bytes>, last: Bytes)
    requires values != []
    ensures OnLines(values + [last]) == OnLines(values) + [LF] + last
  {
    var all := values + [last];
    assert all[1..] == values[1..] + [last];
    if |values| == 1 {
      assert all[1..] == [last];
    } else {
      OnLinesSnoc(values[1..], last);
      Regroup(values[0] + [LF], OnLines(values[1..]), [LF], last);
    }
  }

  lemma Regroup(a: Bytes, b: Bytes, c: Bytes, d: Bytes)
    ensures a + (b + c + d) == (a + b) + c + d
  {
  }

  lemma {:induction false} JoinIsOnLines(values: seq<Bytes>)
    ensures Join(values) == OnLines(values)
  {
    if |values| > 1 {
      var front, last := values[..|values| - 1], values[|values| - 1];
      JoinIsOnLines(front);
      OnLinesSnoc(front, last);
      assert values == front + [last];
    }
  }

  /**
   * A block of lines and a blank line are read as one frame: data on lines of its
   * own, the last event name, and a comment if there is nothing but comments.
   */
  lemma BlockIsRead(items: seq<Item>, crlf: bool, t: Bytes, final: Ending, max: nat)
    requires items != [] && forall i :: 0 <= i < |items| ==> Writable(items[i])
    requires |AllWritten(items) + Terminator(crlf)| <= max
    ensures var raw, events := AllWritten(items) + Terminator(crlf), AllGiven(items, EVENT);
            Split(raw + t, final, max) ==
            Got(Frame(if events == [] then [] else events[|events| - 1], OnLines(AllGiven(items, DATA)), raw,
                      forall i :: 0 <= i < |items| ==> items[i].Comment?), t)
  {
    var body := LinesOf(items);
    BlockMeans(items, EVENT);
    BlockMeans(items, DATA);
    BlankLines(Terminator(crlf));
    JoinIsOnLines(AllGiven(items, DATA));
    BlockReadsBack(body, Terminator(crlf), t, final, max);
  }

  /** Where the bytes end before a frame does: a failing source is reported as it is, and an unfinished frame is not a clean end. */
  lemma EndIsRead(s: Bytes, final: Ending, max: nat, skip: Lines, body: Lines, tail: Bytes)
    requires Ends(s, max, skip, body, tail)
    ensures Split(s, final, max) ==
            Stop(if final != EOF then SourceFailed else if Concat(body) != [] || tail != [] then UnexpectedEOF else EOF)
  {
    EndsDecides(s, final, max, skip, body, tail);
  }

  /** The limit of a reader: what was asked for, up to one mebibyte. */
  lemma LimitMeans(maxBytes: int)
    ensures Clamp(maxBytes) == if 1 <= maxBytes <= 1_048_576 then maxBytes else 1_048_576
  {
  }
}
