/**
 * What relay.env text means: which lines bind which key to which value, in any
 * spacing and with either line end, and what each escape stands for.
 */
module EnvLaws {
  import opened Base
  import opened EnvQuote
  import opened EnvFile

  predicate AllSpace(s: Text) { forall i :: 0 <= i < |s| ==> IsSpace(s[i]) }

  /** White space is what Unicode says it is, a key what the pattern of the parser allows. */
  lemma CharactersMean(c: sym, s: Text)
    ensures IsSpace(c) <==>
            c as int in {9, 10, 11, 12, 13, 32, 0x85, 0xA0, 0x1680, 0x2000, 0x2001, 0x2002, 0x2003, 0x2004, 0x2005, 0x2006, 0x2007, 0x2008,
                         0x2009, 0x200A, 0x2028, 0x2029, 0x202F, 0x205F, 0x3000}
    ensures IsKey(s) <==> s != [] && IsNameStart(s[0]) && forall i :: 0 < i < |s| ==> IsNameStart(s[i]) || '0' as int <= s[i] as int <= '9' as int
  {
  }

  predicate IsNameStart(c: sym) {
    var n := c as int;
    'A' as int <= n <= 'Z' as int || 'a' as int <= n <= 'z' as int || n == '_' as int
  }

  // ----- White space -----------------------------------------------------------

  /** Trimming takes the white space off both ends, and nothing else. */
  lemma {:induction false} TrimSplits(s: Text) returns (a: Text, b: Text)
    ensures s == a + TrimSpace(s) + b && AllSpace(a) && AllSpace(b)
    decreases |s|
  {
    if s == [] {
      a, b := [], [];
    } else if IsSpace(s[0]) {
      a, b := TrimSplits(s[1..]);
      a := [s[0]] + a;
      assert s == [s[0]] + s[1..];
    } else if IsSpace(s[|s| - 1]) {
      a, b := TrimSplits(s[..|s| - 1]);
      b := b + [s[|s| - 1]];
      assert s == s[..|s| - 1] + [s[|s| - 1]];
    } else {
      a, b := [], [];
      assert s == [] + s + [];
    }
  }

  lemma {:induction false} TrimMeans(a: Text, s: Text, b: Text)
    requires AllSpace(a) && AllSpace(b) && IsTrimmed(s)
    ensures TrimSpace(a + s + b) == s
    decreases |a| + |b|
  {
    var whole := a + s + b;
    if a != [] {
      assert whole[0] == a[0] && whole[1..] == a[1..] + s + b;
      TrimMeans(a[1..], s, b);
    } else if s == [] {
      if b != [] {
        assert whole[0] == b[0] && whole[1..] == [] + s + b[1..];
        TrimMeans([], s, b[1..]);
      } else {
        assert whole == s;
      }
    } else if b != [] {
      assert whole[0] == s[0] && whole[|whole| - 1] == b[|b| - 1] && whole[..|whole| - 1] == [] + s + b[..|b| - 1];
      TrimMeans([], s, b[..|b| - 1]);
    } else {
      assert whole == s;
    }
  }

  // ----- One line --------------------------------------------------------------

  /** What a value stands for: nothing, a quoted text, or itself. */
  function ValueOf(q: Text): Option<Text> {
    if q == [] then Some([])
    else if q[0] == QUOTE then Unquote(q)
    else if q[0] == APOSTROPHE then if Single(q).Decoded? then Some(Single(q).text) else None
    else Some(q)
  }

  /** The word `export` and a blank, and perhaps more white space. */
  predicate IsExport(s: Text) {
    |s| >= 7 && s[..7] == [101, 120, 112, 111, 114, 116, 32] && AllSpace(s[7..])
  }

  /** A line that can be read as a key, an equals sign and a value, with white space around each and perhaps an `export` before it. */
  ghost predicate Shaped(line: Text, a: Text, prefix: Text, name: Text, b: Text, c: Text, q: Text, d: Text) {
    && line == a + (prefix + (name + b + [EQUALS] + (c + q + d)))
    && AllSpace(a) && AllSpace(b) && AllSpace(c) && AllSpace(d)
    && IsKey(name) && IsTrimmed(q)
    && (prefix == [] || IsExport(prefix))
    && (prefix == [] && name == [101, 120, 112, 111, 114, 116] && b != [] ==> b[0] != BLANK)
  }

  lemma NoEqualsInFront(name: Text, b: Text)
    requires IsKey(name) && AllSpace(b)
    ensures EQUALS !in name + b && TrimSpace(name + b) == name && name + b != []
  {
    KeyIsPlain(name);
    assert [] + name + b == name + b;
    TrimMeans([], name, b);
  }

  /** A binding, once an `export` is off. */
  lemma BindingIsParsed(name: Text, b: Text, c: Text, q: Text, rest: Text)
    requires IsKey(name) && AllSpace(b) && AllSpace(c) && IsTrimmed(q) && AllSpace(rest)
    ensures ParseBinding(name + b + [EQUALS] + (c + q + rest)) ==
            if ValueOf(q).None? then Invalid(BadValue) else Binding(name, ValueOf(q).value)
  {
    var text := name + b + [EQUALS] + (c + q + rest);
    NoEqualsInFront(name, b);
    IndexOfFirst(name + b, EQUALS, c + q + rest);
    assert text[..|name + b|] == name + b && text[|name + b| + 1..] == c + q + rest;
    TrimMeans(c, q, rest);
  }

  /** The end of such a line, less the white space after it; without a value that goes back to the equals sign. */
  lemma TailIsTrimmed(front: Text, c: Text, q: Text, d: Text) returns (c': Text, tail: Text)
    requires AllSpace(c) && AllSpace(d) && IsTrimmed(q)
    ensures AllSpace(c') && AllSpace(tail) && (q != [] ==> c' == c)
    ensures front + [EQUALS] + (c + q + d) == front + [EQUALS] + (c' + q) + tail
    ensures !IsSpace((front + [EQUALS] + (c' + q))[|front + [EQUALS] + (c' + q)| - 1])
  {
    if q == [] {
      c', tail := [], c + d;
      assert front + [EQUALS] + ([] + q) == front + [EQUALS];
    } else {
      c', tail := c, d;
      assert (front + [EQUALS] + (c + q))[|front + [EQUALS] + (c + q)| - 1] == q[|q| - 1];
    }
  }

  /** What is left of such a line when the white space around it is off. */
  lemma ShapeIsTrimmed(a: Text, prefix: Text, name: Text, b: Text, c: Text, q: Text, d: Text) returns (c': Text)
    requires Shaped(a + (prefix + (name + b + [EQUALS] + (c + q + d))), a, prefix, name, b, c, q, d)
    ensures AllSpace(c') && IsTrimmed(name + b + [EQUALS] + (c' + q))
    ensures TrimSpace(a + (prefix + (name + b + [EQUALS] + (c + q + d)))) == prefix + (name + b + [EQUALS] + (c' + q))
  {
    KeyIsPlain(name);
    var tail;
    c', tail := TailIsTrimmed(name + b, c, q, d);
    var core := name + b + [EQUALS] + (c' + q);
    assert core[0] == name[0];
    TrimmedBehind(a, prefix, core, tail);
  }

  lemma TrimmedBehind(a: Text, prefix: Text, core: Text, tail: Text)
    requires AllSpace(a) && AllSpace(tail) && core != [] && IsTrimmed(core) && (prefix == [] || IsExport(prefix))
    ensures TrimSpace(a + (prefix + (core + tail))) == prefix + core
  {
    var whole := prefix + core;
    assert prefix != [] ==> prefix[0] == prefix[..7][0] == 101;
    assert whole[0] == (if prefix == [] then core[0] else prefix[0]) && whole[|whole| - 1] == core[|core| - 1];
    assert a + (prefix + (core + tail)) == a + whole + tail;
    TrimMeans(a, whole, tail);
  }

  lemma ExportIsTaken(prefix: Text, core: Text)
    requires IsExport(prefix) && IsTrimmed(core) && core != []
    ensures StartsWith(prefix + core, EXPORT) && TrimSpace((prefix + core)[7..]) == core
  {
    assert (prefix + core)[..7] == prefix[..7];
    assert (prefix + core)[7..] == prefix[7..] + core + [];
    TrimMeans(prefix[7..], core, []);
  }

  lemma NoExport(name: Text, b: Text, rest: Text)
    requires IsKey(name) && AllSpace(b) && (name == [101, 120, 112, 111, 114, 116] && b != [] ==> b[0] != BLANK)
    ensures !StartsWith(name + b + [EQUALS] + rest, EXPORT)
  {
    var s, word := name + b + [EQUALS] + rest, EXPORT;
    KeyIsPlain(name);
    if |s| >= 7 {
      if |name| < 6 {
        assert s[..7][|name|] == if b != [] then b[0] else EQUALS;
        assert s[..7][|name|] != word[|name|];
      } else if |name| > 6 {
        assert s[..7][6] == name[6] && name[6] in name;
        assert s[..7][6] != word[6];
      } else if b == [] || b[0] != BLANK {
        assert s[..7][6] == if b != [] then b[0] else EQUALS;
        assert s[..7][6] != word[6];
      } else {
        assert s[..7][..6] == name && word[..6] == [101, 120, 112, 111, 114, 116];
      }
    }
  }

  /** A line of that shape binds the key to what the value stands for, or is refused for its value. */
  lemma ShapedLineIsParsed(line: Text, a: Text, prefix: Text, name: Text, b: Text, c: Text, q: Text, d: Text)
    requires Shaped(line, a, prefix, name, b, c, q, d)
    ensures ParseLine(line) == if ValueOf(q).None? then Invalid(BadValue) else Binding(name, ValueOf(q).value)
  {
    KeyIsPlain(name);
    var c' := ShapeIsTrimmed(a, prefix, name, b, c, q, d);
    var core := name + b + [EQUALS] + (c' + q);
    assert c' + q + [] == c' + q;
    BindingIsParsed(name, b, c', q, []);
    if prefix == [] {
      assert prefix + core == core;
      NoExport(name, b, c' + q);
      assert core[0] == name[0];
    } else {
      ExportIsTaken(prefix, core);
      assert (prefix + core)[0] == prefix[..7][0] == 101;
    }
  }

  lemma {:induction false} LeadingGoes(a: Text, s: Text)
    requires AllSpace(a)
    ensures TrimSpace(a + s) == TrimSpace(s)
  {
    if a == [] {
      assert a + s == s;
    } else {
      assert (a + s)[1..] == a[1..] + s;
      LeadingGoes(a[1..], s);
    }
  }

  lemma {:induction false} FirstStays(s: Text)
    requires s != [] && !IsSpace(s[0])
    ensures TrimSpace(s) != [] && TrimSpace(s)[0] == s[0]
    decreases |s|
  {
    if IsSpace(s[|s| - 1]) {
      FirstStays(s[..|s| - 1]);
    }
  }

  /** A blank line, or a comment behind any white space, says nothing. */
  lemma QuietLine(a: Text, comment: Text)
    requires AllSpace(a) && (comment == [] || comment[0] == HASH)
    ensures ParseLine(a + comment) == Nothing
  {
    LeadingGoes(a, comment);
    if comment != [] {
      FirstStays(comment);
    }
  }

  // ----- Which lines bind a key --------------------------------------------------

  lemma {:induction false} IndexOfSplits(s: Text, c: sym)
    ensures var i := IndexOf(s, c);
            if i < 0 then c !in s else c !in s[..i] && s == s[..i] + [c] + s[i + 1..]
  {
    if s != [] && s[0] != c {
      IndexOfSplits(s[1..], c);
      var i := IndexOf(s, c);
      assert s == [s[0]] + s[1..];
      if i > 0 {
        assert s[..i] == [s[0]] + s[1..][..i - 1] && s[i + 1..] == s[1..][i..];
      }
    }
  }

  lemma NothingInFront(text: Text, i: nat, front: Text, name: Text, b: Text)
    requires 0 < i <= |text| && IsTrimmed(text) && AllSpace(front) && text[..i] == front + name + b
    ensures front == []
  {
    assert text[..i][0] == text[0];
  }

  lemma Reassemble(text: Text, i: nat, name: Text, b: Text, c: Text, q: Text, back: Text, tail: Text)
    requires i < |text| && text == text[..i] + [EQUALS] + text[i + 1..]
    requires text[..i] == [] + name + b && text[i + 1..] == c + q + back
    ensures text + tail == name + b + [EQUALS] + (c + q + (back + tail))
  {
  }

  lemma ExportSplits(whole: Text) returns (prefix: Text, inner: Text)
    requires StartsWith(whole, EXPORT)
    ensures IsExport(prefix) && AllSpace(inner) && whole == prefix + (TrimSpace(whole[7..]) + inner)
  {
    var lead;
    lead, inner := TrimSplits(whole[7..]);
    prefix := whole[..7] + lead;
    assert prefix[..7] == whole[..7] && prefix[7..] == lead;
    assert whole == whole[..7] + whole[7..];
  }

  lemma Reframe(line: Text, a: Text, whole: Text, tail: Text, prefix: Text, text: Text, inner: Text)
    requires line == a + whole + tail && whole == prefix + (text + inner)
    ensures line == a + (prefix + (text + (inner + tail)))
  {
  }

  /** A line that is not quiet is read with the white space and an `export` off. */
  lemma LineIsStripped(line: Text) returns (a: Text, prefix: Text, text: Text, tail: Text)
    requires ParseLine(line) != Nothing
    ensures line == a + (prefix + (text + tail)) && AllSpace(a) && AllSpace(tail) && IsTrimmed(text)
    ensures ParseLine(line) == ParseBinding(text)
    ensures if prefix == [] then !StartsWith(text, EXPORT) else IsExport(prefix)
  {
    var whole := TrimSpace(line);
    a, tail := TrimSplits(line);
    var inner;
    if StartsWith(whole, EXPORT) {
      prefix, inner := ExportSplits(whole);
      text := TrimSpace(whole[7..]);
    } else {
      prefix, text, inner := [], whole, [];
      assert whole == [] + (whole + []);
    }
    Reframe(line, a, whole, tail, prefix, text, inner);
    tail := inner + tail;
  }

  lemma BindingHasKey(text: Text)
    requires ParseBinding(text).Binding?
    ensures IndexOf(text, EQUALS) > 0 && IsKey(TrimSpace(text[..IndexOf(text, EQUALS)]))
  {
  }

  /** A binding falls into its parts. */
  lemma BindingParts(text: Text, i: nat) returns (name: Text, b: Text, c: Text, q: Text, d: Text)
    requires IsTrimmed(text) && i == IndexOf(text, EQUALS) > 0 && IsKey(TrimSpace(text[..i]))
    ensures text == name + b + [EQUALS] + (c + q + d)
    ensures IsKey(name) && IsTrimmed(q) && AllSpace(b) && AllSpace(c) && AllSpace(d)
  {
    IndexOfSplits(text, EQUALS);
    name, q := TrimSpace(text[..i]), TrimSpace(text[i + 1..]);
    var front;
    front, b := TrimSplits(text[..i]);
    c, d := TrimSplits(text[i + 1..]);
    NothingInFront(text, i, front, name, b);
    assert [] + name + b == name + b;
  }

  lemma PartsAreShaped(line: Text, a: Text, prefix: Text, text: Text, tail: Text, name: Text, b: Text, c: Text, q: Text, back: Text)
    requires line == a + (prefix + (text + tail)) && text == name + b + [EQUALS] + (c + q + back)
    requires AllSpace(a) && AllSpace(tail) && AllSpace(b) && AllSpace(c) && AllSpace(back) && IsKey(name) && IsTrimmed(q)
    requires if prefix == [] then !StartsWith(text, EXPORT) else IsExport(prefix)
    ensures Shaped(line, a, prefix, name, b, c, q, back + tail)
  {
    var d := back + tail;
    assert text + tail == name + b + [EQUALS] + (c + q + d);
    if prefix == [] && name == [101, 120, 112, 111, 114, 116] && b != [] && b[0] == BLANK {
      Associate(name + b, [EQUALS], c + q + back);
      ExportInFront(name, b, [EQUALS] + (c + q + back), text);
    }
  }

  /** Every line that is read as a binding has that shape. */
  lemma BindingIsShaped(line: Text) returns (a: Text, prefix: Text, name: Text, b: Text, c: Text, q: Text, d: Text)
    requires ParseLine(line).Binding?
    ensures Shaped(line, a, prefix, name, b, c, q, d)
  {
    var text, tail, back;
    a, prefix, text, tail := LineIsStripped(line);
    BindingHasKey(text);
    name, b, c, q, back := BindingParts(text, IndexOf(text, EQUALS));
    d := back + tail;
    PartsAreShaped(line, a, prefix, text, tail, name, b, c, q, back);
  }

  lemma ExportInFront(name: Text, b: Text, rest: Text, text: Text)
    requires name == [101, 120, 112, 111, 114, 116] && b != [] && b[0] == BLANK && text == name + b + rest
    ensures StartsWith(text, EXPORT)
  {
    var word := EXPORT;
    assert text[..7] == name + [b[0]] == word;
  }

  /** Exactly the lines of that shape, with a value that can be read, bind a key; and they bind it to that value. */
  lemma BindsIff(line: Text, key: Text, value: Text)
    ensures ParseLine(line) == Binding(key, value) <==>
            exists a, prefix, b, c, q, d :: Shaped(line, a, prefix, key, b, c, q, d) && ValueOf(q) == Some(value)
  {
    if ParseLine(line) == Binding(key, value) {
      var a, prefix, name, b, c, q, d := BindingIsShaped(line);
      ShapedLineIsParsed(line, a, prefix, name, b, c, q, d);
      assert Shaped(line, a, prefix, key, b, c, q, d) && ValueOf(q) == Some(value);
    }
    forall a, prefix, b, c, q, d | Shaped(line, a, prefix, key, b, c, q, d) && ValueOf(q) == Some(value)
      ensures ParseLine(line) == Binding(key, value)
    {
      ShapedLineIsParsed(line, a, prefix, key, b, c, q, d);
    }
  }

  /** Exactly the blank lines and the comments say nothing. */
  lemma QuietIff(line: Text)
    ensures ParseLine(line) == Nothing <==>
            AllSpace(line) || exists n: nat :: n < |line| && line[n] == HASH && AllSpace(line[..n])
  {
    if ParseLine(line) == Nothing {
      var a, tail := TrimSplits(line);
      if TrimSpace(line) != [] {
        assert line[|a|] == TrimSpace(line)[0] && line[..|a|] == a;
      }
    }
    if AllSpace(line) {
      assert line + [] == line;
      QuietLine(line, []);
    }
    forall n: nat | n < |line| && line[n] == HASH && AllSpace(line[..n])
      ensures ParseLine(line) == Nothing
    {
      QuietLine(line[..n], line[n..]);
      assert line == line[..n] + line[n..];
    }
  }

  /** Without an equals sign a line that says something is no binding at all. */
  lemma NoEqualsIsBadLine(line: Text)
    requires EQUALS !in line && ParseLine(line) != Nothing
    ensures ParseLine(line) == Invalid(BadLine)
  {
    var a, prefix, text, tail := LineIsStripped(line);
    assert forall c :: c in text ==> c in line;
    IndexOfSplits(text, EQUALS);
  }

  /** With one, and something before it that is no key, the key is refused. */
  lemma NoKeyIsBadKey(front: Text, rest: Text)
    requires front != [] && EQUALS !in front && !IsKey(TrimSpace(front))
    ensures ParseBinding(front + [EQUALS] + rest) == Invalid(BadKey)
  {
    IndexOfFirst(front, EQUALS, rest);
    assert (front + [EQUALS] + rest)[..|front|] == front;
  }

  // ----- The whole text ----------------------------------------------------------

  predicate Binds(meaning: Meaning, key: Text) { meaning.Binding? && meaning.name == key }

  /** A key is bound if it was, or some line from `i` on binds it ... */
  ghost predicate KeysAre(meanings: seq<Meaning>, i: nat, values: map<Text, Text>, all: map<Text, Text>) {
    forall k :: k in all <==> k in values || exists j :: i <= j < |meanings| && Binds(meanings[j], k)
  }

  /** ... to what the last such line says ... */
  ghost predicate LastWins(meanings: seq<Meaning>, i: nat, all: map<Text, Text>) {
    forall j :: i <= j < |meanings| && BindsLast(meanings, j) ==> meanings[j].name in all && all[meanings[j].name] == meanings[j].value
  }

  /** ... or to what it was bound to if there is none. */
  ghost predicate OthersStay(meanings: seq<Meaning>, i: nat, values: map<Text, Text>, all: map<Text, Text>) {
    forall k :: k in values && Unbound(meanings, i, k) ==> k in all && all[k] == values[k]
  }

  ghost predicate Unbound(meanings: seq<Meaning>, i: nat, key: Text) { forall j :: i <= j < |meanings| ==> !Binds(meanings[j], key) }

  /** No later line binds the key of this one. */
  ghost predicate BindsLast(meanings: seq<Meaning>, j: nat)
    requires j < |meanings|
  {
    meanings[j].Binding? && Unbound(meanings, j + 1, meanings[j].name)
  }

  /** What the lines come to, by what each of them means. */
  ghost predicate ComesTo(meanings: seq<Meaning>, i: nat, values: map<Text, Text>, r: ParseResult)
    requires i <= |meanings|
  {
    match r
    case Refused(what, line) =>
      i <= line < |meanings| && meanings[line] == Invalid(what) && forall j :: i <= j < line ==> !meanings[j].Invalid?
    case Parsed(all) =>
      && (forall j :: i <= j < |meanings| ==> !meanings[j].Invalid?)
      && KeysAre(meanings, i, values, all) && LastWins(meanings, i, all) && OthersStay(meanings, i, values, all)
  }

  lemma KeysNext(meanings: seq<Meaning>, i: nat, values: map<Text, Text>, all: map<Text, Text>)
    requires i < |meanings| && KeysAre(meanings, i + 1, With(values, meanings[i]), all)
    ensures KeysAre(meanings, i, values, all)
  {
  }

  lemma LastNext(meanings: seq<Meaning>, i: nat, values: map<Text, Text>, all: map<Text, Text>)
    requires i < |meanings| && LastWins(meanings, i + 1, all) && OthersStay(meanings, i + 1, With(values, meanings[i]), all)
    ensures LastWins(meanings, i, all)
  {
  }

  lemma OthersNext(meanings: seq<Meaning>, i: nat, values: map<Text, Text>, all: map<Text, Text>)
    requires i < |meanings| && OthersStay(meanings, i + 1, With(values, meanings[i]), all)
    ensures OthersStay(meanings, i, values, all)
  {
    forall k | k in values && Unbound(meanings, i, k)
      ensures k in all && all[k] == values[k]
    {
      assert !Binds(meanings[i], k) && Unbound(meanings, i + 1, k);
    }
  }

  lemma ComesToNext(meanings: seq<Meaning>, i: nat, values: map<Text, Text>, r: ParseResult)
    requires i < |meanings| && !meanings[i].Invalid?
    requires ComesTo(meanings, i + 1, With(values, meanings[i]), r)
    ensures ComesTo(meanings, i, values, r)
  {
    if r.Parsed? {
      KeysNext(meanings, i, values, r.values);
      LastNext(meanings, i, values, r.values);
      OthersNext(meanings, i, values, r.values);
    }
  }

  lemma {:induction false} LinesComeTo(meanings: seq<Meaning>, i: nat, values: map<Text, Text>)
    requires i <= |meanings|
    ensures ComesTo(meanings, i, values, Gather(meanings, i, values))
    decreases |meanings| - i
  {
    if i < |meanings| && !meanings[i].Invalid? {
      LinesComeTo(meanings, i + 1, With(values, meanings[i]));
      ComesToNext(meanings, i, values, Gather(meanings, i, values));
    }
  }

  /**
   * A text is refused with the first line that is no binding and not quiet;
   * otherwise each key has the value of the last line that binds it.
   */
  lemma TextMeans(text: Text, lines: seq<Text>, meanings: seq<Meaning>)
    requires lines == SplitOnLF(ReplaceCRLF(text))
    requires |lines| == |meanings| && forall j :: 0 <= j < |lines| ==> meanings[j] == ParseLine(lines[j])
    ensures ComesTo(meanings, 0, map[], Parse(text))
  {
    assert Meanings(lines) == meanings;
    LinesComeTo(meanings, 0, map[]);
  }

  /** Lines as they may be typed: each but the last ends in LF or CR LF. */
  function Typed(lines: seq<Text>, crlf: seq<bool>): Text
    requires |lines| == |crlf| + 1
  {
    if crlf == [] then lines[0] else lines[0] + (if crlf[0] then [RETURN, NEWLINE] else [NEWLINE]) + Typed(lines[1..], crlf[1..])
  }

  lemma SymbolStays(c: sym, rest: Text)
    requires c != RETURN || rest == [] || rest[0] != NEWLINE
    ensures ReplaceCRLF([c] + rest) == [c] + ReplaceCRLF(rest)
  {
    assert ([c] + rest)[1..] == rest;
  }

  lemma EndIsReplaced(crlf: bool, rest: Text)
    ensures ReplaceCRLF((if crlf then [RETURN, NEWLINE] else [NEWLINE]) + rest) == [NEWLINE] + ReplaceCRLF(rest)
  {
    if crlf {
      assert ([RETURN, NEWLINE] + rest)[2..] == rest;
    } else {
      SymbolStays(NEWLINE, rest);
    }
  }

  lemma {:induction false} LineStays(line: Text, rest: Text)
    requires NEWLINE !in line && (line != [] && line[|line| - 1] == RETURN ==> rest == [] || rest[0] != NEWLINE)
    ensures ReplaceCRLF(line + rest) == line + ReplaceCRLF(rest)
  {
    if line == [] {
      assert line + rest == rest;
    } else {
      var more := line[1..] + rest;
      assert line == [line[0]] + line[1..] && line + rest == [line[0]] + more;
      assert line[1..] != [] ==> line[1..][0] in line;
      SymbolStays(line[0], more);
      LineStays(line[1..], rest);
      Associate([line[0]], line[1..], ReplaceCRLF(rest));
    }
  }

  lemma FirstLineStays(line: Text, crlf: bool, rest: Text)
    requires NEWLINE !in line && (!crlf && line != [] ==> line[|line| - 1] != RETURN)
    ensures ReplaceCRLF(line + (if crlf then [RETURN, NEWLINE] else [NEWLINE]) + rest) == line + [NEWLINE] + ReplaceCRLF(rest)
  {
    var end := if crlf then [RETURN, NEWLINE] else [NEWLINE];
    Associate(line, end, rest);
    LineStays(line, end + rest);
    EndIsReplaced(crlf, rest);
    Associate(line, [NEWLINE], ReplaceCRLF(rest));
  }

  /** Both line ends separate lines, and nothing else does. */
  lemma {:induction false} LinesAreFound(lines: seq<Text>, crlf: seq<bool>)
    requires |lines| == |crlf| + 1 && forall i :: 0 <= i < |lines| ==> NEWLINE !in lines[i]
    requires forall i :: 0 <= i < |crlf| && !crlf[i] && lines[i] != [] ==> lines[i][|lines[i]| - 1] != RETURN
    ensures SplitOnLF(ReplaceCRLF(Typed(lines, crlf))) == lines
    decreases |crlf|
  {
    if crlf == [] {
      LineStays(lines[0], []);
      assert lines[0] + [] == lines[0] && ReplaceCRLF([]) == [];
      IndexOfSplits(lines[0], NEWLINE);
    } else {
      LinesAreFound(lines[1..], crlf[1..]);
      FirstLineStays(lines[0], crlf[0], Typed(lines[1..], crlf[1..]));
      SplitFirst(lines[0], ReplaceCRLF(Typed(lines[1..], crlf[1..])));
    }
  }

  // ----- Escapes -----------------------------------------------------------------

  /** What a symbol behind a backslash stands for in single quotes: n, r and t as in C, the backslash and the quote; no other. */
  lemma SingleEscape(c: sym)
    ensures Single([APOSTROPHE, BACKSLASH, c, APOSTROPHE]) ==
            if c as int == 'n' as int then Decoded([10]) else if c as int == 'r' as int then Decoded([13]) else if c as int == 't' as int then Decoded([9])
            else if c == BACKSLASH || c == APOSTROPHE then Decoded([c]) else Rejected(UnsupportedEscape)
  {
    var value := [APOSTROPHE, BACKSLASH, c, APOSTROPHE];
    assert SingleFrom(value, 3) == Decoded([]);
    assert Single(value) == SingleFrom(value, 1);
  }

  predicate IsPlain(s: Text) { forall i :: 0 <= i < |s| ==> s[i] != QUOTE && s[i] != BACKSLASH && s[i] != NEWLINE && !IsRaw(s[i]) }

  /** Plain text is passed over, in front of whatever follows. */
  lemma {:induction false} PlainIsPassed(s: Text, rest: Text)
    requires IsPlain(s)
    ensures Unescape(s + rest) == if Unescape(rest).None? then None else Some(s + Unescape(rest).value)
  {
    if s == [] {
      assert s + rest == rest;
      assert Unescape(rest).Some? ==> s + Unescape(rest).value == Unescape(rest).value;
    } else {
      PlainIsPassed(s[1..], rest);
      assert (s + rest)[1..] == s[1..] + rest;
      assert Unescape(rest).Some? ==> [s[0]] + (s[1..] + Unescape(rest).value) == s + Unescape(rest).value;
    }
  }

  lemma PlainIsUnquoted(s: Text, rest: Text)
    requires IsPlain(s)
    ensures Unquote([QUOTE] + s + rest) == if Unescape(rest).None? then None else Some(s + Unescape(rest).value)
  {
    PlainIsPassed(s, rest);
    assert ([QUOTE] + s + rest)[1..] == s + rest;
  }

  /** Plain text in double quotes stands for itself; without the closing quote, with anything after it, or with a line break inside it is refused. */
  lemma DoubleQuotes(s: Text, t: Text)
    requires IsPlain(s)
    ensures Unquote([QUOTE] + s + [QUOTE]) == Some(s)
    ensures Unquote([QUOTE] + s + []) == None
    ensures t != [] ==> Unquote([QUOTE] + s + ([QUOTE] + t)) == None
    ensures Unquote([QUOTE] + s + ([NEWLINE] + t)) == None
  {
    PlainIsUnquoted(s, [QUOTE]);
    PlainIsUnquoted(s, []);
    PlainIsUnquoted(s, [QUOTE] + t);
    PlainIsUnquoted(s, [NEWLINE] + t);
    assert s + [] == s;
  }

  /** The short escapes of double quotes, and what is not one. */
  lemma DoubleEscape(c: sym)
    ensures ShortMeaning(c) ==
            var n := c as int;
            if n == 'n' as int then Some(10) else if n == 'r' as int then Some(13) else if n == 't' as int then Some(9)
            else if n == 'a' as int then Some(7) else if n == 'b' as int then Some(8) else if n == 'f' as int then Some(12) else if n == 'v' as int then Some(11)
            else if c == BACKSLASH || c == QUOTE then Some(c) else None
  {
  }

  /** A short escape, and three octal digits for one byte. */
  lemma EscapesMean(c: sym, rest: Text, x: nat, y: nat, z: nat)
    requires x <= 3 && y <= 7 && z <= 7
    ensures ShortMeaning(c).Some? ==> Unescape([BACKSLASH, c] + rest) == Prepend(ShortMeaning(c).value, Unescape(rest))
    ensures Unescape([BACKSLASH, Digit(x), Digit(y), Digit(z)] + rest) == Prepend(OfByte(64 * x + 8 * y + z), Unescape(rest))
  {
    assert ([BACKSLASH, c] + rest)[2..] == rest;
    var s, digits := [BACKSLASH, Digit(x), Digit(y), Digit(z)] + rest, [Digit(x), Digit(y), Digit(z)];
    DigitRoundTrip(x);
    DigitRoundTrip(y);
    DigitRoundTrip(z);
    assert s[1..4] == digits && s[4..] == rest;
    assert digits[..2] == [Digit(x), Digit(y)] && [Digit(x), Digit(y)][..1] == [Digit(x)] && [Digit(x)][..0] == [];
    assert Value([Digit(x)], 8) == Some(x);
    assert Value([Digit(x), Digit(y)], 8) == Some(8 * x + y);
    assert Value(digits, 8) == Some(64 * x + 8 * y + z);
  }

  // ----- What is printed ---------------------------------------------------------

  predicate IsSpecial(c: sym) {
    var n := c as int;
    n == '#' as int || n == '\\' as int || n == '"' as int || n == '\'' as int || n == 10 || n == 13 || n == 9
  }

  lemma {:induction false} EscapesGrow(s: Text, shown: sym -> bool)
    ensures |Escapes(s, shown)| >= |s|
  {
    if s != [] {
      EscapesGrow(s[1..], shown);
    }
  }

  /** A value is printed as it is exactly if it has no white space at its ends and none of seven characters; otherwise in double quotes. */
  lemma PrintedBareIff(value: Text, shown: sym -> bool)
    ensures QuoteValue(value, shown) == value <==>
            (value == [] || (!IsSpace(value[0]) && !IsSpace(value[|value| - 1]))) && forall c :: c in value ==> !IsSpecial(c)
    ensures QuoteValue(value, shown) != value ==> QuoteValue(value, shown) == Quote(value, shown)
  {
    forall c: sym
      ensures c in SPECIAL <==> IsSpecial(c)
    {
      var all := SPECIAL;
      assert all[0] == HASH && all[1] == BACKSLASH && all[2] == QUOTE && all[3] == APOSTROPHE && all[4] == NEWLINE && all[5] == RETURN && all[6] == TAB;
      if IsSpecial(c) {
        assert c == all[0] || c == all[1] || c == all[2] || c == all[3] || c == all[4] || c == all[5] || c == all[6];
      }
    }
    EscapesGrow(value, shown);
    assert |Quote(value, shown)| > |value|;
  }
}
