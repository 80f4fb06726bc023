/**
 * The relay.env format: a strict parser, a canonical printer, and the round trip
 * between them for every mapping with valid keys.
 */
module EnvFile {
  import opened Base
  import opened EnvQuote

  // ----- Lines and white space -------------------------------------------------

  predicate IsSpace(c: sym) {
    var n := c as int;
    9 <= n <= 13 || n == 32 || n == 0x85 || n == 0xA0 || n == 0x1680 || 0x2000 <= n <= 0x200A
    || n == 0x2028 || n == 0x2029 || n == 0x202F || n == 0x205F || n == 0x3000
  }

  predicate IsTrimmed(s: Text) { s == [] || (!IsSpace(s[0]) && !IsSpace(s[|s| - 1])) }

  function TrimSpace(s: Text): (r: Text)
    ensures IsTrimmed(r) && (IsTrimmed(s) ==> r == s)
    decreases |s|
  {
    if s == [] then s
    else if IsSpace(s[0]) then TrimSpace(s[1..])
    else if IsSpace(s[|s| - 1]) then TrimSpace(s[..|s| - 1])
    else s
  }

  /** Position of the first `c`, or -1. */
  function IndexOf(s: Text, c: sym): (i: int)
    ensures -1 <= i < |s|
  {
    if s == [] then -1
    else if s[0] == c then 0
    else
      var i := IndexOf(s[1..], c);
      if i < 0 then -1 else i + 1
  }

  lemma {:induction false} IndexOfFirst(front: Text, c: sym, rest: Text)
    requires c !in front
    ensures IndexOf(front + [c] + rest, c) == |front|
  {
    var s := front + [c] + rest;
    if front != [] {
      assert s[0] == front[0] && front[0] in front;
      assert s[1..] == front[1..] + [c] + rest;
      IndexOfFirst(front[1..], c, rest);
    }
  }

  function ReplaceCRLF(s: Text): Text {
    if s == [] then []
    else if |s| >= 2 && s[0] == RETURN && s[1] == NEWLINE then [NEWLINE] + ReplaceCRLF(s[2..])
    else [s[0]] + ReplaceCRLF(s[1..])
  }

  function SplitOnLF(s: Text): (lines: seq<Text>)
    ensures lines != []
    decreases |s|
  {
    var i := IndexOf(s, NEWLINE);
    if i < 0 then [s] else [s[..i]] + SplitOnLF(s[i + 1..])
  }

  // ----- Parsing ---------------------------------------------------------------

  predicate IsLetter(c: sym) { 65 <= c <= 90 || 97 <= c <= 122 || c == UNDERSCORE }

  predicate IsKey(s: Text) {
    s != [] && IsLetter(s[0]) && forall i :: 0 <= i < |s| ==> IsLetter(s[i]) || 48 <= s[i] <= 57
  }

  function ParseValue(raw: Text): Option<Text> {
    var value := TrimSpace(raw);
    if value == [] then Some([])
    else if value[0] == QUOTE then Unquote(value)
    else if value[0] == APOSTROPHE then
      match Single(value)
      case Decoded(text) => Some(text)
      case Rejected(_) => None
    else Some(value)
  }

  /** The word `export` and a blank. */
  const EXPORT: Text := [101, 120, 112, 111, 114, 116, 32]

  datatype Meaning = Nothing | Binding(name: Text, value: Text) | Invalid(what: Defect)

  datatype Defect = BadLine | BadKey | BadValue

  predicate StartsWith(s: Text, prefix: Text) { |prefix| <= |s| && s[..|prefix|] == prefix }

  function ParseLine(line: Text): Meaning {
    var whole := TrimSpace(line);
    if whole == [] || whole[0] == HASH then Nothing
    else ParseBinding(if StartsWith(whole, EXPORT) then TrimSpace(whole[7..]) else whole)
  }

  function ParseBinding(text: Text): Meaning {
    var i := IndexOf(text, EQUALS);
    if i <= 0 then Invalid(BadLine)
    else
      var name := TrimSpace(text[..i]);
      if !IsKey(name) then Invalid(BadKey)
      else
        var value := ParseValue(text[i + 1..]);
        if value.None? then Invalid(BadValue) else Binding(name, value.value)
  }

  datatype ParseResult = Parsed(values: map<Text, Text>) | Refused(what: Defect, line: nat)

  function With(values: map<Text, Text>, meaning: Meaning): map<Text, Text> {
    if meaning.Binding? then values[meaning.name := meaning.value] else values
  }

  /** What the lines from `i` on come to, with the values so far; a later line for the same key wins. */
  function Gather(meanings: seq<Meaning>, i: nat, values: map<Text, Text>): ParseResult
    requires i <= |meanings|
    decreases |meanings| - i
  {
    if i == |meanings| then Parsed(values)
    else if meanings[i].Invalid? then Refused(meanings[i].what, i)
    else Gather(meanings, i + 1, With(values, meanings[i]))
  }

  function Meanings(lines: seq<Text>): (meanings: seq<Meaning>)
    ensures |meanings| == |lines|
  {
    seq(|lines|, i requires 0 <= i < |lines| => ParseLine(lines[i]))
  }

  function ParseLines(lines: seq<Text>, i: nat, values: map<Text, Text>): ParseResult
    requires i <= |lines|
  {
    Gather(Meanings(lines), i, values)
  }

  function Parse(text: Text): ParseResult { ParseLines(SplitOnLF(ReplaceCRLF(text)), 0, map[]) }

  method ParseEnvText(text: Text) returns (r: ParseResult)
    ensures r == Parse(text)
  {
    r := ParseEach(SplitOnLF(ReplaceCRLF(text)));
  }

  method ParseEach(lines: seq<Text>) returns (r: ParseResult)
    ensures r == ParseLines(lines, 0, map[])
  {
    var values := map[];
    var i := 0;
    while i < |lines|
      invariant 0 <= i <= |lines| && ParseLines(lines, 0, map[]) == ParseLines(lines, i, values)
    {
      var meaning := ParseLine(lines[i]);
      ParsesNext(lines, i, values, meaning);
      if meaning.Invalid? {
        return Refused(meaning.what, i);
      }
      if meaning.Binding? {
        values := values[meaning.name := meaning.value];
      }
      i := i + 1;
    }
    return Parsed(values);
  }

  /** One line, by its meaning. */
  lemma ParsesNext(lines: seq<Text>, i: nat, values: map<Text, Text>, meaning: Meaning)
    requires i < |lines| && ParseLine(lines[i]) == meaning
    ensures ParseLines(lines, i, values) ==
            match meaning
            case Nothing => ParseLines(lines, i + 1, values)
            case Binding(name, value) => ParseLines(lines, i + 1, values[name := value])
            case Invalid(what) => Refused(what, i)
  {
  }

  // ----- Printing --------------------------------------------------------------

  const SPECIAL: Text := [HASH, BACKSLASH, QUOTE, APOSTROPHE, NEWLINE, RETURN, TAB]

  predicate NeedsQuotes(value: Text) { TrimSpace(value) != value || exists c :: c in value && c in SPECIAL }

  function QuoteValue(value: Text, shown: sym -> bool): Text {
    if NeedsQuotes(value) then Quote(value, shown) else value
  }

  function Line(name: Text, value: Text, shown: sym -> bool): Text { name + [EQUALS] + QuoteValue(value, shown) }

  function Render(keys: seq<Text>, m: map<Text, Text>, shown: sym -> bool): Text
    requires forall k :: k in keys ==> k in m
  {
    if keys == [] then [] else Line(keys[0], m[keys[0]], shown) + [NEWLINE] + Render(keys[1..], m, shown)
  }

  // ----- One line there and back -----------------------------------------------

  lemma QuotedValueParses(value: Text, shown: sym -> bool)
    ensures ParseValue(Quote(value, shown)) == Some(value) && NoBreak(Quote(value, shown)) && IsTrimmed(Quote(value, shown))
  {
    QuoteRoundTrip(value, shown);
    EscapesHaveNoBreak(value, shown);
  }

  lemma PlainValueParses(value: Text)
    requires !NeedsQuotes(value)
    ensures ParseValue(value) == Some(value) && NoBreak(value)
  {
    assert NEWLINE in SPECIAL && RETURN in SPECIAL && QUOTE in SPECIAL && APOSTROPHE in SPECIAL by {
      assert SPECIAL[4] == NEWLINE && SPECIAL[5] == RETURN && SPECIAL[2] == QUOTE && SPECIAL[3] == APOSTROPHE;
    }
    if value != [] {
      assert value[0] in value;
    }
  }

  lemma ValueParses(value: Text, shown: sym -> bool)
    ensures var q := QuoteValue(value, shown);
            ParseValue(q) == Some(value) && NoBreak(q) && IsTrimmed(q)
  {
    if NeedsQuotes(value) {
      QuotedValueParses(value, shown);
    } else {
      PlainValueParses(value);
    }
  }

  lemma KeyIsPlain(name: Text)
    requires IsKey(name)
    ensures IsTrimmed(name) && NoBreak(name) && EQUALS !in name && BLANK !in name && name[0] != HASH
  {
  }

  lemma LineIsTrimmed(name: Text, q: Text)
    requires IsKey(name) && IsTrimmed(q)
    ensures var line := name + [EQUALS] + q; IsTrimmed(line) && !StartsWith(line, EXPORT)
  {
    var line := name + [EQUALS] + q;
    KeyIsPlain(name);
    assert line[|name|] == EQUALS && forall i :: 0 <= i < |name| ==> line[i] in name;
    assert |line| >= 7 ==> forall i :: 0 <= i < 7 ==> line[..7][i] == line[i];
    var prefix := EXPORT;
    assert prefix[6] == BLANK && forall i :: 0 <= i < 7 ==> prefix[i] != EQUALS;
  }

  /** The line printed for a binding is parsed as that binding. */
  lemma LineParses(name: Text, value: Text, shown: sym -> bool)
    requires IsKey(name)
    ensures ParseLine(Line(name, value, shown)) == Binding(name, value) && NoBreak(Line(name, value, shown))
  {
    var q := QuoteValue(value, shown);
    ValueParses(value, shown);
    KeyIsPlain(name);
    LineIsTrimmed(name, q);
    IndexOfFirst(name, EQUALS, q);
    var line := name + [EQUALS] + q;
    assert line[..|name|] == name && line[|name| + 1..] == q && line[0] == name[0];
  }

  // ----- The whole text there and back -----------------------------------------

  lemma {:induction false} NoCRStays(s: Text)
    requires RETURN !in s
    ensures ReplaceCRLF(s) == s
  {
    if s != [] {
      assert s[0] in s;
      assert s == [s[0]] + s[1..];
      NoCRStays(s[1..]);
    }
  }

  lemma SplitFirst(line: Text, rest: Text)
    requires NEWLINE !in line
    ensures SplitOnLF(line + [NEWLINE] + rest) == [line] + SplitOnLF(rest)
  {
    var s := line + [NEWLINE] + rest;
    IndexOfFirst(line, NEWLINE, rest);
    assert s[..|line|] == line && s[|line| + 1..] == rest;
  }

  lemma {:induction false} RenderHasNoCR(keys: seq<Text>, m: map<Text, Text>, shown: sym -> bool)
    requires forall k :: k in keys ==> k in m && IsKey(k)
    ensures RETURN !in Render(keys, m, shown)
  {
    if keys != [] {
      LineParses(keys[0], m[keys[0]], shown);
      RenderHasNoCR(keys[1..], m, shown);
    }
  }

  /** `values` with the bindings of `keys` put in. */
  function Bound(values: map<Text, Text>, keys: seq<Text>, m: map<Text, Text>): map<Text, Text>
    requires forall k :: k in keys ==> k in m
    decreases |keys|
  {
    if keys == [] then values else Bound(values[keys[0] := m[keys[0]]], keys[1..], m)
  }

  lemma {:induction false} BoundMeans(values: map<Text, Text>, keys: seq<Text>, m: map<Text, Text>)
    requires forall k :: k in keys ==> k in m
    ensures forall k :: k in Bound(values, keys, m) <==> k in values || k in keys
    ensures forall k :: k in Bound(values, keys, m) ==> Bound(values, keys, m)[k] == if k in keys then m[k] else values[k]
    decreases |keys|
  {
    if keys != [] {
      assert keys == [keys[0]] + keys[1..];
      BoundMeans(values[keys[0] := m[keys[0]]], keys[1..], m);
    }
  }

  lemma NothingAtEnd(front: seq<Text>, values: map<Text, Text>)
    ensures ParseLines(front + [[]], |front|, values) == Parsed(values)
  {
    ParsesNext(front + [[]], |front|, values, Nothing);
  }

  lemma MeaningAt(front: seq<Text>, line: Text, rest: seq<Text>)
    ensures Meanings(front + ([line] + rest))[|front|] == ParseLine(line)
  {
    assert (front + ([line] + rest))[|front|] == line;
  }

  lemma LineThenRest(front: seq<Text>, line: Text, rest: seq<Text>, values: map<Text, Text>, name: Text, value: Text)
    requires Meanings(front + ([line] + rest))[|front|] == Binding(name, value)
    ensures ParseLines(front + ([line] + rest), |front|, values) == ParseLines((front + [line]) + rest, |front + [line]|, values[name := value])
  {
    assert front + ([line] + rest) == (front + [line]) + rest;
  }

  lemma {:induction false} RenderParses(front: seq<Text>, keys: seq<Text>, m: map<Text, Text>, shown: sym -> bool, values: map<Text, Text>)
    requires forall k :: k in keys ==> k in m && IsKey(k)
    ensures ParseLines(front + SplitOnLF(Render(keys, m, shown)), |front|, values) == Parsed(Bound(values, keys, m))
    decreases |keys|
  {
    if keys == [] {
      assert SplitOnLF([]) == [[]];
      NothingAtEnd(front, values);
    } else {
      var name, value := keys[0], m[keys[0]];
      var line, rest := Line(name, value, shown), Render(keys[1..], m, shown);
      LineParses(name, value, shown);
      SplitFirst(line, rest);
      RenderParses(front + [line], keys[1..], m, shown, values[name := value]);
      MeaningAt(front, line, SplitOnLF(rest));
      LineThenRest(front, line, SplitOnLF(rest), values, name, value);
    }
  }

  /** Parsing the printed text gives the mapping back, whatever the values and in whatever order the keys were printed. */
  lemma RoundTrip(keys: seq<Text>, m: map<Text, Text>, shown: sym -> bool)
    requires forall k :: k in keys <==> k in m
    requires forall k :: k in m ==> IsKey(k)
    ensures Parse(Render(keys, m, shown)) == Parsed(m)
  {
    var text := Render(keys, m, shown);
    RenderHasNoCR(keys, m, shown);
    NoCRStays(text);
    RenderParses([], keys, m, shown, map[]);
    assert [] + SplitOnLF(text) == SplitOnLF(text);
    BindsAll(keys, m);
  }

  lemma BindsAll(keys: seq<Text>, m: map<Text, Text>)
    requires forall k :: k in keys <==> k in m
    ensures Bound(map[], keys, m) == m
  {
    BoundMeans(map[], keys, m);
  }

  // ----- Sorted keys -----------------------------------------------------------

  /** Strictly before, in lexicographic order. */
  predicate Before(a: Text, b: Text) {
    if b == [] then false
    else if a == [] then true
    else a[0] < b[0] || (a[0] == b[0] && Before(a[1..], b[1..]))
  }

  lemma {:induction false} BeforeIsTotal(a: Text, b: Text)
    ensures Before(a, b) || a == b || Before(b, a)
    ensures !(Before(a, b) && Before(b, a)) && !Before(a, a)
  {
    if a != [] && b != [] {
      assert a == [a[0]] + a[1..] && b == [b[0]] + b[1..];
      BeforeIsTotal(a[1..], b[1..]);
    }
    if a != [] {
      BeforeIsTotal(a[1..], a[1..]);
    }
  }

  lemma {:induction false} BeforeIsTransitive(a: Text, b: Text, c: Text)
    requires Before(a, b) && Before(b, c)
    ensures Before(a, c)
  {
    if a != [] && a[0] == b[0] == c[0] {
      BeforeIsTransitive(a[1..], b[1..], c[1..]);
    }
  }

  predicate IsLeast(k: Text, keys: set<Text>) { k in keys && forall j :: j in keys && j != k ==> Before(k, j) }

  lemma {:induction false} LeastExists(keys: set<Text>)
    requires keys != {}
    ensures exists k :: IsLeast(k, keys)
  {
    var x :| x in keys;
    if keys == {x} {
      assert IsLeast(x, keys);
    } else {
      LeastExists(keys - {x});
      var k :| IsLeast(k, keys - {x});
      BeforeIsTotal(k, x);
      if Before(k, x) {
        assert IsLeast(k, keys);
      } else {
        forall j | j in keys && j != x
          ensures Before(x, j)
        {
          if j != k {
            BeforeIsTransitive(x, k, j);
          }
        }
        assert IsLeast(x, keys);
      }
    }
  }

  /** The keys in ascending order. */
  ghost predicate Enumerates(order: seq<Text>, keys: set<Text>)
    decreases |order|
  {
    if order == [] then keys == {} else IsLeast(order[0], keys) && Enumerates(order[1..], keys - {order[0]})
  }

  lemma {:induction false} EnumerationCovers(order: seq<Text>, keys: set<Text>)
    requires Enumerates(order, keys)
    ensures forall k :: k in order <==> k in keys
    decreases |order|
  {
    if order != [] {
      assert order == [order[0]] + order[1..];
      EnumerationCovers(order[1..], keys - {order[0]});
    }
  }

  /** There is one such order, so the printed text is canonical. */
  lemma {:induction false} OrderIsCanonical(a: seq<Text>, b: seq<Text>, keys: set<Text>)
    requires Enumerates(a, keys) && Enumerates(b, keys)
    ensures a == b
    decreases |a|
  {
    if a != [] {
      assert b != [];
      BeforeIsTotal(a[0], b[0]);
      assert a[0] == b[0];
      OrderIsCanonical(a[1..], b[1..], keys - {a[0]});
      assert a == [a[0]] + a[1..] && b == [b[0]] + b[1..];
    }
  }

  method SortStrings(keys: set<Text>) returns (order: seq<Text>)
    ensures Enumerates(order, keys)
    decreases |keys|
  {
    if keys == {} {
      return [];
    }
    LeastExists(keys);
    var k :| IsLeast(k, keys);
    var rest := SortStrings(keys - {k});
    assert ([k] + rest)[1..] == rest;
    return [k] + rest;
  }

  datatype SerializeResult = Printed(text: Text) | BadName(name: Text)

  /** Refuses exactly the mappings with an invalid key; otherwise the text parses back to the mapping. */
  method SerializeEnvMapping(m: map<Text, Text>, shown: sym -> bool) returns (r: SerializeResult)
    ensures r.Printed? <==> forall k :: k in m ==> IsKey(k)
    ensures r.BadName? ==> r.name in m && !IsKey(r.name)
    ensures r.Printed? ==> Parse(r.text) == Parsed(m)
    ensures r.Printed? ==> exists order :: Enumerates(order, m.Keys) && PrintedAs(r.text, order, m, shown)
  {
    var bad := InvalidName(m);
    if bad.Some? {
      return BadName(bad.value);
    }
    var keys := SortStrings(m.Keys);
    EnumerationCovers(keys, m.Keys);
    var out := PrintLines(keys, m, shown);
    RoundTrip(keys, m, shown);
    assert PrintedAs(out, keys, m, shown);
    return Printed(out);
  }

  method InvalidName(m: map<Text, Text>) returns (bad: Option<Text>)
    ensures bad.None? <==> forall k :: k in m ==> IsKey(k)
    ensures bad.Some? ==> bad.value in m && !IsKey(bad.value)
  {
    var names := m.Keys;
    while names != {}
      invariant names <= m.Keys && forall k :: k in m && k !in names ==> IsKey(k)
      decreases names
    {
      var name :| name in names;
      if !IsKey(name) {
        return Some(name);
      }
      names := names - {name};
    }
    return None;
  }

  lemma Appends(out: Text, name: Text, value: Text, rest: Text)
    ensures out + (name + [EQUALS] + value + [NEWLINE] + rest) == out + name + [EQUALS] + value + [NEWLINE] + rest
  {
  }

  method PrintLines(keys: seq<Text>, m: map<Text, Text>, shown: sym -> bool) returns (out: Text)
    requires forall k :: k in keys ==> k in m
    ensures out == Render(keys, m, shown)
  {
    out := [];
    var i := 0;
    while i < |keys|
      invariant 0 <= i <= |keys| && Render(keys, m, shown) == out + Render(keys[i..], m, shown)
    {
      var name, value := keys[i], QuoteValue(m[keys[i]], shown);
      assert keys[i..][1..] == keys[i + 1..];
      Appends(out, name, value, Render(keys[i + 1..], m, shown));
      out := out + name;
      out := out + [EQUALS];
      out := out + value;
      out := out + [NEWLINE];
      i := i + 1;
    }
  }

  ghost predicate PrintedAs(text: Text, order: seq<Text>, m: map<Text, Text>, shown: sym -> bool) {
    (forall k :: k in order ==> k in m) && text == Render(order, m, shown)
  }
}
