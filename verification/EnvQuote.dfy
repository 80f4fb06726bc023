/**
 * Quoting in relay.env: double quotes as written by the serializer, and the
 * single quotes a person may type.
 */
module EnvQuote {
  import opened Base

  // ----- Text ------------------------------------------------------------------

  /**
   * A text as the library reads it: Unicode scalars, and bytes that belong to
   * none, which are numbered from `RAW` on. Every byte string reads as one such
   * text.
   */
  newtype sym = n: int | 0 <= n < 0xD800 || 0xE000 <= n < 0x11_0000 || 0x11_0080 <= n < 0x11_0100

  const RAW: int := 0x11_0000

  predicate IsScalar(n: int) { 0 <= n < 0xD800 || 0xE000 <= n < RAW }

  type Text = seq<sym>

  predicate IsRaw(c: sym) { c as int >= RAW }

  const NEWLINE: sym := 10
  const RETURN: sym := 13
  const TAB: sym := 9
  const BLANK: sym := 32
  const QUOTE: sym := 34
  const HASH: sym := 35
  const APOSTROPHE: sym := 39
  const EQUALS: sym := 61
  const BACKSLASH: sym := 92
  const UNDERSCORE: sym := 95

  /** What stands in for a byte that belongs to no scalar, when a quoted text holds it as it is. */
  const REPLACEMENT: sym := 0xFFFD

  // ----- Numeric escapes -------------------------------------------------------

  /** The digits 0 to 9 and a to f. */
  function Digit(d: nat): sym
    requires d < 16
  {
    if d < 10 then (48 + d) as sym else (87 + d) as sym
  }

  function HexDigits(n: nat, width: nat): (s: Text)
    ensures |s| == width
  {
    if width == 0 then [] else HexDigits(n / 16, width - 1) + [Digit(n % 16)]
  }

  function DigitValue(c: sym): int {
    if 48 <= c <= 57 then c as int - 48
    else if 97 <= c <= 102 then c as int - 87
    else if 65 <= c <= 70 then c as int - 55
    else -1
  }

  /** The value of digits to a base; none if one of them is no digit. */
  function Value(s: Text, base: nat): Option<nat> {
    if s == [] then Some(0)
    else
      var high := Value(s[..|s| - 1], base);
      var low := DigitValue(s[|s| - 1]);
      if high.None? || low < 0 || low >= base then None else Some(base * high.value + low)
  }

  function Power16(width: nat): nat { if width == 0 then 1 else 16 * Power16(width - 1) }

  lemma DigitRoundTrip(d: nat)
    requires d < 16
    ensures DigitValue(Digit(d)) == d
  {
  }

  lemma {:induction false} HexRoundTrip(n: nat, width: nat)
    requires n < Power16(width)
    ensures Value(HexDigits(n, width), 16) == Some(n)
  {
    if width > 0 {
      HexRoundTrip(n / 16, width - 1);
      DigitRoundTrip(n % 16);
      var s := HexDigits(n, width);
      assert s[..|s| - 1] == HexDigits(n / 16, width - 1);
    }
  }

  // ----- Double quotes ---------------------------------------------------------

  /** The letter of a short escape: n, r, t, a, b, f and v besides the two that stand for themselves. */
  function ShortLetter(c: sym): Option<sym> {
    if c == BACKSLASH || c == QUOTE then Some(c)
    else if c == NEWLINE then Some(110) else if c == RETURN then Some(114) else if c == TAB then Some(116)
    else if c == 7 then Some(97) else if c == 8 then Some(98) else if c == 12 then Some(102) else if c == 11 then Some(118)
    else None
  }

  function ShortMeaning(letter: sym): Option<sym> {
    if letter == BACKSLASH || letter == QUOTE then Some(letter)
    else if letter == 110 then Some(NEWLINE) else if letter == 114 then Some(RETURN) else if letter == 116 then Some(TAB)
    else if letter == 97 then Some(7) else if letter == 98 then Some(8) else if letter == 102 then Some(12) else if letter == 118 then Some(11)
    else None
  }

  /** x, u and U take two, four and eight hexadecimal digits. */
  function LongWidth(letter: sym): nat {
    if letter == 120 then 2 else if letter == 117 then 4 else if letter == 85 then 8 else 0
  }

  function LongLetter(c: sym): sym {
    if c < 32 || c == 127 || IsRaw(c) then 120 else if c as int < 0x1_0000 then 117 else 85
  }

  /** The number written for a symbol. */
  function Code(c: sym): nat { if IsRaw(c) then c as int - RAW else c as int }

  /** The symbol of a byte that stands alone. */
  function OfByte(n: nat): sym
    requires n < 0x100
  {
    if n < 0x80 then n as sym else (RAW + n) as sym
  }

  /** One symbol inside double quotes; `shown` tells which are shown as they are. */
  function Escape(c: sym, shown: sym -> bool): Text {
    var short := ShortLetter(c);
    if short.Some? then [BACKSLASH, short.value]
    else if !IsRaw(c) && shown(c) then [c]
    else [BACKSLASH, LongLetter(c)] + HexDigits(Code(c), LongWidth(LongLetter(c)))
  }

  function Escapes(s: Text, shown: sym -> bool): Text {
    if s == [] then [] else Escape(s[0], shown) + Escapes(s[1..], shown)
  }

  function Quote(s: Text, shown: sym -> bool): Text { [QUOTE] + Escapes(s, shown) + [QUOTE] }

  function Prepend(c: sym, rest: Option<Text>): Option<Text> {
    if rest.None? then None else Some([c] + rest.value)
  }

  /** The symbol of a numeric escape: x gives a byte, u and U a scalar. */
  function OfNumber(n: Option<nat>, width: nat): Option<sym> {
    if n.None? then None
    else if width == 2 then if n.value < 0x100 then Some(OfByte(n.value)) else None
    else if IsScalar(n.value) then Some(n.value as sym) else None
  }

  /** What follows the opening quote: symbols and escapes up to a closing quote at the very end. */
  function Unescape(s: Text): Option<Text>
    decreases |s|, 1
  {
    if s == [] || s[0] == NEWLINE then None
    else if s[0] == QUOTE then if |s| == 1 then Some([]) else None
    else if s[0] != BACKSLASH then Prepend(if IsRaw(s[0]) then REPLACEMENT else s[0], Unescape(s[1..]))
    else if |s| == 1 then None
    else
      var short, width := ShortMeaning(s[1]), LongWidth(s[1]);
      if short.Some? then Prepend(short.value, Unescape(s[2..]))
      else if 48 <= s[1] <= 55 then Unoctal(s)
      else if width == 0 || |s| < 2 + width then None
      else
        var c := OfNumber(Value(s[2..2 + width], 16), width);
        if c.None? then None else Prepend(c.value, Unescape(s[2 + width..]))
  }

  /** Three octal digits give a byte. */
  function Unoctal(s: Text): Option<Text>
    requires |s| >= 2
    decreases |s|, 0
  {
    if |s| < 4 then None
    else
      var c := OfNumber(Value(s[1..4], 8), 2);
      if c.None? then None else Prepend(c.value, Unescape(s[4..]))
  }

  function Unquote(s: Text): Option<Text> {
    if |s| < 2 || s[0] != QUOTE then None else Unescape(s[1..])
  }

  lemma LongFits(c: sym)
    ensures Code(c) < Power16(LongWidth(LongLetter(c)))
    ensures LongWidth(LongLetter(c)) > 0 && ShortMeaning(LongLetter(c)).None? && !(48 <= LongLetter(c) <= 55)
    ensures OfNumber(Some(Code(c)), LongWidth(LongLetter(c))) == Some(c)
  {
    assert Power16(2) == 0x100;
    assert Power16(4) == 0x1_0000 by { assert Power16(3) == 0x1000; }
    assert Power16(8) == 0x1_0000_0000 by { assert Power16(5) == 0x10_0000 && Power16(6) == 0x100_0000 && Power16(7) == 0x1000_0000; }
  }

  lemma LongEscape(c: sym, rest: Text)
    ensures Unescape([BACKSLASH, LongLetter(c)] + HexDigits(Code(c), LongWidth(LongLetter(c))) + rest) == Prepend(c, Unescape(rest))
  {
    var letter := LongLetter(c);
    var width := LongWidth(letter);
    var digits := HexDigits(Code(c), width);
    var s := [BACKSLASH, letter] + digits + rest;
    LongFits(c);
    HexRoundTrip(Code(c), width);
    assert s[2..2 + width] == digits && s[2 + width..] == rest;
  }

  lemma EscapeRoundTrip(c: sym, shown: sym -> bool, rest: Text)
    ensures Unescape(Escape(c, shown) + rest) == Prepend(c, Unescape(rest))
  {
    var short := ShortLetter(c);
    if short.Some? {
      assert ([BACKSLASH, short.value] + rest)[2..] == rest;
    } else if !IsRaw(c) && shown(c) {
      assert ([c] + rest)[1..] == rest;
    } else {
      LongEscape(c, rest);
    }
  }

  lemma {:induction false} EscapesRoundTrip(s: Text, shown: sym -> bool)
    ensures Unescape(Escapes(s, shown) + [QUOTE]) == Some(s)
  {
    if s == [] {
      assert Escapes(s, shown) + [QUOTE] == [QUOTE];
    } else {
      var c, more := s[0], s[1..];
      assert s == [c] + more;
      EscapesRoundTrip(more, shown);
      EscapeRoundTrip(c, shown, Escapes(more, shown) + [QUOTE]);
      Associate(Escape(c, shown), Escapes(more, shown), [QUOTE]);
    }
  }

  /** Unquoting undoes quoting, for every Text. */
  lemma QuoteRoundTrip(s: Text, shown: sym -> bool)
    ensures Unquote(Quote(s, shown)) == Some(s)
  {
    EscapesRoundTrip(s, shown);
    assert Quote(s, shown)[1..] == Escapes(s, shown) + [QUOTE];
  }

  predicate NoBreak(s: Text) { NEWLINE !in s && RETURN !in s }

  lemma {:induction false} HexHasNoBreak(n: nat, width: nat)
    ensures NoBreak(HexDigits(n, width))
  {
    if width > 0 {
      HexHasNoBreak(n / 16, width - 1);
    }
  }

  /** A quoted Text stays on one line. */
  lemma {:induction false} EscapesHaveNoBreak(s: Text, shown: sym -> bool)
    ensures NoBreak(Escapes(s, shown))
  {
    if s != [] {
      EscapesHaveNoBreak(s[1..], shown);
      var c := s[0];
      HexHasNoBreak(Code(c), LongWidth(LongLetter(c)));
      assert NoBreak(Escape(c, shown));
    }
  }

  // ----- Single quotes ---------------------------------------------------------

  datatype SingleError = Unterminated | Unescaped | InvalidEscape | UnsupportedEscape

  datatype SingleResult = Decoded(text: Text) | Rejected(error: SingleError)

  function SingleMeaning(letter: sym): Option<sym> {
    if letter == BACKSLASH || letter == APOSTROPHE then Some(letter)
    else if letter == 110 then Some(NEWLINE) else if letter == 114 then Some(RETURN) else if letter == 116 then Some(TAB)
    else None
  }

  function After(prefix: Text, rest: SingleResult): SingleResult {
    if rest.Rejected? then rest else Decoded(prefix + rest.text)
  }

  /** The content from `i` up to the closing quote. */
  function SingleFrom(value: Text, i: nat): SingleResult
    requires i <= |value| - 1
    decreases |value| - i
  {
    var end := |value| - 1;
    if i == end then Decoded([])
    else if value[i] == APOSTROPHE then Rejected(Unescaped)
    else if value[i] != BACKSLASH then After([value[i]], SingleFrom(value, i + 1))
    else if i + 1 >= end then Rejected(InvalidEscape)
    else
      var c := SingleMeaning(value[i + 1]);
      if c.None? then Rejected(UnsupportedEscape) else After([c.value], SingleFrom(value, i + 2))
  }

  function Single(value: Text): SingleResult {
    if |value| < 2 || value[|value| - 1] != APOSTROPHE then Rejected(Unterminated) else SingleFrom(value, 1)
  }

  method ParseSingleQuoted(value: Text) returns (r: SingleResult)
    ensures r == Single(value)
  {
    if |value| < 2 || value[|value| - 1] != APOSTROPHE {
      return Rejected(Unterminated);
    }
    var out := [];
    var i := 1;
    while i < |value| - 1
      invariant 1 <= i <= |value| - 1
      invariant Single(value) == After(out, SingleFrom(value, i))
    {
      if value[i] == APOSTROPHE {
        return Rejected(Unescaped);
      }
      if value[i] != BACKSLASH {
        AfterAfter(out, [value[i]], SingleFrom(value, i + 1));
        out := out + [value[i]];
        i := i + 1;
        continue;
      }
      i := i + 1;
      if i >= |value| - 1 {
        return Rejected(InvalidEscape);
      }
      var c := SingleMeaning(value[i]);
      if c.None? {
        return Rejected(UnsupportedEscape);
      }
      AfterAfter(out, [c.value], SingleFrom(value, i + 1));
      out := out + [c.value];
      i := i + 1;
    }
    return Decoded(out);
  }

  lemma AfterAfter(a: Text, b: Text, rest: SingleResult)
    ensures After(a, After(b, rest)) == After(a + b, rest)
  {
    if rest.Decoded? {
      assert a + (b + rest.text) == a + b + rest.text;
    }
  }

  /** The single-quoted form of a text. */
  function SingleEscapes(s: Text): Text {
    if s == [] then []
    else (if s[0] == BACKSLASH || s[0] == APOSTROPHE then [BACKSLASH, s[0]] else [s[0]]) + SingleEscapes(s[1..])
  }

  lemma {:induction false} SingleRoundTripFrom(front: Text, s: Text)
    ensures SingleFrom(front + SingleEscapes(s) + [APOSTROPHE], |front|) == Decoded(s)
    decreases |s|
  {
    var value := front + SingleEscapes(s) + [APOSTROPHE];
    if s != [] {
      var piece := if s[0] == BACKSLASH || s[0] == APOSTROPHE then [BACKSLASH, s[0]] else [s[0]];
      SingleRoundTripFrom(front + piece, s[1..]);
      assert value == front + piece + SingleEscapes(s[1..]) + [APOSTROPHE];
      assert value[|front|] == piece[0];
      if |piece| == 2 {
        assert value[|front| + 1] == piece[1];
      }
      assert [s[0]] + s[1..] == s;
    }
  }

  /** Any text can be given in single quotes. */
  lemma SingleRoundTrip(s: Text)
    ensures Single([APOSTROPHE] + SingleEscapes(s) + [APOSTROPHE]) == Decoded(s)
  {
    SingleRoundTripFrom([APOSTROPHE], s);
  }
}
