/** The part of Python's `json` module the event frames are written with: `json.dumps` of a
    string with its default `ensure_ascii=True` escaping, of the object `{"type": k, "content": c}`
    with the default `", "` and `": "` separators, and a reader that takes both back. */
module Json {
  import opened Wrappers

  // ---------------------------------------------------------------------------------------
  // Hexadecimal digits, as `'{0:04x}'.format(n)` writes them

  function HexDigit(d: nat): (c: char)
    requires d < 16
    ensures HexValue(c) == Some(d) && Printable(c)
  {
    "0123456789abcdef"[d]
  }

  /** The value of one hexadecimal digit; the reader accepts both cases. */
  function HexValue(c: char): Option<nat> {
    if '0' <= c <= '9' then Some(c as int - '0' as int)
    else if 'a' <= c <= 'f' then Some(c as int - 'a' as int + 10)
    else if 'A' <= c <= 'F' then Some(c as int - 'A' as int + 10)
    else None
  }

  function Pow16(w: nat): (p: nat)
    ensures p > 0
  {
    if w == 0 then 1 else 16 * Pow16(w - 1)
  }

  /** The `w` lowest hexadecimal digits of `n`, zero-padded, most significant first. */
  function Hex(n: nat, w: nat): (s: string)
    ensures |s| == w && AllPrintable(s)
  {
    if w == 0 then "" else Hex(n / 16, w - 1) + [HexDigit(n % 16)]
  }

  /** Reading hexadecimal digits back as a number; `None` for a character that is not one. */
  function ParseHex(s: string): Option<nat>
    decreases |s|
  {
    if s == [] then Some(0)
    else
      match (ParseHex(s[..|s| - 1]), HexValue(s[|s| - 1]))
      case (Some(p), Some(d)) => Some(p * 16 + d)
      case _ => None
  }

  /** Hexadecimal text wide enough for its number reads back as that number. */
  lemma {:induction false} HexRoundTrip(n: nat, w: nat)
    requires n < Pow16(w)
    ensures ParseHex(Hex(n, w)) == Some(n)
    decreases w
  {
    if w > 0 {
      var s := Hex(n, w);
      HexRoundTrip(n / 16, w - 1);
      assert s[..|s| - 1] == Hex(n / 16, w - 1);
    }
  }

  /** Four digits, the width of a `\uXXXX` escape. */
  function Hex4(n: nat): (s: string)
    requires n < 0x10000
    ensures |s| == 4 && ParseHex(s) == Some(n) && AllPrintable(s)
  {
    assert Pow16(4) == 0x10000;
    HexRoundTrip(n, 4);
    Hex(n, 4)
  }

  // ---------------------------------------------------------------------------------------
  // Writing a string

  predicate Printable(c: char) {
    ' ' <= c <= '~'
  }

  predicate AllPrintable(s: string) {
    forall i :: 0 <= i < |s| ==> Printable(s[i])
  }

  lemma PrintableConcat(a: string, b: string)
    requires AllPrintable(a) && AllPrintable(b)
    ensures AllPrintable(a + b)
  {
  }

  /** The letter of the two-character escape `json.dumps` uses for the backslash, the quote,
      the newline, the carriage return, the tab, the backspace and the form feed. */
  function ShortEscape(c: char): (e: Option<char>)
    ensures e.Some? ==> Printable(e.value) && Unshort(e.value) == Some(c)
  {
    if c == '"' then Some('"')
    else if c == '\\' then Some('\\')
    else if c == '\n' then Some('n')
    else if c == '\r' then Some('r')
    else if c == '\t' then Some('t')
    else if c as int == 8 then Some('b')
    else if c as int == 12 then Some('f')
    else None
  }

  /** The character a two-character escape stands for, as `json.loads` reads it. */
  function Unshort(e: char): Option<char> {
    if e == '"' then Some('"')
    else if e == '\\' then Some('\\')
    else if e == '/' then Some('/')
    else if e == 'n' then Some('\n')
    else if e == 'r' then Some('\r')
    else if e == 't' then Some('\t')
    else if e == 'b' then Some(8 as char)
    else if e == 'f' then Some(12 as char)
    else None
  }

  /** `\uXXXX` for a code unit. */
  function UnitEscape(u: nat): (r: string)
    requires u < 0x10000
    ensures |r| == 6 && r[0] == '\\' && r[1] == 'u' && r[2..] == Hex4(u) && AllPrintable(r)
  {
    "\\u" + Hex4(u)
  }

  /** The high and low surrogates UTF-16 writes a code point above `0xFFFF` with. */
  function HighSurrogate(n: int): int {
    0xD800 + (n - 0x10000) / 0x400
  }

  function LowSurrogate(n: int): int {
    0xDC00 + (n - 0x10000) % 0x400
  }

  /** How `ensure_ascii` writes one character: a two-character escape, a printable ASCII
      character as itself, any other character as `\uXXXX` in lower-case hexadecimal, or as
      the `\uXXXX\uXXXX` surrogate pair when its code point lies above `0xFFFF`. */
  function EscapeChar(c: char): (r: string)
    ensures 0 < |r| && AllPrintable(r)
    ensures r[0] == '\\' || (r == [c] && c != '"')
  {
    var n := c as int;
    if ShortEscape(c).Some? then ['\\', ShortEscape(c).value]
    else if Printable(c) then [c]
    else if n < 0x10000 then UnitEscape(n)
    else
      PrintableConcat(UnitEscape(HighSurrogate(n)), UnitEscape(LowSurrogate(n)));
      UnitEscape(HighSurrogate(n)) + UnitEscape(LowSurrogate(n))
  }

  /** The body of the JSON string literal for `s`, without its quotes. */
  function Escape(s: string): (r: string)
    ensures AllPrintable(r)
    decreases |s|
  {
    if s == [] then ""
    else
      PrintableConcat(EscapeChar(s[0]), Escape(s[1..]));
      EscapeChar(s[0]) + Escape(s[1..])
  }

  /** The fixed text of `json.dumps({"type": kind, "content": content})` around the two values. */
  const OpenType := "{\"type\": \""
  const OpenContent := ", \"content\": \""

  /** `json.dumps({"type": kind, "content": content})`: each value is written between quotes
      with `Escape`. */
  function DumpsFrame(kind: string, content: string): (r: string)
    ensures AllPrintable(r)
    ensures |r| >= |OpenType| && r[..|OpenType|] == OpenType
  {
    var tail := Escape(kind) + ("\"" + (OpenContent + (Escape(content) + "\"}")));
    DumpsPrintable(Escape(kind), Escape(content));
    assert (OpenType + tail)[..|OpenType|] == OpenType;
    OpenType + tail
  }

  /** The fixed parts of the dumped object are printable, so the whole object is printable
      when the two escaped values are. */
  lemma DumpsPrintable(k: string, c: string)
    requires AllPrintable(k) && AllPrintable(c)
    ensures AllPrintable(OpenType + (k + ("\"" + (OpenContent + (c + "\"}")))))
  {
    LiteralsPrintable();
    PrintableConcat(c, "\"}");
    PrintableConcat(OpenContent, c + "\"}");
    PrintableConcat("\"", OpenContent + (c + "\"}"));
    PrintableConcat(k, "\"" + (OpenContent + (c + "\"}")));
    PrintableConcat(OpenType, k + ("\"" + (OpenContent + (c + "\"}"))));
  }

  lemma LiteralsPrintable()
    ensures AllPrintable(OpenType) && AllPrintable(OpenContent) && AllPrintable("\"") && AllPrintable("\"}")
  {
  }

  // ---------------------------------------------------------------------------------------
  // Reading a string back

  /** The character encoded at the start of `s` inside a string literal and how many characters
      encode it: `None` for a closing quote, a raw control character, an unknown escape, bad
      hexadecimal digits, or a surrogate that is not half of a pair. */
  function Head(s: string): (r: Option<(char, nat)>)
    requires |s| > 0
    ensures r.Some? ==> 0 < r.value.1 <= |s|
  {
    if s[0] == '"' || (s[0] as int) < 0x20 then None
    else if s[0] != '\\' then Some((s[0], 1))
    else if |s| < 2 then None
    else if Unshort(s[1]).Some? then Some((Unshort(s[1]).value, 2))
    else if s[1] == 'u' && |s| >= 6 then UnicodeEscape(s)
    else None
  }

  function UnicodeEscape(s: string): (r: Option<(char, nat)>)
    requires |s| >= 6
    ensures r.Some? ==> 0 < r.value.1 <= |s|
  {
    match ParseHex(s[2..6])
    case None => None
    case Some(hi) =>
      if 0xD800 <= hi < 0xDC00 then
        if |s| >= 12 && s[6..8] == "\\u" then
          match ParseHex(s[8..12])
          case Some(lo) =>
            if 0xDC00 <= lo < 0xE000 then
              Some(((0x10000 + (hi - 0xD800) * 0x400 + (lo - 0xDC00)) as char, 12))
            else None
          case None => None
        else None
      else if 0xDC00 <= hi < 0xE000 || hi >= 0x10000 then None
      else Some((hi as char, 6))
  }

  /** Reads a string literal whose opening quote is already consumed: the decoded text and
      what follows the closing quote. */
  function ReadString(s: string): Option<(string, string)>
    decreases |s|
  {
    if s == [] then None
    else if s[0] == '"' then Some(("", s[1..]))
    else
      match Head(s)
      case None => None
      case Some((c, n)) =>
        match ReadString(s[n..])
        case None => None
        case Some((t, rest)) => Some(([c] + t, rest))
  }

  /** The escape of each character reads back as that character, whatever follows it. */
  lemma HeadOfEscape(c: char, t: string)
    ensures Head(EscapeChar(c) + t) == Some((c, |EscapeChar(c)|))
  {
    var n := c as int;
    if ShortEscape(c).Some? {
      assert (EscapeChar(c) + t)[1] == ShortEscape(c).value;
    } else if Printable(c) {
      assert (EscapeChar(c) + t)[0] == c;
    } else if n < 0x10000 {
      HeadOfUnitEscape(c, t);
    } else {
      HeadOfSurrogatePair(c, t);
    }
  }

  lemma HeadOfUnitEscape(c: char, t: string)
    requires c as int < 0x10000
    ensures Head(UnitEscape(c as int) + t) == Some((c, 6))
  {
    var s := UnitEscape(c as int) + t;
    assert s[2..6] == Hex4(c as int);
    assert !(0xD800 <= c as int < 0xE000);
  }

  lemma HeadOfSurrogatePair(c: char, t: string)
    requires c as int >= 0x10000
    ensures Head(UnitEscape(HighSurrogate(c as int)) + UnitEscape(LowSurrogate(c as int)) + t)
      == Some((c, 12))
  {
    var n := c as int;
    SurrogatePair(n);
    var hi, lo := HighSurrogate(n), LowSurrogate(n);
    var s := UnitEscape(hi) + UnitEscape(lo) + t;
    assert s[2..6] == Hex4(hi);
    assert s[6..8] == "\\u";
    assert s[8..12] == Hex4(lo);
    assert UnicodeEscape(s) == Some((c, 12));
  }

  /** A code point above `0xFFFF` splits into a high and a low surrogate that recombine to it. */
  lemma SurrogatePair(n: int)
    requires 0x10000 <= n < 0x110000
    ensures 0xD800 <= HighSurrogate(n) < 0xDC00 && 0xDC00 <= LowSurrogate(n) < 0xE000
    ensures 0x10000 + (HighSurrogate(n) - 0xD800) * 0x400 + (LowSurrogate(n) - 0xDC00) == n
  {
  }

  /** Reading back an escaped string followed by its closing quote gives the string and
      leaves what comes after the quote. */
  lemma {:induction false} ReadEscaped(x: string, rest: string)
    ensures ReadString(Escape(x) + ("\"" + rest)) == Some((x, rest))
    decreases |x|
  {
    var s := Escape(x) + ("\"" + rest);
    if x == [] {
      assert s == "\"" + rest;
      assert s[1..] == rest;
    } else {
      var e := EscapeChar(x[0]);
      var tail := Escape(x[1..]) + ("\"" + rest);
      assert s == e + tail;
      HeadOfEscape(x[0], tail);
      assert s[|e|..] == tail;
      ReadEscaped(x[1..], rest);
      assert [x[0]] + x[1..] == x;
    }
  }

  /** What follows `prefix` at the start of `w`, if `w` starts with it. */
  function After(prefix: string, w: string): (r: Option<string>)
    ensures r.Some? ==> w == prefix + r.value
  {
    if |w| < |prefix| || w[..|prefix|] != prefix then None else Some(w[|prefix|..])
  }

  lemma AfterPrefix(prefix: string, x: string)
    ensures After(prefix, prefix + x) == Some(x)
  {
    assert (prefix + x)[..|prefix|] == prefix;
  }

  /** `json.loads` restricted to the objects `DumpsFrame` writes: the two field values. */
  function LoadsFrame(w: string): Option<(string, string)> {
    match After(OpenType, w)
    case None => None
    case Some(r0) =>
      match ReadString(r0)
      case None => None
      case Some((kind, r1)) =>
        match After(OpenContent, r1)
        case None => None
        case Some(r2) =>
          match ReadString(r2)
          case None => None
          case Some((content, r3)) => if r3 == "}" then Some((kind, content)) else None
  }

  /** What `json.dumps` writes for a frame, `json.loads` reads back. */
  lemma LoadsDumps(kind: string, content: string)
    ensures LoadsFrame(DumpsFrame(kind, content)) == Some((kind, content))
  {
    var r2 := Escape(content) + "\"}";
    var r1 := OpenContent + r2;
    var r0 := Escape(kind) + ("\"" + r1);
    AfterPrefix(OpenType, r0);
    ReadEscaped(kind, r1);
    AfterPrefix(OpenContent, r2);
    assert "\"}" == "\"" + "}";
    ReadEscaped(content, "}");
  }
}
