/** JSON string literals and integers, as `json.dumps` writes them with its default escapes and `json.loads` reads
    them. */
module JsonText {
  import opened Results
  import opened Text

  // ---- String literals ----

  function HexDigit(d: nat): char
    requires d < 16
  {
    if d < 10 then ('0' as int + d) as char else ('a' as int + d - 10) as char
  }

  function HexValue(c: char): (r: Option<nat>)
    ensures r.Some? ==> r.value < 16
  {
    if '0' <= c <= '9' then Some(c as int - '0' as int)
    else if 'a' <= c <= 'f' then Some(c as int - 'a' as int + 10)
    else None
  }

  lemma HexDigitReadsBack(d: nat)
    requires d < 16
    ensures HexValue(HexDigit(d)) == Some(d)
  {
  }

  /** Four lower-case hexadecimal digits. */
  function Hex4(n: nat): string
    requires n < 0x10000
  {
    var high := n / 16;
    [HexDigit(high / 16 / 16), HexDigit(high / 16 % 16), HexDigit(high % 16), HexDigit(n % 16)]
  }

  function ReadHex4(text: string): (r: Option<nat>)
    ensures r.Some? ==> r.value < 0x10000 && |text| >= 4
  {
    if |text| < 4 then None
    else
      var a, b, c, d := HexValue(text[0]), HexValue(text[1]), HexValue(text[2]), HexValue(text[3]);
      if a.None? || b.None? || c.None? || d.None? then None
      else Some(((a.value * 16 + b.value) * 16 + c.value) * 16 + d.value)
  }

  lemma Hex4ReadsBack(n: nat, rest: string)
    requires n < 0x10000
    ensures ReadHex4(Hex4(n) + rest) == Some(n)
  {
    var high := n / 16;
    HexDigitReadsBack(high / 16 / 16);
    HexDigitReadsBack(high / 16 % 16);
    HexDigitReadsBack(high % 16);
    HexDigitReadsBack(n % 16);
    var t := Hex4(n) + rest;
    assert t[0] == Hex4(n)[0] && t[1] == Hex4(n)[1] && t[2] == Hex4(n)[2] && t[3] == Hex4(n)[3];
  }

  /** The letter after the backslash for the characters that have a short escape. */
  function ShortEscape(c: char): Option<char> {
    if c == '"' then Some('"')
    else if c == '\\' then Some('\\')
    else if c == '\n' then Some('n')
    else if c == '\r' then Some('r')
    else if c == '\t' then Some('t')
    else if c as int == 8 then Some('b')
    else if c as int == 12 then Some('f')
    else None
  }

  function ShortUnescape(c: char): Option<char> {
    if c == '"' then Some('"')
    else if c == '\\' then Some('\\')
    else if c == 'n' then Some('\n')
    else if c == 'r' then Some('\r')
    else if c == 't' then Some('\t')
    else if c == 'b' then Some(8 as char)
    else if c == 'f' then Some(12 as char)
    else None
  }

  function UnicodeEscape(n: nat): (r: string)
    requires n < 0x10000
    ensures r != "" && r[0] == '\\'
  {
    ['\\', 'u'] + Hex4(n)
  }

  /** A number's bits above the lowest ten. */
  function HighBits(n: nat): (q: nat)
    ensures q * 0x400 <= n < q * 0x400 + 0x400
  {
    if n < 0x400 then 0 else HighBits(n - 0x400) + 1
  }

  /** A surrogate pair: ten bits in each half. */
  function PairEscape(offset: nat): (r: string)
    requires offset < 0x100000
    ensures r != "" && r[0] == '\\'
  {
    UnicodeEscape(0xD800 + HighBits(offset)) + UnicodeEscape(0xDC00 + (offset - HighBits(offset) * 0x400))
  }

  /** A character inside a literal: printable ASCII stands for itself, the rest is escaped, beyond the
      basic plane as a surrogate pair. */
  function EscapeChar(c: char): string {
    var n := c as int;
    if ShortEscape(c).Some? then ['\\', ShortEscape(c).value]
    else if ' ' <= c <= '~' then [c]
    else if n < 0x10000 then UnicodeEscape(n)
    else PairEscape(n - 0x10000)
  }

  function EscapeAll(s: string): string {
    if s == "" then "" else EscapeChar(s[0]) + EscapeAll(s[1..])
  }

  function JsonString(s: string): string {
    ['"'] + EscapeAll(s) + ['"']
  }

  /** The second half of a surrogate pair. */
  function ReadLowSurrogate(high: nat, text: string): (r: Option<(char, string)>)
    requires 0xD800 <= high < 0xDC00
    ensures r.Some? ==> |r.value.1| < |text|
  {
    if |text| < 6 || text[0] != '\\' || text[1] != 'u' then None
    else
      var low := ReadHex4(text[2..]);
      if low.None? || low.value < 0xDC00 || 0xE000 <= low.value then None
      else Some(((0x10000 + (high - 0xD800) * 0x400 + (low.value - 0xDC00)) as char, text[6..]))
  }

  /** The digits after `\u`, and a second escape where they are the first half of a surrogate pair. */
  function ReadUnicode(text: string): (r: Option<(char, string)>)
    ensures r.Some? ==> |r.value.1| < |text|
  {
    var n := ReadHex4(text);
    if n.None? then None
    else if n.value < 0xD800 || 0xE000 <= n.value then Some((n.value as char, text[4..]))
    else if 0xDC00 <= n.value then None
    else ReadLowSurrogate(n.value, text[4..])
  }

  /** One possibly escaped character from the front of a literal's body, with the text after it; control characters may
      not stand for themselves. */
  function ReadChar(text: string): (r: Option<(char, string)>)
    ensures r.Some? ==> |r.value.1| < |text|
  {
    if text == "" then None
    else if text[0] != '\\' then
      if text[0] == '"' || text[0] < ' ' then None else Some((text[0], text[1..]))
    else if |text| < 2 then None
    else if text[1] != 'u' then
      var c := ShortUnescape(text[1]);
      if c.None? then None else Some((c.value, text[2..]))
    else ReadUnicode(text[2..])
  }

  lemma UnicodeEscapeReads(digits: string, rest: string)
    ensures ReadChar((['\\', 'u'] + digits) + rest) == ReadUnicode(digits + rest)
  {
    var t := (['\\', 'u'] + digits) + rest;
    assert t[0] == '\\' && t[1] == 'u' && t[2..] == digits + rest;
  }

  lemma ShortEscapeReadsBack(c: char, rest: string)
    requires ShortEscape(c).Some?
    ensures ReadChar(['\\', ShortEscape(c).value] + rest) == Some((c, rest))
  {
    var t := ['\\', ShortEscape(c).value] + rest;
    assert t[0] == '\\' && t[1] == ShortEscape(c).value && t[2..] == rest;
  }

  lemma BasicEscapeReadsBack(c: char, rest: string)
    requires (c as int) < 0xD800 || 0xE000 <= (c as int) < 0x10000
    ensures ReadUnicode(Hex4(c as int) + rest) == Some((c, rest))
  {
    Hex4ReadsBack(c as int, rest);
    assert (Hex4(c as int) + rest)[4..] == rest;
  }

  lemma EscapedCharReadsBack(c: char, rest: string)
    ensures ReadChar(EscapeChar(c) + rest) == Some((c, rest))
    ensures EscapeChar(c)[0] != '"'
  {
    var n := c as int;
    if ShortEscape(c).Some? {
      ShortEscapeReadsBack(c, rest);
    } else if ' ' <= c <= '~' {
      assert ([c] + rest)[0] == c && ([c] + rest)[1..] == rest;
    } else if n < 0x10000 {
      UnicodeEscapeReads(Hex4(n), rest);
      BasicEscapeReadsBack(c, rest);
    } else {
      PairEscapeReadsBack(c, rest);
    }
  }

  lemma TwoEscapesRead(first: string, second: string, c: char, rest: string)
    requires ReadUnicode(first + (['\\', 'u'] + (second + rest))) == Some((c, rest))
    ensures ReadChar(((['\\', 'u'] + first) + (['\\', 'u'] + second)) + rest) == Some((c, rest))
  {
    Reassociates(['\\', 'u'] + first, ['\\', 'u'] + second, rest);
    Reassociates(['\\', 'u'], second, rest);
    UnicodeEscapeReads(first, ['\\', 'u'] + (second + rest));
  }

  lemma LowSurrogateReadsBack(high: nat, low: nat, rest: string)
    requires 0xD800 <= high < 0xDC00 <= low < 0xE000
    ensures ReadLowSurrogate(high, ['\\', 'u'] + (Hex4(low) + rest)) ==
            Some(((0x10000 + (high - 0xD800) * 0x400 + (low - 0xDC00)) as char, rest))
  {
    var t := ['\\', 'u'] + (Hex4(low) + rest);
    assert t[2..] == Hex4(low) + rest && t[6..] == rest;
    Hex4ReadsBack(low, rest);
  }

  lemma SurrogatesReadBack(high: nat, low: nat, rest: string)
    requires 0xD800 <= high < 0xDC00 <= low < 0xE000
    ensures ReadUnicode(Hex4(high) + (['\\', 'u'] + (Hex4(low) + rest))) ==
            Some(((0x10000 + (high - 0xD800) * 0x400 + (low - 0xDC00)) as char, rest))
  {
    var afterHigh := ['\\', 'u'] + (Hex4(low) + rest);
    Hex4ReadsBack(high, afterHigh);
    assert (Hex4(high) + afterHigh)[4..] == afterHigh;
    LowSurrogateReadsBack(high, low, rest);
  }

  /** The two halves of a surrogate pair, ten bits each, give the character back. */
  lemma PairReadsBack(q: nat, r: nat, c: char, rest: string)
    requires q < 0x400 && r < 0x400 && c as int == 0x10000 + q * 0x400 + r
    ensures ReadChar((UnicodeEscape(0xD800 + q) + UnicodeEscape(0xDC00 + r)) + rest) == Some((c, rest))
  {
    SurrogatesReadBack(0xD800 + q, 0xDC00 + r, rest);
    TwoEscapesRead(Hex4(0xD800 + q), Hex4(0xDC00 + r), c, rest);
  }

  lemma PairEscapeReadsBack(c: char, rest: string)
    requires c as int >= 0x10000
    ensures ReadChar(PairEscape(c as int - 0x10000) + rest) == Some((c, rest))
  {
    var offset := c as int - 0x10000;
    PairReadsBack(HighBits(offset), offset - HighBits(offset) * 0x400, c, rest);
  }

  /** The rest of a literal after its opening quote. */
  function ReadStringBody(text: string): (r: Option<(string, string)>)
    ensures r.Some? ==> |r.value.1| < |text|
  {
    if text == "" then None
    else if text[0] == '"' then Some(("", text[1..]))
    else
      var c := ReadChar(text);
      if c.None? then None
      else
        var tail := ReadStringBody(c.value.1);
        if tail.None? then None else Some(([c.value.0] + tail.value.0, tail.value.1))
  }

  function ReadString(text: string): (r: Option<(string, string)>)
    ensures r.Some? ==> |r.value.1| < |text|
  {
    if text == "" || text[0] != '"' then None else ReadStringBody(text[1..])
  }

  lemma {:induction false} EscapedBodyReadsBack(s: string, rest: string)
    ensures ReadStringBody(EscapeAll(s) + ['"'] + rest) == Some((s, rest))
  {
    var t := EscapeAll(s) + ['"'] + rest;
    if s == "" {
      assert t[0] == '"' && t[1..] == rest;
    } else {
      var tail := EscapeAll(s[1..]) + ['"'] + rest;
      assert t == EscapeChar(s[0]) + tail;
      EscapedCharReadsBack(s[0], tail);
      assert t[0] == EscapeChar(s[0])[0];
      EscapedBodyReadsBack(s[1..], rest);
      assert [s[0]] + s[1..] == s;
    }
  }

  /** Reading a literal gives back the string it was written for, and stops where it ended. */
  lemma StringReadsBack(s: string, rest: string)
    ensures ReadString(JsonString(s) + rest) == Some((s, rest))
  {
    var t := JsonString(s) + rest;
    assert t[0] == '"' && t[1..] == EscapeAll(s) + ['"'] + rest;
    EscapedBodyReadsBack(s, rest);
  }

  // ---- Integers and fixed text ----

  function CountDigits(text: string): (n: nat)
    ensures n <= |text|
  {
    if text == "" || !IsDigit(text[0]) then 0 else 1 + CountDigits(text[1..])
  }

  /** The digits of an integer, without leading zeros. */
  function ReadDigits(text: string): (r: Option<(int, string)>)
    ensures r.Some? ==> |r.value.1| < |text|
  {
    var n := CountDigits(text);
    if n == 0 || (n > 1 && text[0] == '0') then None else Some((DecimalValue(text[..n]), text[n..]))
  }

  function ReadInt(text: string): (r: Option<(int, string)>)
    ensures r.Some? ==> |r.value.1| < |text|
  {
    var negative := text != "" && text[0] == '-';
    var size := ReadDigits(if negative then text[1..] else text);
    if size.None? then None else Some((if negative then -size.value.0 else size.value.0, size.value.1))
  }

  lemma {:induction false} CountsAllDigits(digits: string, rest: string)
    requires forall c :: c in digits ==> IsDigit(c)
    requires rest == "" || !IsDigit(rest[0])
    ensures CountDigits(digits + rest) == |digits|
  {
    var t := digits + rest;
    if digits == "" {
      assert t == rest;
    } else {
      assert t[0] == digits[0] && t[1..] == digits[1..] + rest;
      CountsAllDigits(digits[1..], rest);
    }
  }

  /** A numeral reads back, whatever follows its digits. */
  lemma DigitsReadBack(digits: string, rest: string)
    requires digits != "" && (forall c :: c in digits ==> IsDigit(c)) && (digits[0] == '0' ==> |digits| == 1)
    requires rest == "" || !IsDigit(rest[0])
    ensures ReadDigits(digits + rest) == Some((DecimalValue(digits) as int, rest))
    ensures (digits + rest)[0] != '-'
  {
    var t := digits + rest;
    CountsAllDigits(digits, rest);
    assert t[0] == digits[0] && digits[0] in digits;
    assert t[..|digits|] == digits && t[|digits|..] == rest;
  }

  /** With a sign in front or without one. */
  lemma SignedDigitsReadBack(digits: string, size: int, rest: string)
    requires ReadDigits(digits + rest) == Some((size, rest)) && (digits + rest)[0] != '-'
    ensures ReadInt(digits + rest) == Some((size, rest))
    ensures ReadInt("-" + digits + rest) == Some((-size, rest))
  {
    var t := "-" + digits + rest;
    assert t[0] == '-' && t[1..] == digits + rest;
  }

  lemma IntReadsBack(n: int, rest: string)
    requires rest == "" || !IsDigit(rest[0])
    ensures ReadInt(IntText(n) + rest) == Some((n, rest))
  {
    var size := if n < 0 then -n else n;
    var digits := Decimal(size);
    DecimalReadsBack(size);
    DecimalHasNoLeadingZero(size);
    DigitsReadBack(digits, rest);
    SignedDigitsReadBack(digits, size, rest);
  }

  /** `json.loads` refuses leading zeros and bare control characters, and so does the reader. */
  lemma StrictlyRefused(digits: string, rest: string, c: char)
    requires |digits| > 1 && digits[0] == '0' && forall d :: d in digits ==> IsDigit(d)
    requires rest == "" || !IsDigit(rest[0])
    requires c < ' '
    ensures ReadInt(digits + rest).None? && ReadString(['"', c] + rest).None?
  {
    CountsAllDigits(digits, rest);
    assert (digits + rest)[0] == digits[0];
    assert (['"', c] + rest)[1..] == [c] + rest && ([c] + rest)[0] == c;
  }

  /** The text after a fixed opening, if it is there. */
  function Skip(opening: string, text: string): (r: Option<string>)
    ensures r.Some? ==> |r.value| == |text| - |opening|
  {
    if opening <= text then Some(text[|opening|..]) else None
  }

  lemma SkipsOpening(opening: string, rest: string)
    ensures Skip(opening, opening + rest) == Some(rest)
  {
    assert (opening + rest)[|opening|..] == rest;
  }

  lemma Reassociates(a: string, b: string, c: string)
    ensures (a + b) + c == a + (b + c)
  {
  }
}
