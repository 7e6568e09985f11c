/** Byte and text codecs from Python's standard library that the core relies
    on: `binascii.hexlify`/`unhexlify` (and `bytes.hex()`), `hex(n)`,
    `int(s, 16)` on a "0x"-prefixed string, and UTF-8 well-formedness as
    `bytes.decode("utf-8")` checks it. */
module Codecs {
  import opened Wrappers
  import opened Python

  function HexChar(d: nat): (c: char)
    requires d < 16
    ensures '0' <= c <= '9' || 'a' <= c <= 'f'
  {
    "0123456789abcdef"[d]
  }

  /** The value of a hexadecimal digit of either case. */
  function HexValue(c: char): (r: Option<nat>)
    ensures r.Some? ==> r.value < 16
  {
    if '0' <= c <= '9' then Some(c as nat - '0' as nat)
    else if 'a' <= c <= 'f' then Some(c as nat - 'a' as nat + 10)
    else if 'A' <= c <= 'F' then Some(c as nat - 'A' as nat + 10)
    else None
  }

  lemma HexValueOfHexChar(d: nat)
    requires d < 16
    ensures HexValue(HexChar(d)) == Some(d)
    ensures DigitValue(HexChar(d)) == Some(d)
  {
  }

  // ---------------------------------------------------------------------------
  // binascii

  /** `binascii.hexlify(b)` (as text), equally `b.hex()`: two lower-case digits per byte. */
  function Hexlify(b: seq<byte>): (s: string)
    ensures |s| == 2 * |b|
  {
    if b == [] then ""
    else [HexChar(b[0] as nat / 16), HexChar(b[0] as nat % 16)] + Hexlify(b[1..])
  }

  const NON_ASCII_ERROR := Exception("ValueError", "string argument should contain only ASCII characters")
  const ODD_LENGTH_ERROR := Exception("Error", "Odd-length string")
  const NON_HEX_ERROR := Exception("Error", "Non-hexadecimal digit found")

  predicate IsAscii(s: string) {
    forall k :: 0 <= k < |s| ==> s[k] as int < 128
  }

  /** `binascii.unhexlify(s)` for a str: ASCII is checked first, then the
      length, then each pair of digits. */
  function Unhexlify(s: string): (r: Result<seq<byte>, Exception>)
    ensures r.Ok? ==> 2 * |r.value| == |s|
  {
    if !IsAscii(s) then Err(NON_ASCII_ERROR)
    else if |s| % 2 == 1 then Err(ODD_LENGTH_ERROR)
    else UnhexPairs(s)
  }

  function UnhexPairs(s: string): (r: Result<seq<byte>, Exception>)
    requires |s| % 2 == 0
    ensures r.Ok? ==> 2 * |r.value| == |s|
    ensures r.Err? ==> r.error == NON_HEX_ERROR
  {
    if s == [] then Ok([])
    else if HexValue(s[0]).None? || HexValue(s[1]).None? then Err(NON_HEX_ERROR)
    else
      var rest :- UnhexPairs(s[2..]);
      Ok([(HexValue(s[0]).value * 16 + HexValue(s[1]).value) as byte] + rest)
  }

  /** Unhexlify undoes hexlify. */
  lemma {:induction false} UnhexlifyHexlify(b: seq<byte>)
    ensures Unhexlify(Hexlify(b)) == Ok(b)
  {
    HexlifyIsAscii(b);
    UnhexPairsHexlify(b);
  }

  lemma {:induction false} HexlifyIsAscii(b: seq<byte>)
    ensures IsAscii(Hexlify(b))
  {
    if b != [] {
      HexlifyIsAscii(b[1..]);
    }
  }

  /** The two digits hexlify writes for a byte read back as that byte. */
  lemma ByteDigits(x: byte)
    ensures HexValue(HexChar(x as nat / 16)) == Some(x as nat / 16)
    ensures HexValue(HexChar(x as nat % 16)) == Some(x as nat % 16)
    ensures (x as nat / 16 * 16 + x as nat % 16) as byte == x
  {
    HexValueOfHexChar(x as nat / 16);
    HexValueOfHexChar(x as nat % 16);
  }

  lemma {:induction false} UnhexPairsHexlify(b: seq<byte>)
    ensures UnhexPairs(Hexlify(b)) == Ok(b)
  {
    if b != [] {
      var hi, lo := b[0] as nat / 16, b[0] as nat % 16;
      var t := Hexlify(b[1..]);
      var s := [HexChar(hi), HexChar(lo)] + t;
      assert Hexlify(b) == s;
      ByteDigits(b[0]);
      assert s[2..] == t;
      UnhexPairsHexlify(b[1..]);
      assert UnhexPairs(s) == Ok([b[0]] + b[1..]);
      assert [b[0]] + b[1..] == b;
    }
  }

  // ---------------------------------------------------------------------------
  // hex(n) and int(s, 16)

  /** The lower-case hexadecimal digits of n, without leading zeros. */
  function HexDigits(n: nat): (s: string)
    ensures |s| >= 1
  {
    if n < 16 then [HexChar(n)] else HexDigits(n / 16) + [HexChar(n % 16)]
  }

  /** `hex(i)` */
  function PyHex(i: int): string {
    if i < 0 then "-0x" + HexDigits(-i) else "0x" + HexDigits(i)
  }

  /** The characters `int()` strips from the ends of its argument. Below 127
      it keeps a character as it is and then strips only the C locale's
      spaces (tab, line feed, vertical tab, form feed, carriage return and
      space), so the separators 0x1C..0x1F, which `str.isspace()` accepts,
      are not stripped; from 127 up, every Unicode white space character is
      first turned into a space. */
  predicate IsPySpace(c: char) {
    var n := c as int;
    || 9 <= n <= 13 || n == 32 || n == 0x85 || n == 0xA0 || n == 0x1680
    || 0x2000 <= n <= 0x200A || n == 0x2028 || n == 0x2029 || n == 0x202F
    || n == 0x205F || n == 0x3000
  }

  function RStrip(s: string): (r: string)
    ensures |r| <= |s| && r == s[..|r|]
    ensures r != [] ==> !IsPySpace(r[|r| - 1])
  {
    if s != [] && IsPySpace(s[|s| - 1]) then RStrip(s[..|s| - 1]) else s
  }

  predicate InBlock(zero: int, n: int) {
    zero <= n < zero + 10
  }

  /** The code point of the digit zero of the block of ten decimal digits
      (general category Nd of Unicode 15.0) beyond ASCII that holds n, or -1
      when n is no such digit. */
  function DecimalZero(n: int): (z: int)
    ensures z >= 0 ==> InBlock(z, n)
  {
    if InBlock(0x0660, n) then 0x0660
    else if InBlock(0x06F0, n) then 0x06F0
    else if InBlock(0x07C0, n) then 0x07C0
    else if InBlock(0x0966, n) then 0x0966
    else if InBlock(0x09E6, n) then 0x09E6
    else if InBlock(0x0A66, n) then 0x0A66
    else if InBlock(0x0AE6, n) then 0x0AE6
    else if InBlock(0x0B66, n) then 0x0B66
    else if InBlock(0x0BE6, n) then 0x0BE6
    else if InBlock(0x0C66, n) then 0x0C66
    else if InBlock(0x0CE6, n) then 0x0CE6
    else if InBlock(0x0D66, n) then 0x0D66
    else if InBlock(0x0DE6, n) then 0x0DE6
    else if InBlock(0x0E50, n) then 0x0E50
    else if InBlock(0x0ED0, n) then 0x0ED0
    else if InBlock(0x0F20, n) then 0x0F20
    else if InBlock(0x1040, n) then 0x1040
    else if InBlock(0x1090, n) then 0x1090
    else if InBlock(0x17E0, n) then 0x17E0
    else if InBlock(0x1810, n) then 0x1810
    else if InBlock(0x1946, n) then 0x1946
    else if InBlock(0x19D0, n) then 0x19D0
    else if InBlock(0x1A80, n) then 0x1A80
    else if InBlock(0x1A90, n) then 0x1A90
    else if InBlock(0x1B50, n) then 0x1B50
    else if InBlock(0x1BB0, n) then 0x1BB0
    else if InBlock(0x1C40, n) then 0x1C40
    else if InBlock(0x1C50, n) then 0x1C50
    else if InBlock(0xA620, n) then 0xA620
    else if InBlock(0xA8D0, n) then 0xA8D0
    else if InBlock(0xA900, n) then 0xA900
    else if InBlock(0xA9D0, n) then 0xA9D0
    else if InBlock(0xA9F0, n) then 0xA9F0
    else if InBlock(0xAA50, n) then 0xAA50
    else if InBlock(0xABF0, n) then 0xABF0
    else if InBlock(0xFF10, n) then 0xFF10
    else if InBlock(0x104A0, n) then 0x104A0
    else if InBlock(0x10D30, n) then 0x10D30
    else if InBlock(0x11066, n) then 0x11066
    else if InBlock(0x110F0, n) then 0x110F0
    else if InBlock(0x11136, n) then 0x11136
    else if InBlock(0x111D0, n) then 0x111D0
    else if InBlock(0x112F0, n) then 0x112F0
    else if InBlock(0x11450, n) then 0x11450
    else if InBlock(0x114D0, n) then 0x114D0
    else if InBlock(0x11650, n) then 0x11650
    else if InBlock(0x116C0, n) then 0x116C0
    else if InBlock(0x11730, n) then 0x11730
    else if InBlock(0x118E0, n) then 0x118E0
    else if InBlock(0x11950, n) then 0x11950
    else if InBlock(0x11C50, n) then 0x11C50
    else if InBlock(0x11D50, n) then 0x11D50
    else if InBlock(0x11DA0, n) then 0x11DA0
    else if InBlock(0x11F50, n) then 0x11F50
    else if InBlock(0x16A60, n) then 0x16A60
    else if InBlock(0x16AC0, n) then 0x16AC0
    else if InBlock(0x16B50, n) then 0x16B50
    else if InBlock(0x1D7CE, n) then 0x1D7CE
    else if InBlock(0x1D7D8, n) then 0x1D7D8
    else if InBlock(0x1D7E2, n) then 0x1D7E2
    else if InBlock(0x1D7EC, n) then 0x1D7EC
    else if InBlock(0x1D7F6, n) then 0x1D7F6
    else if InBlock(0x1E140, n) then 0x1E140
    else if InBlock(0x1E2F0, n) then 0x1E2F0
    else if InBlock(0x1E4F0, n) then 0x1E4F0
    else if InBlock(0x1E950, n) then 0x1E950
    else if InBlock(0x1FBF0, n) then 0x1FBF0
    else -1
  }

  /** The value `int(s, 16)` gives a character of its digits: an ASCII hex
      digit of either case, or a decimal digit of another script, which
      `int()` first replaces with the ASCII digit of the same value. */
  function DigitValue(c: char): (r: Option<nat>)
    ensures r.Some? ==> r.value < 16
    ensures c as int < 127 ==> r == HexValue(c)
  {
    if c as int < 127 then HexValue(c)
    else if DecimalZero(c as int) < 0 then None
    else Some(c as int - DecimalZero(c as int))
  }

  /** The digits that follow a "0x" prefix in Python's integer syntax:
      `(["_"] digit)+`, one underscore at most before each digit. */
  predicate HexBody(b: string) {
    && |b| >= 1
    && b[|b| - 1] != '_'
    && (forall k :: 0 <= k < |b| ==> b[k] == '_' || DigitValue(b[k]).Some?)
    && (forall k :: 0 <= k < |b| - 1 ==> b[k] != '_' || b[k + 1] != '_')
  }

  /** The value of the digits, underscores ignored. */
  function BodyValue(b: string): nat
    requires forall k :: 0 <= k < |b| ==> b[k] == '_' || DigitValue(b[k]).Some?
  {
    if b == [] then 0
    else if b[|b| - 1] == '_' then BodyValue(b[..|b| - 1])
    else BodyValue(b[..|b| - 1]) * 16 + DigitValue(b[|b| - 1]).value
  }

  /** `int(s, 16)` for a string that starts with "0x": the prefix, then the
      digits, then trailing whitespace; anything else is a ValueError (None). */
  function ParseHexAddress(s: string): (r: Option<nat>)
    requires StartsWith(s, "0x")
    ensures r.Some? ==> HexBody(RStrip(s[2..]))
  {
    var body := RStrip(s[2..]);
    if HexBody(body) then Some(BodyValue(body)) else None
  }

  /** `int("0x1\x1c", 16)` raises: the separator U+001C is not stripped. */
  lemma SeparatorIsNotStripped()
    ensures ParseHexAddress("0x1\U{1C}") == None
  {
    var body := RStrip("0x1\U{1C}"[2..]);
    assert "0x1\U{1C}"[2..] == "1\U{1C}";
    assert body == "1\U{1C}";
    assert DigitValue('\U{1C}') == None;
  }

  /** `int("0x\u0661\u0662", 16) == 0x12`: Arabic-Indic digits are decimal digits. */
  lemma ArabicIndicDigitsAreDigits()
    ensures ParseHexAddress("0x\U{661}\U{662}") == Some(0x12)
  {
    var body := "0x\U{661}\U{662}"[2..];
    assert body == "\U{661}\U{662}";
    assert RStrip(body) == body;
    assert DigitValue('\U{661}') == Some(1);
    assert DigitValue('\U{662}') == Some(2);
    assert body[..1] == "\U{661}";
    assert BodyValue(body) == 0x12;
  }

  lemma {:induction false} BodyValueOfHexDigits(n: nat)
    ensures HexBody(HexDigits(n))
    ensures BodyValue(HexDigits(n)) == n
  {
    var s := HexDigits(n);
    var last := HexChar(n % 16);
    HexValueOfHexChar(n % 16);
    if n < 16 {
      assert s == [last];
    } else {
      var p := HexDigits(n / 16);
      BodyValueOfHexDigits(n / 16);
      assert s == p + [last] && s[..|s| - 1] == p;
      assert forall k :: 0 <= k < |p| ==> s[k] == p[k];
      assert BodyValue(s) == BodyValue(p) * 16 + n % 16;
    }
  }

  /** int(hex(n), 16) == n for every non-negative n. */
  lemma ParseHexAddressOfPyHex(n: nat)
    ensures StartsWith(PyHex(n), "0x")
    ensures ParseHexAddress(PyHex(n)) == Some(n)
  {
    var s := PyHex(n);
    assert s[2..] == HexDigits(n);
    BodyValueOfHexDigits(n);
    var d := HexDigits(n);
    assert !IsPySpace(d[|d| - 1]);
  }

  // ---------------------------------------------------------------------------
  // UTF-8

  predicate Continuation(b: byte) { 0x80 <= b <= 0xBF }

  /** The length of the well-formed UTF-8 sequence at the start of b
      (RFC 3629: no overlong forms, no surrogates, nothing above U+10FFFF), or 0. */
  function Utf8Head(b: seq<byte>): (n: nat)
    requires |b| > 0
    ensures n <= |b| && n <= 4
  {
    var b0 := b[0];
    if b0 < 0x80 then 1
    else if 0xC2 <= b0 <= 0xDF then
      if |b| >= 2 && Continuation(b[1]) then 2 else 0
    else if 0xE0 <= b0 <= 0xEF then
      var lo: byte := if b0 == 0xE0 then 0xA0 else 0x80;
      var hi: byte := if b0 == 0xED then 0x9F else 0xBF;
      if |b| >= 3 && lo <= b[1] <= hi && Continuation(b[2]) then 3 else 0
    else if 0xF0 <= b0 <= 0xF4 then
      var lo: byte := if b0 == 0xF0 then 0x90 else 0x80;
      var hi: byte := if b0 == 0xF4 then 0x8F else 0xBF;
      if |b| >= 4 && lo <= b[1] <= hi && Continuation(b[2]) && Continuation(b[3]) then 4 else 0
    else 0
  }

  /** `b.decode("utf-8")` succeeds. */
  predicate ValidUtf8(b: seq<byte>)
    decreases |b|
  {
    b == [] || (Utf8Head(b) > 0 && ValidUtf8(b[Utf8Head(b)..]))
  }

  /** The text that bytes below 128 decode to (one character per byte). */
  function AsciiText(b: seq<byte>): (s: string)
    ensures |s| == |b|
    ensures forall k :: 0 <= k < |b| ==> s[k] as int == b[k] as int
  {
    seq(|b|, k requires 0 <= k < |b| => b[k] as int as char)
  }

  /** Bytes that are all ASCII decode as UTF-8. */
  lemma {:induction false} AsciiIsValidUtf8(b: seq<byte>)
    requires forall k :: 0 <= k < |b| ==> b[k] < 0x80
    ensures ValidUtf8(b)
  {
    if b != [] {
      AsciiIsValidUtf8(b[1..]);
    }
  }
}
