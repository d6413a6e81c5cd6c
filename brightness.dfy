/**
 * PackButton.adjust_brightness (macro.py:86-99): parses a "#rrggbb" or "#rgb"
 * colour, adds a signed amount to every channel, clamps the channels to
 * [0, 255] and re-emits the colour as "#rrggbb" in lowercase.  Any input it
 * cannot parse comes back unchanged.
 *
 * Each channel is read with Python's int(pair, 16), which also accepts a sign
 * in front of one digit ("+f", "-f") and one whitespace character on either
 * side of one digit (" f", "f\t").  For ASCII input int() skips only tab,
 * line feed, vertical tab, form feed, carriage return and space; the
 * separators \x1c-\x1f, which str.isspace() accepts, make it raise.
 */
module Brightness {
  import opened Wrappers
  import Catalog

  /** Red, green and blue channel values. */
  datatype Rgb = Rgb(r: int, g: int, b: int)

  predicate IsHexDigit(c: char)
  {
    ('0' <= c <= '9') || ('a' <= c <= 'f') || ('A' <= c <= 'F')
  }

  predicate IsLowerHexDigit(c: char)
  {
    ('0' <= c <= '9') || ('a' <= c <= 'f')
  }

  /** The ASCII characters Python's int() skips around its digits: \t \n \v \f \r and space. */
  predicate IsPySpace(c: char)
  {
    (9 <= c as int <= 13) || c == ' '
  }

  function HexValue(c: char): (v: nat)
    requires IsHexDigit(c)
    ensures v < 16
    ensures '0' <= c <= '9' ==> v == c as int - '0' as int
  {
    if '0' <= c <= '9' then c as int - '0' as int
    else if 'a' <= c <= 'f' then c as int - 'a' as int + 10
    else c as int - 'A' as int + 10
  }

  /** The lowercase digit of a value below 16, the digit Python's :02x emits. */
  function HexDigitChar(v: nat): (c: char)
    requires v < 16
    ensures IsLowerHexDigit(c) && IsHexDigit(c)
    ensures HexValue(c) == v
  {
    if v < 10 then ('0' as int + v) as char else ('a' as int + v - 10) as char
  }

  /** A lowercase digit is the one HexDigitChar emits for its own value. */
  lemma LowerDigitRoundTrip(c: char)
    requires IsLowerHexDigit(c)
    ensures HexDigitChar(HexValue(c)) == c
  {
  }

  /** int(a + b, 16) for a two-character string, None where Python raises ValueError. */
  function ParsePair(a: char, b: char): (r: Option<int>)
    ensures r.Some? ==> -15 <= r.value <= 255
    ensures IsHexDigit(a) && IsHexDigit(b) ==> r == Some(16 * HexValue(a) + HexValue(b))
    ensures !IsHexDigit(a) && !IsHexDigit(b) ==> r == None
    ensures r.Some? ==> (IsHexDigit(a) || a == '+' || a == '-' || IsPySpace(a)) && (IsHexDigit(b) || IsPySpace(b))
  {
    if IsHexDigit(a) && IsHexDigit(b) then Some(16 * HexValue(a) + HexValue(b))
    else if a == '+' && IsHexDigit(b) then Some(HexValue(b))
    else if a == '-' && IsHexDigit(b) then Some(-(HexValue(b) as int))
    else if IsPySpace(a) && IsHexDigit(b) then Some(HexValue(b))
    else if IsHexDigit(a) && IsPySpace(b) then Some(HexValue(a))
    else None
  }

  /** s.lstrip('#'): s without all of its leading '#' characters. */
  function StripHashes(s: string): (r: string)
    ensures |r| <= |s| && r == s[|s| - |r|..]
    ensures |r| == 0 || r[0] != '#'
    ensures forall i :: 0 <= i < |s| - |r| ==> s[i] == '#'
  {
    if |s| > 0 && s[0] == '#' then StripHashes(s[1..]) else s
  }

  /** "".join([c*2 for c in s]): every character written twice. */
  function Doubled(s: string): (r: string)
    ensures |r| == 2 * |s|
    ensures forall i :: 0 <= i < |s| ==> r[2 * i] == s[i] && r[2 * i + 1] == s[i]
  {
    if |s| == 0 then [] else [s[0], s[0]] + Doubled(s[1..])
  }

  /** The hex part after the '#' prefix, with the 3-digit shorthand expanded (macro.py:90-92). */
  function HexPart(color: string): (h: string)
    ensures |StripHashes(color)| == 3 ==> |h| == 6
    ensures |StripHashes(color)| != 3 ==> h == StripHashes(color)
  {
    var stripped := StripHashes(color);
    if |stripped| == 3 then Doubled(stripped) else stripped
  }

  /** The three channels of a six-character hex part, read pair by pair (macro.py:95). */
  function ParseHex(h: string): (r: Option<Rgb>)
    requires |h| == 6
    ensures r.Some? ==> -15 <= r.value.r <= 255 && -15 <= r.value.g <= 255 && -15 <= r.value.b <= 255
    ensures r.Some? <==> ParsePair(h[0], h[1]).Some? && ParsePair(h[2], h[3]).Some? && ParsePair(h[4], h[5]).Some?
  {
    var r, g, b := ParsePair(h[0], h[1]), ParsePair(h[2], h[3]), ParsePair(h[4], h[5]);
    if r.Some? && g.Some? && b.Some? then Some(Rgb(r.value, g.value, b.value)) else None
  }

  /** The three channels adjust_brightness reads, or None where it returns its input (macro.py:88-95). */
  function Parse(color: string): (r: Option<Rgb>)
    ensures r.Some? ==> |color| > 0 && color[0] == '#' && |HexPart(color)| == 6
    ensures r.Some? ==> -15 <= r.value.r <= 255 && -15 <= r.value.g <= 255 && -15 <= r.value.b <= 255
  {
    if |color| == 0 || color[0] != '#' then None
    else
      var h := HexPart(color);
      if |h| != 6 then None else ParseHex(h)
  }

  /** max(0, min(255, c)) (macro.py:96). */
  function Clamp(c: int): (r: int)
    ensures 0 <= r <= 255
    ensures 0 <= c <= 255 ==> r == c
    ensures c < 0 ==> r == 0
    ensures c > 255 ==> r == 255
  {
    if c < 0 then 0 else if c > 255 then 255 else c
  }

  predicate InRange(c: Rgb)
  {
    0 <= c.r <= 255 && 0 <= c.g <= 255 && 0 <= c.b <= 255
  }

  /** f"{v:02x}" for a byte value. */
  function Hex2(v: int): (s: string)
    requires 0 <= v <= 255
    ensures |s| == 2 && IsLowerHexDigit(s[0]) && IsLowerHexDigit(s[1])
    ensures 16 * HexValue(s[0]) + HexValue(s[1]) == v
  {
    [HexDigitChar(v / 16), HexDigitChar(v % 16)]
  }

  /** f"#{r:02x}{g:02x}{b:02x}" (macro.py:97). */
  function Format(c: Rgb): (s: string)
    requires InRange(c)
    ensures IsLowerHexColor(s)
  {
    var r, g, b := Hex2(c.r), Hex2(c.g), Hex2(c.b);
    ['#', r[0], r[1], g[0], g[1], b[0], b[1]]
  }

  /** A colour written "#rrggbb" with lowercase digits. */
  predicate IsLowerHexColor(s: string)
  {
    |s| == 7 && s[0] == '#' && forall i :: 1 <= i < 7 ==> IsLowerHexDigit(s[i])
  }

  /** Every channel moved by amount and clamped to [0, 255] (macro.py:96). */
  function Shift(c: Rgb, amount: int): (d: Rgb)
    ensures InRange(d)
    ensures d.r == Clamp(c.r + amount) && d.g == Clamp(c.g + amount) && d.b == Clamp(c.b + amount)
  {
    Rgb(Clamp(c.r + amount), Clamp(c.g + amount), Clamp(c.b + amount))
  }

  /** adjust_brightness(color, amount) (macro.py:86-99). */
  function AdjustBrightness(color: string, amount: int): (r: string)
    ensures r == color || IsLowerHexColor(r)
    ensures Parse(color).None? ==> r == color
  {
    match Parse(color)
    case None => color
    case Some(c) => Format(Shift(c, amount))
  }

  /** The three ways the input comes back unchanged (macro.py:88-89, 93-94, 98-99). */
  lemma {:induction false} MalformedUnchanged(color: string, amount: int)
    ensures |color| == 0 || color[0] != '#' ==> AdjustBrightness(color, amount) == color
    ensures |HexPart(color)| != 6 ==> AdjustBrightness(color, amount) == color
    ensures |HexPart(color)| == 6 &&
            (ParsePair(HexPart(color)[0], HexPart(color)[1]).None? ||
             ParsePair(HexPart(color)[2], HexPart(color)[3]).None? ||
             ParsePair(HexPart(color)[4], HexPart(color)[5]).None?)
            ==> AdjustBrightness(color, amount) == color
  {
  }

  /**
   * The ASCII separators \x1c-\x1f are no whitespace to int(), so a pair
   * holding one is rejected and the colour comes back unchanged
   * (macro.py:95, 98-99).
   */
  lemma SeparatorRejected(c: char, d: char, amount: int)
    requires 28 <= c as int <= 31 && IsHexDigit(d)
    ensures ParsePair(c, d).None? && ParsePair(d, c).None?
    ensures AdjustBrightness(['#', c, d, '0', '0', '0', '0'], amount) == ['#', c, d, '0', '0', '0', '0']
  {
    var color := ['#', c, d, '0', '0', '0', '0'];
    assert color[1..][0] == c;
    assert StripHashes(color[1..]) == color[1..];
    assert HexPart(color) == color[1..];
  }

  /** The '#' prefix followed by exactly n hex digits and nothing else. */
  predicate IsHexColorOfLength(color: string, n: nat)
  {
    |color| == n + 1 && color[0] == '#' && forall i :: 1 <= i <= n ==> IsHexDigit(color[i])
  }

  /** The channel the strict pair of hex digits at k and k + 1 denotes. */
  function Byte(s: string, k: nat): (v: int)
    requires k + 1 < |s| && IsHexDigit(s[k]) && IsHexDigit(s[k + 1])
    ensures 0 <= v <= 255
  {
    16 * HexValue(s[k]) + HexValue(s[k + 1])
  }

  /** One '#' followed by a character other than '#' strips to the rest of the string. */
  lemma StripOneHash(color: string)
    requires |color| > 1 && color[0] == '#' && color[1] != '#'
    ensures StripHashes(color) == color[1..]
  {
    assert StripHashes(color) == StripHashes(color[1..]);
  }

  lemma HexPartOfSix(color: string)
    requires IsHexColorOfLength(color, 6)
    ensures HexPart(color) == color[1..]
  {
    assert IsHexDigit(color[1]);
    StripOneHash(color);
  }

  lemma HexPartOfThree(color: string)
    requires IsHexColorOfLength(color, 3)
    ensures HexPart(color) == Doubled(color[1..])
  {
    assert IsHexDigit(color[1]);
    StripOneHash(color);
  }

  /** Six strict hex digits parse pair by pair. */
  lemma ParseHexStrict(h: string)
    requires |h| == 6 && forall i :: 0 <= i < 6 ==> IsHexDigit(h[i])
    ensures ParseHex(h) == Some(Rgb(Byte(h, 0), Byte(h, 2), Byte(h, 4)))
  {
    assert IsHexDigit(h[0]) && IsHexDigit(h[1]) && IsHexDigit(h[2]);
    assert IsHexDigit(h[3]) && IsHexDigit(h[4]) && IsHexDigit(h[5]);
  }

  /** A '#' followed by a six-character hex part is read from that part. */
  lemma ParseOfHexPart(color: string)
    requires |color| > 0 && color[0] == '#' && |HexPart(color)| == 6
    ensures Parse(color) == ParseHex(HexPart(color))
  {
  }

  /** The channels of the characters after the '#' are the channels of the string from its second character. */
  lemma BytesAfterHash(color: string, h: string)
    requires IsHexColorOfLength(color, 6) && h == color[1..]
    ensures forall i :: 0 <= i < 6 ==> IsHexDigit(h[i])
    ensures Byte(h, 0) == Byte(color, 1) && Byte(h, 2) == Byte(color, 3) && Byte(h, 4) == Byte(color, 5)
  {
    assert h[0] == color[1] && h[1] == color[2] && h[2] == color[3];
    assert h[3] == color[4] && h[4] == color[5] && h[5] == color[6];
  }

  /** A valid "#rrggbb" colour parses strictly, pair by pair. */
  lemma ParseSix(color: string)
    requires IsHexColorOfLength(color, 6)
    ensures Parse(color) == Some(Rgb(Byte(color, 1), Byte(color, 3), Byte(color, 5)))
  {
    HexPartOfSix(color);
    ParseOfHexPart(color);
    BytesAfterHash(color, color[1..]);
    ParseHexStrict(color[1..]);
  }

  /**
   * A valid "#rrggbb" colour: the result is "#" and six lowercase hex digits
   * whose channels are the input's, each moved by amount and clamped (macro.py:95-97).
   */
  lemma {:induction false} AdjustSixDigits(color: string, amount: int)
    requires IsHexColorOfLength(color, 6)
    ensures IsLowerHexColor(AdjustBrightness(color, amount))
    ensures AdjustBrightness(color, amount) == Format(Shift(Rgb(Byte(color, 1), Byte(color, 3), Byte(color, 5)), amount))
  {
    ParseSix(color);
    AdjustOfParsed(color, amount, Rgb(Byte(color, 1), Byte(color, 3), Byte(color, 5)));
  }

  /**
   * A valid "#rgb" colour is first expanded by doubling each digit, so it
   * adjusts like "#rrggbb" (macro.py:91-92).
   */
  lemma {:induction false} AdjustThreeDigits(color: string, amount: int)
    requires IsHexColorOfLength(color, 3)
    ensures var long := ['#', color[1], color[1], color[2], color[2], color[3], color[3]];
            && IsHexColorOfLength(long, 6)
            && AdjustBrightness(color, amount) == AdjustBrightness(long, amount)
  {
    var long := ['#', color[1], color[1], color[2], color[2], color[3], color[3]];
    ExpandedHexPart(color, long);
    assert Parse(color) == Parse(long);
  }

  /** Three characters doubled. */
  lemma DoubledThree(s: string)
    requires |s| == 3
    ensures Doubled(s) == [s[0], s[0], s[1], s[1], s[2], s[2]]
  {
    var d := Doubled(s);
    assert d[0] == s[0] && d[1] == s[0];
    assert d[2 * 1] == s[1] && d[2 * 1 + 1] == s[1];
    assert d[2 * 2] == s[2] && d[2 * 2 + 1] == s[2];
  }

  lemma ExpandedHexPart(color: string, long: string)
    requires IsHexColorOfLength(color, 3)
    requires long == ['#', color[1], color[1], color[2], color[2], color[3], color[3]]
    ensures IsHexColorOfLength(long, 6)
    ensures HexPart(color) == HexPart(long)
  {
    assert IsHexDigit(color[1]) && IsHexDigit(color[2]) && IsHexDigit(color[3]);
    assert IsHexColorOfLength(long, 6);
    HexPartOfThree(color);
    HexPartOfSix(long);
    DoubledThree(color[1..]);
    assert color[1..][0] == color[1] && color[1..][1] == color[2] && color[1..][2] == color[3];
  }

  /** The three channels Format writes read back as the channels. */
  lemma FormatChannels(c: Rgb)
    requires InRange(c)
    ensures IsHexColorOfLength(Format(c), 6)
    ensures Byte(Format(c), 1) == c.r && Byte(Format(c), 3) == c.g && Byte(Format(c), 5) == c.b
  {
    var s := Format(c);
    var r, g, b := Hex2(c.r), Hex2(c.g), Hex2(c.b);
    assert s[1] == r[0] && s[2] == r[1] && s[3] == g[0] && s[4] == g[1] && s[5] == b[0] && s[6] == b[1];
  }

  /** Parsing what Format emits gives back the channels (round trip). */
  lemma {:induction false} ParseFormat(c: Rgb)
    requires InRange(c)
    ensures Parse(Format(c)) == Some(c)
  {
    FormatChannels(c);
    ParseSix(Format(c));
  }

  /** Formatting what Parse reads from a lowercase "#rrggbb" gives back the string (round trip). */
  lemma {:induction false} FormatParse(s: string)
    requires IsLowerHexColor(s)
    ensures Parse(s).Some? && InRange(Parse(s).value) && Format(Parse(s).value) == s
  {
    assert IsHexColorOfLength(s, 6);
    ParseSix(s);
    FormatBytes(s);
  }

  lemma FormatBytes(s: string)
    requires IsLowerHexColor(s)
    ensures InRange(Rgb(Byte(s, 1), Byte(s, 3), Byte(s, 5)))
    ensures Format(Rgb(Byte(s, 1), Byte(s, 3), Byte(s, 5))) == s
  {
    ByteDigits(s, 1);
    ByteDigits(s, 3);
    ByteDigits(s, 5);
    var f := Format(Rgb(Byte(s, 1), Byte(s, 3), Byte(s, 5)));
    assert f[1] == s[1] && f[2] == s[2] && f[3] == s[3];
    assert f[4] == s[4] && f[5] == s[5] && f[6] == s[6];
  }

  /** Hex2 writes a strict lowercase pair back as the same two characters. */
  lemma ByteDigits(s: string, k: nat)
    requires k + 1 < |s| && IsLowerHexDigit(s[k]) && IsLowerHexDigit(s[k + 1])
    ensures Hex2(Byte(s, k)) == s[k..k + 2]
  {
    var v := Byte(s, k);
    assert v / 16 == HexValue(s[k]) && v % 16 == HexValue(s[k + 1]);
    LowerDigitRoundTrip(s[k]);
    LowerDigitRoundTrip(s[k + 1]);
  }

  /** With amount 0 a lowercase "#rrggbb" colour comes back unchanged (macro.py:90-97). */
  lemma {:induction false} AdjustZeroIdentity(s: string)
    requires IsLowerHexColor(s)
    ensures AdjustBrightness(s, 0) == s
  {
    FormatParse(s);
  }

  /** A parsed colour with no negative channel, as every strict hex colour has. */
  predicate NonNegative(c: Rgb)
  {
    c.r >= 0 && c.g >= 0 && c.b >= 0
  }

  lemma ClampCompose(x: int, a: int, b: int)
    requires 0 <= x <= 255
    requires (a >= 0 && b >= 0) || (a <= 0 && b <= 0)
    ensures Clamp(Clamp(x + a) + b) == Clamp(x + a + b)
  {
  }

  /**
   * Two brightenings (or two darkenings) compose into one: adjusting by a and
   * then by b is adjusting by a + b, for any input whose channels are not negative.
   */
  lemma {:induction false} AdjustCompose(color: string, a: int, b: int)
    requires Parse(color).Some? && NonNegative(Parse(color).value)
    requires (a >= 0 && b >= 0) || (a <= 0 && b <= 0)
    ensures AdjustBrightness(AdjustBrightness(color, a), b) == AdjustBrightness(color, a + b)
  {
    var c := Parse(color).value;
    var once := Shift(c, a);
    AdjustOfParsed(color, a, c);
    ParseFormat(once);
    AdjustOfParsed(Format(once), b, once);
    AdjustOfParsed(color, a + b, c);
    ShiftCompose(c, a, b);
  }

  /** What adjust_brightness emits for a colour it can read. */
  lemma AdjustOfParsed(color: string, amount: int, c: Rgb)
    requires Parse(color) == Some(c)
    ensures AdjustBrightness(color, amount) == Format(Shift(c, amount))
  {
  }

  lemma ShiftCompose(c: Rgb, a: int, b: int)
    requires NonNegative(c) && c.r <= 255 && c.g <= 255 && c.b <= 255
    requires (a >= 0 && b >= 0) || (a <= 0 && b <= 0)
    ensures Shift(Shift(c, a), b) == Shift(c, a + b)
  {
    ClampCompose(c.r, a, b);
    ClampCompose(c.g, a, b);
    ClampCompose(c.b, a, b);
  }

  /**
   * Adjusting is idempotent on results: once a colour has been normalised to
   * lowercase "#rrggbb", adjusting it by 0 changes nothing.
   */
  lemma {:induction false} AdjustThenZero(color: string, amount: int)
    ensures AdjustBrightness(AdjustBrightness(color, amount), 0) == AdjustBrightness(color, amount)
  {
    var r := AdjustBrightness(color, amount);
    if r != color {
      AdjustZeroIdentity(r);
    } else if Parse(color).Some? {
      AdjustZeroIdentity(Format(Shift(Parse(color).value, amount)));
    }
  }

  /**
   * Every pack colour of the control panel is a lowercase "#rrggbb" colour, so
   * update_style's adjustments never fall back to the input and adjusting
   * by 0 leaves it as it is (macro.py:524-527, 57-65).
   */
  lemma PackColorAdjusts(i: nat, amount: int)
    requires i < |Catalog.PackColors|
    ensures IsLowerHexColor(Catalog.PackColors[i])
    ensures IsLowerHexColor(AdjustBrightness(Catalog.PackColors[i], amount))
    ensures AdjustBrightness(Catalog.PackColors[i], 0) == Catalog.PackColors[i]
  {
    var c := Catalog.PackColors[i];
    assert IsLowerHexColor(c);
    assert IsHexColorOfLength(c, 6);
    AdjustSixDigits(c, amount);
    AdjustZeroIdentity(c);
  }
}
