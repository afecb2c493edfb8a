/**
 * Color: an (r, g, b) triple of Java ints and its "#RRGGBB" text form.
 * Colours are values here: the public API never changes a colour after it is
 * built (the private parser only fills a fresh object), so a datatype stands for
 * the class. Java's `x & 0xFF` is the Euclidean remainder `x % 256` and `x >> k`
 * is floor division by 2^k, which Dafny's `/` is for a positive divisor.
 */
module Colors {
  import opened Wrappers
  import opened Arithmetic

  datatype Color = Color(r: int, g: int, b: int)

  const GRAY := Color(128, 128, 128)

  const INT_MIN: int := -0x8000_0000
  const INT_MAX: int := 0x7FFF_FFFF

  /** x & 0xFF on a two's-complement int. */
  function Low8(x: int): (b: int)
    ensures 0 <= b < 256
    ensures 0 <= x < 256 ==> b == x
  {
    x % 256
  }

  predicate InRange(c: Color)
  {
    0 <= c.r < 256 && 0 <= c.g < 256 && 0 <= c.b < 256
  }

  /** ((r & 0xFF) << 16) | ((g & 0xFF) << 8) | (b & 0xFF): the three bytes never overlap. */
  function Packed(c: Color): (rgb: int)
    ensures 0 <= rgb < 0x100_0000
  {
    Low8(c.r) * 0x1_0000 + Low8(c.g) * 0x100 + Low8(c.b)
  }

  const UPPER_HEX: string := "0123456789ABCDEF"

  predicate IsUpperHex(ch: char)
  {
    ch in UPPER_HEX
  }

  /** The k low hex digits of n, most significant first, zero-padded. */
  function HexDigits(n: nat, k: nat): (s: string)
    ensures |s| == k
    ensures forall i | 0 <= i < k :: IsUpperHex(s[i])
  {
    if k == 0 then [] else HexDigits(n / 16, k - 1) + [UPPER_HEX[n % 16]]
  }

  /** toString pads the combined 24-bit value to six hex digits. */
  const WIDTH: nat := 6

  /** toString: String.format("#%06X", rgb & 0xFFFFFF). */
  function ToString(c: Color): (s: string)
    ensures |s| == 7 && s[0] == '#'
    ensures forall i | 1 <= i < 7 :: IsUpperHex(s[i])
  {
    "#" + HexDigits(Packed(c), WIDTH)
  }

  /** Only the low 8 bits of each component reach the text. */
  lemma ToStringUsesLowBytes(c: Color)
    ensures ToString(c) == ToString(Color(Low8(c.r), Low8(c.g), Low8(c.b)))
  {
  }

  /** String.trim: drop leading and trailing characters <= U+0020. */
  predicate IsTrimmed(ch: char)
  {
    ch <= ' '
  }

  function TrimLeft(s: string): (t: string)
    ensures |t| <= |s| && t == s[|s| - |t|..]
    ensures |t| > 0 ==> !IsTrimmed(t[0])
  {
    if |s| > 0 && IsTrimmed(s[0]) then TrimLeft(s[1..]) else s
  }

  function TrimRight(s: string): (t: string)
    ensures |t| <= |s| && t == s[..|t|]
    ensures |t| > 0 ==> !IsTrimmed(t[|t| - 1])
  {
    if |s| > 0 && IsTrimmed(s[|s| - 1]) then TrimRight(s[..|s| - 1]) else s
  }

  function Trim(s: string): (t: string)
    ensures |t| <= |s|
    ensures |t| > 0 ==> !IsTrimmed(t[0]) && !IsTrimmed(t[|t| - 1])
  {
    TrimRight(TrimLeft(s))
  }

  /** Character.digit(ch, 16) on ASCII; -1 when ch is not a hex digit. */
  function DigitValue(ch: char): (d: int)
    ensures -1 <= d < 16
  {
    if '0' <= ch <= '9' then ch as int - '0' as int
    else if 'a' <= ch <= 'f' then ch as int - 'a' as int + 10
    else if 'A' <= ch <= 'F' then ch as int - 'A' as int + 10
    else -1
  }

  predicate AllHex(s: string)
  {
    forall i | 0 <= i < |s| :: DigitValue(s[i]) >= 0
  }

  /** The value of a string of hex digits, most significant first. */
  function HexValue(s: string): (v: nat)
    requires AllHex(s)
  {
    if |s| == 0 then 0 else HexValue(s[..|s| - 1]) * 16 + DigitValue(s[|s| - 1])
  }

  datatype ParseError =
    | IndexOutOfBounds  // substring(1) of an empty string
    | NumberFormat      // parseInt rejects the text

  /**
   * Integer.parseInt(s, 16): an optional sign followed by at least one hex digit,
   * whose value must fit in a 32-bit int.
   */
  function ParseHexInt(s: string): (r: Result<int, ParseError>)
    ensures r.Ok? ==> INT_MIN <= r.value <= INT_MAX
    ensures r.Err? ==> r.error == NumberFormat
    ensures r.Ok? && |s| > 0 && s[0] != '-' ==> r.value >= 0
  {
    if |s| == 0 then Err(NumberFormat)
    else
      var negative := s[0] == '-';
      var digits := if s[0] == '-' || s[0] == '+' then s[1..] else s;
      if |digits| == 0 || !AllHex(digits) then Err(NumberFormat)
      else
        var magnitude: int := HexValue(digits);
        var v := if negative then -magnitude else magnitude;
        if INT_MIN <= v <= INT_MAX then Ok(v) else Err(NumberFormat)
  }

  /** The components parser stores: (rgb >> 16) & 0xFF, (rgb >> 8) & 0xFF, rgb & 0xFF. */
  function Unpack(rgb: int): (c: Color)
    ensures InRange(c)
  {
    Color(Low8(rgb / 0x1_0000), Low8(rgb / 0x100), Low8(rgb))
  }

  /** parse: trim, drop the first character (meant to be '#'), read hex, unpack. */
  function Parse(s: string): (r: Result<Color, ParseError>)
    ensures r.Ok? ==> InRange(r.value)
  {
    var t := Trim(s);
    if |t| == 0 then Err(IndexOutOfBounds)
    else
      match ParseHexInt(t[1..])
      case Ok(rgb) => Ok(Unpack(rgb))
      case Err(e) => Err(e)
  }

  function Pow16(k: nat): (p: nat)
    ensures p > 0
  {
    if k == 0 then 1 else 16 * Pow16(k - 1)
  }

  /** (n / 16) % p * 16 + n % 16 == n % (16 p). */
  lemma ModSplit(n: nat, p: nat)
    requires p > 0
    ensures (n / 16) % p * 16 + n % 16 == n % (16 * p)
  {
    var q := n / 16;
    var d := n % 16;
    var a := q / p;
    var b := q % p;
    assert n == 16 * q + d;
    assert q == p * a + b;
    assert n == (16 * p) * a + (b * 16 + d);
    assert b * 16 + d < 16 * p by {
      assert b <= p - 1;
      assert b * 16 <= 16 * p - 16;
    }
    DivModUnique(n, 16 * p, a, b * 16 + d);
  }

  lemma DigitValueOfHex(d: int)
    requires 0 <= d < 16
    ensures DigitValue(UPPER_HEX[d]) == d
  {
  }

  lemma {:induction false} HexRoundTrip(n: nat, k: nat)
    ensures AllHex(HexDigits(n, k))
    ensures HexValue(HexDigits(n, k)) == n % Pow16(k)
  {
    var s := HexDigits(n, k);
    if k == 0 {
      assert n % 1 == 0;
    } else {
      HexRoundTrip(n / 16, k - 1);
      var prefix := HexDigits(n / 16, k - 1);
      assert s == prefix + [UPPER_HEX[n % 16]];
      assert s[..|s| - 1] == prefix;
      DigitValueOfHex(n % 16);
      assert AllHex(s) by {
        forall i | 0 <= i < |s|
          ensures DigitValue(s[i]) >= 0
        {
          if i < |s| - 1 {
            assert s[i] == prefix[i];
          }
        }
      }
      assert HexValue(s) == (n / 16) % Pow16(k - 1) * 16 + n % 16;
      ModSplit(n, Pow16(k - 1));
    }
  }

  lemma UnpackPacked(c: Color)
    ensures Unpack(Packed(c)) == Color(Low8(c.r), Low8(c.g), Low8(c.b))
  {
    var r, g, b := Low8(c.r), Low8(c.g), Low8(c.b);
    var rgb := Packed(c);
    DivModUnique(rgb, 0x1_0000, r, g * 0x100 + b);
    DivModUnique(rgb, 0x100, r * 0x100 + g, b);
    DivModUnique(r * 0x100 + g, 0x100, r, g);
  }

  /** A string with no blank at either end is its own trim. */
  lemma TrimUnblanked(s: string)
    requires |s| > 0 && !IsTrimmed(s[0]) && !IsTrimmed(s[|s| - 1])
    ensures Trim(s) == s
  {
  }

  /** Round trip: parsing toString's text recovers the low bytes of every component. */
  lemma ParseToString(c: Color)
    ensures Parse(ToString(c)) == Ok(Color(Low8(c.r), Low8(c.g), Low8(c.b)))
  {
    ToStringDigits(c);
    DigitsParse(Packed(c));
    ParseTrimmed(ToString(c), Packed(c));
    UnpackPacked(c);
  }

  /** A text with nothing to trim is read from its second character on. */
  lemma ParseTrimmed(s: string, rgb: int)
    requires |s| > 0 && !IsTrimmed(s[0]) && !IsTrimmed(s[|s| - 1])
    requires ParseHexInt(s[1..]) == Ok(rgb)
    ensures Parse(s) == Ok(Unpack(rgb))
  {
    TrimUnblanked(s);
  }

  /** For a colour with components in [0, 255] the round trip is exact. */
  lemma ParseToStringExact(c: Color)
    requires InRange(c)
    ensures Parse(ToString(c)) == Ok(c)
  {
    ParseToString(c);
  }

  /** toString's text starts and ends with a non-blank, and its digits follow the '#'. */
  lemma ToStringDigits(c: Color)
    ensures ToString(c)[1..] == HexDigits(Packed(c), WIDTH)
    ensures !IsTrimmed(ToString(c)[0]) && !IsTrimmed(ToString(c)[6])
  {
  }

  /** Six hex digits of a 24-bit value parse back to that value. */
  lemma DigitsParse(rgb: int)
    requires 0 <= rgb < 0x100_0000
    ensures ParseHexInt(HexDigits(rgb, WIDTH)) == Ok(rgb)
  {
    var digits := HexDigits(rgb, WIDTH);
    HexRoundTrip(rgb, WIDTH);
    assert Pow16(WIDTH) == 0x100_0000;
    DivModUnique(rgb, 0x100_0000, 0, rgb);
    assert HexValue(digits) == rgb;
    assert DigitValue(digits[0]) >= 0;
  }

  /** Leading and trailing blanks do not change what parse reads. */
  lemma {:induction false} TrimLeftBlanks(pre: string, s: string)
    requires forall i | 0 <= i < |pre| :: IsTrimmed(pre[i])
    ensures TrimLeft(pre + s) == TrimLeft(s)
  {
    if |pre| > 0 {
      assert (pre + s)[0] == pre[0];
      assert (pre + s)[1..] == pre[1..] + s;
      TrimLeftBlanks(pre[1..], s);
    } else {
      assert pre + s == s;
    }
  }

  lemma {:induction false} TrimRightBlanks(s: string, post: string)
    requires forall i | 0 <= i < |post| :: IsTrimmed(post[i])
    ensures TrimRight(s + post) == TrimRight(s)
  {
    if |post| > 0 {
      var p := post[..|post| - 1];
      assert (s + post)[|s + post| - 1] == post[|post| - 1];
      assert (s + post)[..|s + post| - 1] == s + p;
      TrimRightBlanks(s, p);
    } else {
      assert s + post == s;
    }
  }

  lemma ParseIgnoresBlanks(pre: string, s: string, post: string)
    requires forall i | 0 <= i < |pre| :: IsTrimmed(pre[i])
    requires forall i | 0 <= i < |post| :: IsTrimmed(post[i])
    requires |s| > 0 && !IsTrimmed(s[0]) && !IsTrimmed(s[|s| - 1])
    ensures Parse(pre + s + post) == Parse(s)
  {
    assert pre + s + post == pre + (s + post);
    TrimLeftBlanks(pre, s + post);
    assert (s + post)[0] == s[0];
    assert TrimLeft(s + post) == s + post;
    TrimRightBlanks(s, post);
    TrimUnblanked(s);
    assert Trim(pre + s + post) == s;
  }

  /** parse never checks the '#': any first character is dropped. */
  lemma ParseDropsFirstCharacter(ch: char, digits: string)
    requires !IsTrimmed(ch) && |digits| > 0 && !IsTrimmed(digits[|digits| - 1])
    ensures Parse([ch] + digits) == match ParseHexInt(digits) case Ok(v) => Ok(Unpack(v)) case Err(e) => Err(e)
  {
    var s := [ch] + digits;
    assert TrimLeft(s) == s && TrimRight(s) == s;
    assert s[1..] == digits;
  }

  /** A blank string has nothing to drop: substring(1) fails. */
  lemma ParseBlank(s: string)
    requires forall i | 0 <= i < |s| :: IsTrimmed(s[i])
    ensures Parse(s) == Err(IndexOutOfBounds)
  {
    TrimLeftBlanks(s, []);
    assert s + [] == s;
  }

  /** A negative number is read as two's complement: "#-1" is white. */
  lemma ParseNegative()
    ensures Parse("#-1") == Ok(Color(255, 255, 255))
  {
    var s := "#-1";
    assert TrimLeft(s) == s && TrimRight(s) == s;
    assert s[1..] == "-1";
    assert "-1"[1..] == "1";
    assert HexValue("1") == 1 by {
      assert "1"[..0] == "";
    }
  }
}
