/**
 * Base64 as the browser's `atob` decodes it: the alphabet of section 4 of
 * RFC 4648 and the "forgiving-base64 decode" algorithm of the WHATWG Infra
 * standard, which `atob` runs (one or two trailing `=` are dropped when the
 * length is a multiple of four, a remainder of one character is refused, and
 * the unused low bits of a final partial group are discarded).
 *
 * `Encode` (with padding) is the reference partner: decoding an encoding
 * gives back the bytes.
 */
module Base64 {
  import opened Wrappers

  /** One byte, as held by a `Uint8Array`. */
  type byte = x: int | 0 <= x < 256

  /** One base64 digit: six bits. */
  type sextet = x: int | 0 <= x < 64

  /** The 64 characters of the base64 alphabet (Table 1 of RFC 4648). */
  predicate IsAlphabetChar(c: char)
  {
    'A' <= c <= 'Z' || 'a' <= c <= 'z' || '0' <= c <= '9' || c == '+' || c == '/'
  }

  predicate AllAlphabet(s: string)
  {
    forall i :: 0 <= i < |s| ==> IsAlphabetChar(s[i])
  }

  /** The character that encodes the value `v`. */
  function DigitChar(v: sextet): (c: char)
    ensures IsAlphabetChar(c)
  {
    if v < 26 then ('A' as int + v) as char
    else if v < 52 then ('a' as int + (v - 26)) as char
    else if v < 62 then ('0' as int + (v - 52)) as char
    else if v == 62 then '+'
    else '/'
  }

  /** The value a character of the alphabet encodes; the inverse of `DigitChar`. */
  function DigitValue(c: char): (v: sextet)
    requires IsAlphabetChar(c)
    ensures DigitChar(v) == c
  {
    if 'A' <= c <= 'Z' then c as int - 'A' as int
    else if 'a' <= c <= 'z' then c as int - 'a' as int + 26
    else if '0' <= c <= '9' then c as int - '0' as int + 52
    else if c == '+' then 62
    else 63
  }

  lemma DigitRoundTrip(v: sextet)
    ensures DigitValue(DigitChar(v)) == v
  {
  }

  /**
   * Step 2 of forgiving-base64 decode: when the length is a multiple of four,
   * one or two trailing `=` are removed.
   */
  function StripPadding(s: string): (d: string)
    ensures |d| <= |s| && d == s[..|d|]
  {
    if |s| % 4 == 0 && |s| >= 2 && s[|s| - 2] == '=' && s[|s| - 1] == '=' then s[..|s| - 2]
    else if |s| % 4 == 0 && |s| >= 1 && s[|s| - 1] == '=' then s[..|s| - 1]
    else s
  }

  /** The values of a run of alphabet characters. */
  function DigitValues(d: string): (vs: seq<sextet>)
    requires AllAlphabet(d)
    ensures |vs| == |d| && forall i :: 0 <= i < |d| ==> DigitChar(vs[i]) == d[i]
  {
    seq(|d|, i requires 0 <= i < |d| => DigitValue(d[i]))
  }

  /** The characters that spell a run of digit values. */
  function DigitChars(vs: seq<sextet>): (d: string)
    ensures |d| == |vs| && AllAlphabet(d)
  {
    seq(|vs|, i requires 0 <= i < |vs| => DigitChar(vs[i]))
  }

  lemma DigitCharsRoundTrip(vs: seq<sextet>)
    ensures DigitValues(DigitChars(vs)) == vs
  {
    forall i | 0 <= i < |vs| ensures DigitValues(DigitChars(vs))[i] == vs[i] {
      DigitRoundTrip(vs[i]);
    }
  }

  /**
   * The bytes of a padding-free run of digit values: each full group of four
   * digits gives three bytes, a final group of two or three digits gives one
   * or two, and the leftover low bits of such a group are dropped.
   */
  function DecodeValues(vs: seq<sextet>): (r: seq<byte>)
    requires |vs| % 4 != 1
    ensures |r| == |vs| * 3 / 4
  {
    if |vs| == 0 then []
    else if |vs| == 2 then [(vs[0] as int) * 4 + vs[1] / 16]
    else if |vs| == 3 then [(vs[0] as int) * 4 + vs[1] / 16, ((vs[1] as int) % 16) * 16 + vs[2] / 4]
    else
      [(vs[0] as int) * 4 + vs[1] / 16, ((vs[1] as int) % 16) * 16 + vs[2] / 4, ((vs[2] as int) % 4) * 64 + vs[3]]
      + DecodeValues(vs[4..])
  }

  /** `atob`'s decoding, with `None` where `atob` throws `InvalidCharacterError`. */
  function Decode(s: string): (r: Option<seq<byte>>)
    ensures r.Some? <==> AllAlphabet(StripPadding(s)) && |StripPadding(s)| % 4 != 1
    ensures r.Some? ==> |r.value| == |StripPadding(s)| * 3 / 4
  {
    var d := StripPadding(s);
    if |d| % 4 == 1 || !AllAlphabet(d) then None else Some(DecodeValues(DigitValues(d)))
  }

  /** The digit values of `b`: four per three bytes, then two or three for a final one or two bytes. */
  function EncodeValues(b: seq<byte>): (vs: seq<sextet>)
    ensures |vs| == (if |b| % 3 == 0 then 0 else |b| % 3 + 1) + |b| / 3 * 4
  {
    if |b| == 0 then []
    else if |b| == 1 then [b[0] / 4, (b[0] % 4) * 16]
    else if |b| == 2 then [b[0] / 4, (b[0] % 4) * 16 + b[1] / 16, (b[1] % 16) * 4]
    else
      [b[0] / 4, (b[0] % 4) * 16 + b[1] / 16, (b[1] % 16) * 4 + b[2] / 64, b[2] % 64]
      + EncodeValues(b[3..])
  }

  /** Padded base64 as section 4 of RFC 4648 writes it: `=` fills the last group to four characters. */
  function Encode(b: seq<byte>): (s: string)
    ensures |s| % 4 == 0
  {
    DigitChars(EncodeValues(b)) + (if |b| % 3 == 1 then "==" else if |b| % 3 == 2 then "=" else "")
  }

  /** Decoding undoes encoding: every byte sequence comes back unchanged from `atob`. */
  lemma DecodeEncode(b: seq<byte>)
    ensures Decode(Encode(b)) == Some(b)
  {
    var d := DigitChars(EncodeValues(b));
    var s := Encode(b);
    assert StripPadding(s) == d by {
      if |b| % 3 == 1 {
        assert s == d + "==" && s[..|s| - 2] == d;
      } else if |b| % 3 == 2 {
        assert s == d + "=" && s[..|s| - 1] == d;
        assert IsAlphabetChar(s[|s| - 2]);
      } else {
        assert s == d;
        assert d != [] ==> IsAlphabetChar(s[|s| - 1]);
      }
    }
    DigitCharsRoundTrip(EncodeValues(b));
    DecodeValuesEncode(b);
  }

  lemma {:induction false} DecodeValuesEncode(b: seq<byte>)
    ensures |EncodeValues(b)| % 4 != 1
    ensures DecodeValues(EncodeValues(b)) == b
  {
    if |b| >= 3 {
      DecodeValuesEncode(b[3..]);
      var vs := EncodeValues(b);
      assert vs[4..] == EncodeValues(b[3..]);
      GroupRoundTrip(b[0], b[1], b[2]);
      assert b == b[..3] + b[3..];
    } else if |b| > 0 {
      GroupRoundTrip(b[0], if |b| == 2 then b[1] else 0, 0);
    }
  }

  /** The bit arithmetic of one group: three bytes split into four digits and joined again. */
  lemma GroupRoundTrip(b0: byte, b1: byte, b2: byte)
    ensures var c0, c1 := b0 / 4, (b0 % 4) * 16 + b1 / 16;
            c0 * 4 + c1 / 16 == b0
    ensures var c1, c2 := (b0 % 4) * 16 + b1 / 16, (b1 % 16) * 4 + b2 / 64;
            (c1 % 16) * 16 + c2 / 4 == b1
    ensures var c2, c3 := (b1 % 16) * 4 + b2 / 64, b2 % 64;
            (c2 % 4) * 64 + c3 == b2
  {
  }
}
