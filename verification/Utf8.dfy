/** UTF-8, as far as the byte-indexed loops of the program can tell it from text. */
module Utf8 {

  newtype byte = b: int | 0 <= b < 256

  predicate IsAscii(c: char) { c < 128 as char }

  predicate AllAscii(s: string) {
    forall i :: 0 <= i < |s| ==> IsAscii(s[i])
  }

  /** The encoding of one code point: one byte for ASCII, otherwise two to four bytes from 128 up. */
  function EncodeRune(c: char): (bs: seq<byte>)
    ensures IsAscii(c) ==> |bs| == 1 && bs[0] as int == c as int
    ensures !IsAscii(c) ==> 2 <= |bs| <= 4 && forall i :: 0 <= i < |bs| ==> 128 <= bs[i]
  {
    var n := c as int;
    if n < 0x80 then [n as byte]
    else if n < 0x800 then [(0xC0 + n / 64) as byte, (0x80 + n % 64) as byte]
    else if n < 0x10000 then
      [(0xE0 + n / 4096) as byte, (0x80 + n / 64 % 64) as byte, (0x80 + n % 64) as byte]
    else
      [(0xF0 + n / 262144) as byte, (0x80 + n / 4096 % 64) as byte,
       (0x80 + n / 64 % 64) as byte, (0x80 + n % 64) as byte]
  }

  function Encode(s: string): seq<byte> {
    if s == "" then [] else EncodeRune(s[0]) + Encode(s[1..])
  }

  // Decoding, by section 3 of RFC 3629.

  /** How many bytes a first byte announces. */
  function Announced(first: byte): (n: nat)
    ensures 1 <= n <= 4
  {
    if first < 0xE0 then if first < 0xC0 then 1 else 2
    else if first < 0xF0 then 3 else 4
  }

  /** The number that a first byte and its continuation bytes spell, six bits in each of these. */
  function Spelled(bs: seq<byte>): int {
    if |bs| == 0 then 0
    else if |bs| == 1 then bs[0] as int
    else if |bs| == 2 then (bs[0] as int - 0xC0) * 64 + (bs[1] as int - 0x80)
    else if |bs| == 3 then (bs[0] as int - 0xE0) * 4096 + (bs[1] as int - 0x80) * 64 + (bs[2] as int - 0x80)
    else (bs[0] as int - 0xF0) * 262144 + (bs[1] as int - 0x80) * 4096 + (bs[2] as int - 0x80) * 64
         + (if |bs| > 3 then bs[3] as int - 0x80 else 0)
  }

  lemma SixBitParts(n: nat)
    ensures n == n / 64 * 64 + n % 64
    ensures n / 64 == n / 4096 * 64 + n / 64 % 64
    ensures n / 4096 == n / 262144 * 64 + n / 4096 % 64
  {
  }

  /** A code point is encoded in as many bytes as its first byte announces, which spell it. */
  lemma RuneDecodes(c: char)
    ensures var bs := EncodeRune(c); |bs| == Announced(bs[0]) && Spelled(bs) == c as int
  {
    SixBitParts(c as int);
  }

  /** It takes as few bytes as its number allows, and all but the first are continuation bytes. */
  lemma RuneIsShort(c: char)
    ensures var bs := EncodeRune(c);
            && |bs| == (if (c as int) < 0x80 then 1 else if (c as int) < 0x800 then 2
                        else if (c as int) < 0x10000 then 3 else 4)
            && forall i :: 0 < i < |bs| ==> 0x80 <= bs[i] < 0xC0
  {
  }

  function Decode(bs: seq<byte>): seq<int> {
    if bs == [] then []
    else if |bs| < Announced(bs[0]) then [-1]
    else [Spelled(bs[..Announced(bs[0])])] + Decode(bs[Announced(bs[0])..])
  }

  /** Encoding loses nothing. */
  lemma {:induction false} DecodeOfEncode(s: string)
    ensures |Decode(Encode(s))| == |s| && forall i :: 0 <= i < |s| ==> Decode(Encode(s))[i] == s[i] as int
    decreases |s|
  {
    if s != "" {
      var first, rest := EncodeRune(s[0]), Encode(s[1..]);
      RuneDecodes(s[0]);
      DecodeOfEncode(s[1..]);
      assert (first + rest)[..|first|] == first && (first + rest)[|first|..] == rest;
    }
  }

  /** Go's `string(b)` on a byte: the code point with that number. */
  function RuneOf(b: byte): char { (b as int) as char }

  /** What `string(s[i])`, byte by byte, makes of a byte string. */
  function Latin(bs: seq<byte>): (s: string)
    ensures |s| == |bs| && forall i :: 0 <= i < |s| ==> s[i] == RuneOf(bs[i])
  {
    seq(|bs|, i requires 0 <= i < |bs| => RuneOf(bs[i]))
  }

  lemma LatinConcat(a: seq<byte>, b: seq<byte>)
    ensures Latin(a + b) == Latin(a) + Latin(b)
  {
  }

  /** Reading bytes as code points is faithful on ASCII text. */
  lemma {:induction false} LatinOfAscii(s: string)
    requires AllAscii(s)
    ensures Latin(Encode(s)) == s
    decreases |s|
  {
    if s != "" {
      LatinOfAscii(s[1..]);
      LatinConcat(EncodeRune(s[0]), Encode(s[1..]));
      assert Latin(EncodeRune(s[0])) == [s[0]];
    }
  }

  /** The number of characters outside ASCII. */
  function High(s: string): nat {
    if s == "" then 0 else (if IsAscii(s[0]) then 0 else 1) + High(s[1..])
  }

  lemma {:induction false} HighConcat(a: string, b: string)
    ensures High(a + b) == High(a) + High(b)
    decreases |a|
  {
    if a == "" {
      assert a + b == b;
    } else {
      HighConcat(a[1..], b);
      assert (a + b)[1..] == a[1..] + b;
    }
  }

  lemma {:induction false} HighOfAscii(s: string)
    ensures High(s) == 0 <==> AllAscii(s)
    decreases |s|
  {
    if s != "" {
      HighOfAscii(s[1..]);
      if AllAscii(s[1..]) && IsAscii(s[0]) {
        assert forall i :: 1 <= i < |s| ==> s[i] == s[1..][i - 1];
      }
      if AllAscii(s) {
        assert AllAscii(s[1..]);
        assert IsAscii(s[0]);
      }
    }
  }

  lemma {:induction false} HighOfAll(s: string)
    requires forall i :: 0 <= i < |s| ==> !IsAscii(s[i])
    ensures High(s) == |s|
    decreases |s|
  {
    if s != "" {
      HighOfAll(s[1..]);
    }
  }

  /** Read byte by byte, every character outside ASCII turns into at least two of them. */
  lemma {:induction false} LatinDoublesHigh(s: string)
    ensures 2 * High(s) <= High(Latin(Encode(s)))
    decreases |s|
  {
    if s != "" {
      LatinDoublesHigh(s[1..]);
      LatinConcat(EncodeRune(s[0]), Encode(s[1..]));
      HighConcat(Latin(EncodeRune(s[0])), Latin(Encode(s[1..])));
      if !IsAscii(s[0]) {
        HighOfAll(Latin(EncodeRune(s[0])));
      }
    }
  }
}
