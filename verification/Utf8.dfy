/**
 * UTF-8 as section 3 of RFC 3629 defines it, and the decoder of Python's `errors="ignore"`, which
 * skips the longest well-formed beginning of a sequence that breaks off. A Dafny char is a Unicode
 * scalar value.
 */
module Utf8 {
  import opened Domain

  type byte = b: int | 0 <= b < 256

  function EncodeChar(c: char): (r: seq<byte>)
    ensures 1 <= |r| <= 4
  {
    var n := c as int;
    if n < 0x80 then [n]
    else if n < 0x800 then [0xC0 + n / 64, 0x80 + n % 64]
    else if n < 0x1_0000 then [0xE0 + n / 4096, 0x80 + n / 64 % 64, 0x80 + n % 64]
    else [0xF0 + n / 262144, 0x80 + n / 4096 % 64, 0x80 + n / 64 % 64, 0x80 + n % 64]
  }

  function Encode(s: string): seq<byte> {
    if s == [] then [] else EncodeChar(s[0]) + Encode(s[1..])
  }

  // ---- The decoder ----------------------------------------------------------------------------

  // The length a lead byte announces; 0 for a byte that leads nothing.
  function Announced(lead: byte): nat {
    if lead < 0x80 then 1
    else if 0xC2 <= lead <= 0xDF then 2
    else if 0xE0 <= lead <= 0xEF then 3
    else if 0xF0 <= lead <= 0xF4 then 4
    else 0
  }

  // The six bits a continuation byte carries.
  function Low(b: byte): int {
    var n: int := b;
    n - 0x80
  }

  predicate Continues(b: byte) {
    0x80 <= b <= 0xBF
  }

  // The second byte excludes overlong forms, surrogates and values past 0x10FFFF.
  predicate Seconds(lead: byte, b: byte) {
    && Continues(b)
    && (lead == 0xE0 ==> b >= 0xA0)
    && (lead == 0xED ==> b <= 0x9F)
    && (lead == 0xF0 ==> b >= 0x90)
    && (lead == 0xF4 ==> b <= 0x8F)
  }

  // How many bytes at the front belong to one well-formed sequence or to the beginning of one.
  function Matched(b: seq<byte>): (n: nat)
    requires b != []
    ensures 0 < n <= |b|
    ensures n <= (if Announced(b[0]) == 0 then 1 else Announced(b[0]))
  {
    var k := Announced(b[0]);
    if k <= 1 || |b| < 2 || !Seconds(b[0], b[1]) then 1
    else if k == 2 || |b| < 3 || !Continues(b[2]) then 2
    else if k == 3 || |b| < 4 || !Continues(b[3]) then 3
    else 4
  }

  function Value(b: seq<byte>): (n: int)
    requires b != [] && Matched(b) == Announced(b[0])
    ensures 0 <= n < 0xD800 || 0xE000 <= n < 0x11_0000
  {
    var lead: int := b[0];
    match Announced(b[0])
    case 1 => lead
    case 2 => 64 * (lead - 0xC0) + Low(b[1])
    case 3 => 4096 * (lead - 0xE0) + 64 * Low(b[1]) + Low(b[2])
    case _ => 262144 * (lead - 0xF0) + 4096 * Low(b[1]) + 64 * Low(b[2]) + Low(b[3])
  }

  function DecodeIgnoring(b: seq<byte>): string {
    if b == [] then []
    else
      var n := Matched(b);
      (if n == Announced(b[0]) then [Value(b) as char] else []) + DecodeIgnoring(b[n..])
  }

  // ---- Encoding and decoding ------------------------------------------------------------------

  lemma Digits(n: int)
    requires 0 <= n
    ensures n == 64 * (n / 64) + n % 64 && n / 64 == 64 * (n / 4096) + n / 64 % 64
    ensures n / 4096 == 64 * (n / 262144) + n / 4096 % 64
  {
  }

  lemma {:induction false} EncodedCharMatches(c: char, rest: seq<byte>)
    ensures var b := EncodeChar(c) + rest;
      Matched(b) == |EncodeChar(c)| == Announced(b[0]) && Value(b) == c as int
  {
    var n := c as int;
    Digits(n);
    var e := EncodeChar(c);
    var b := e + rest;
    assert forall i :: 0 <= i < |e| ==> b[i] == e[i];
    if |e| == 3 {
      assert Seconds(e[0], e[1]);
    } else if |e| == 4 {
      assert Seconds(e[0], e[1]);
    }
  }

  lemma CutCharMatches(c: char, m: nat)
    requires 0 < m < |EncodeChar(c)|
    ensures Matched(EncodeChar(c)[..m]) == m < Announced(EncodeChar(c)[0])
  {
  }

  lemma {:induction false} DecodeOneChar(c: char, rest: seq<byte>)
    ensures DecodeIgnoring(EncodeChar(c) + rest) == [c] + DecodeIgnoring(rest)
  {
    EncodedCharMatches(c, rest);
    hide Matched, Value, EncodeChar, Announced;
    assert (EncodeChar(c) + rest)[|EncodeChar(c)|..] == rest;
  }

  // A character cut short decodes to nothing.
  lemma DecodeCutChar(c: char, m: nat)
    requires m < |EncodeChar(c)|
    ensures DecodeIgnoring(EncodeChar(c)[..m]) == []
  {
    if m > 0 {
      CutCharMatches(c, m);
      hide Matched, Value, EncodeChar, Announced;
      assert EncodeChar(c)[..m][m..] == [];
    }
  }

  lemma {:induction false} EncodeAppends(a: string, b: string)
    ensures Encode(a + b) == Encode(a) + Encode(b)
  {
    hide EncodeChar;
    if a == [] {
      assert a + b == b;
    } else {
      EncodeAppends(a[1..], b);
      assert (a + b)[1..] == a[1..] + b && (a + b)[0] == a[0];
      ConcatAssociates(EncodeChar(a[0]), Encode(a[1..]), Encode(b));
    }
  }

  // Decoding undoes encoding, so the encoding is injective.
  lemma {:induction false} RoundTrip(s: string)
    ensures DecodeIgnoring(Encode(s)) == s
  {
    hide EncodeChar, Matched, Value, Announced;
    if s != [] {
      DecodeOneChar(s[0], Encode(s[1..]));
      RoundTrip(s[1..]);
    }
  }

  // ---- Prefixes that fit ----------------------------------------------------------------------

  // `r` is the longest prefix of `s` whose UTF-8 form has at most `max` bytes.
  ghost predicate LongestFit(s: string, max: int, r: string) {
    && r <= s && |Encode(r)| <= max
    && forall k :: |r| < k <= |s| ==> |Encode(s[..k])| > max
  }

  lemma LongestFitIsUnique(s: string, max: int, r: string, q: string)
    requires LongestFit(s, max, r) && LongestFit(s, max, q)
    ensures r == q
  {
    assert s[..|r|] == r && s[..|q|] == q;
  }

  lemma {:induction false} LongerIsMoreBytes(s: string, k: nat)
    requires 0 < k <= |s|
    ensures |Encode(s[..k])| == |EncodeChar(s[0])| + |Encode(s[1..][..k - 1])|
  {
    assert s[..k] == [s[0]] + s[1..][..k - 1];
    EncodeAppends([s[0]], s[1..][..k - 1]);
    assert Encode([s[0]]) == EncodeChar(s[0]);
  }

  // Cutting the encoded bytes anywhere and decoding gives the longest prefix that fits.
  lemma {:induction false} CutDecodesToLongestFit(s: string, m: nat)
    requires m <= |Encode(s)|
    ensures LongestFit(s, m, DecodeIgnoring(Encode(s)[..m]))
  {
    hide EncodeChar, Matched, Value, Announced;
    if s != [] {
      var head, tail := EncodeChar(s[0]), Encode(s[1..]);
      if m < |head| {
        assert Encode(s)[..m] == head[..m];
        DecodeCutChar(s[0], m);
        forall k | 0 < k <= |s|
          ensures |Encode(s[..k])| > m
        {
          LongerIsMoreBytes(s, k);
        }
      } else {
        var cut := m - |head|;
        assert Encode(s)[..m] == head + tail[..cut];
        DecodeOneChar(s[0], tail[..cut]);
        CutDecodesToLongestFit(s[1..], cut);
        var r := DecodeIgnoring(tail[..cut]);
        FitGrows(s, m, r);
      }
    }
  }

  lemma FitGrows(s: string, m: nat, r: string)
    requires s != [] && |EncodeChar(s[0])| <= m && LongestFit(s[1..], m - |EncodeChar(s[0])|, r)
    ensures LongestFit(s, m, [s[0]] + r)
  {
    hide EncodeChar;
    var q := [s[0]] + r;
    assert q[1..] == r;
    assert q <= s;
    forall k | |q| < k <= |s|
      ensures |Encode(s[..k])| > m
    {
      LongerIsMoreBytes(s, k);
    }
  }
}
