/**
 * UTF-8 (RFC 3629), the encoding a listener assumes when a message arrives as bytes and
 * decodes it with `toString('utf8')`. Decoding never fails: an ill-formed subsequence
 * becomes one U+FFFD, replacing each maximal subpart of a well-formed sequence (the
 * practice described in section 3.9 of the Unicode standard).
 */
module Utf8 {

  type byte = x: int | 0 <= x < 256

  const Replacement: char := '\U{FFFD}'

  function EncodeChar(c: char): (b: seq<byte>)
    ensures 1 <= |b| <= 4
  {
    var n := c as int;
    if n < 0x80 then [n]
    else if n < 0x800 then [0xC0 + n / 64, 0x80 + n % 64]
    else if n < 0x1_0000 then [0xE0 + n / 4096, 0x80 + (n / 64) % 64, 0x80 + n % 64]
    else [0xF0 + n / 262144, 0x80 + (n / 4096) % 64, 0x80 + (n / 64) % 64, 0x80 + n % 64]
  }

  function Encode(s: string): seq<byte>
  {
    if s == [] then [] else EncodeChar(s[0]) + Encode(s[1..])
  }

  predicate IsContinuation(x: byte) {
    0x80 <= x <= 0xBF
  }

  predicate IsScalar(n: int) {
    0 <= n < 0xD800 || 0xE000 <= n < 0x11_0000
  }

  /** Decodes the first character of `b` and says how many bytes it took. */
  function DecodeOne(b: seq<byte>): (r: (nat, char))
    requires |b| > 0
    ensures 1 <= r.0 <= |b|
  {
    var x: int := b[0];
    if x < 0x80 then (1, x as char)
    else if 0xC2 <= x <= 0xDF then
      if |b| > 1 && IsContinuation(b[1]) then (2, ((x - 0xC0) * 64 + (b[1] as int - 0x80)) as char)
      else (1, Replacement)
    else if 0xE0 <= x <= 0xEF then
      var lo: byte := if x == 0xE0 then 0xA0 else 0x80;
      var hi: byte := if x == 0xED then 0x9F else 0xBF;
      if |b| > 1 && lo <= b[1] <= hi then
        if |b| > 2 && IsContinuation(b[2]) then
          var n := (x - 0xE0) * 4096 + (b[1] as int - 0x80) * 64 + (b[2] as int - 0x80);
          (3, n as char)
        else (2, Replacement)
      else (1, Replacement)
    else if 0xF0 <= x <= 0xF4 then
      var lo: byte := if x == 0xF0 then 0x90 else 0x80;
      var hi: byte := if x == 0xF4 then 0x8F else 0xBF;
      if |b| > 1 && lo <= b[1] <= hi then
        if |b| > 2 && IsContinuation(b[2]) then
          if |b| > 3 && IsContinuation(b[3]) then
            var n := (x - 0xF0) * 262144 + (b[1] as int - 0x80) * 4096 + (b[2] as int - 0x80) * 64 + (b[3] as int - 0x80);
            (4, n as char)
          else (3, Replacement)
        else (2, Replacement)
      else (1, Replacement)
    else (1, Replacement)
  }

  function Decode(b: seq<byte>): (s: string)
    ensures |s| <= |b|
    decreases |b|
  {
    if b == [] then []
    else
      var r := DecodeOne(b);
      [r.1] + Decode(b[r.0..])
  }

  lemma TwoByteForm(n: int)
    requires 0x80 <= n < 0x800
    ensures 0xC2 <= 0xC0 + n / 64 <= 0xDF && 0 <= n % 64 < 64
    ensures (n / 64) * 64 + n % 64 == n
  {
  }

  lemma ThreeByteForm(n: int)
    requires 0x800 <= n < 0x1_0000 && IsScalar(n)
    ensures var b0, b1 := 0xE0 + n / 4096, 0x80 + (n / 64) % 64;
      && 0xE0 <= b0 <= 0xEF
      && (if b0 == 0xE0 then 0xA0 else 0x80) <= b1 <= (if b0 == 0xED then 0x9F else 0xBF)
    ensures (n / 4096) * 4096 + ((n / 64) % 64) * 64 + n % 64 == n
  {
    var q := n / 64;
    assert n == q * 64 + n % 64;
    assert q == (n / 4096) * 64 + q % 64;
  }

  lemma FourByteForm(n: int)
    requires 0x1_0000 <= n < 0x11_0000
    ensures var b0, b1 := 0xF0 + n / 262144, 0x80 + (n / 4096) % 64;
      && 0xF0 <= b0 <= 0xF4
      && (if b0 == 0xF0 then 0x90 else 0x80) <= b1 <= (if b0 == 0xF4 then 0x8F else 0xBF)
    ensures (n / 262144) * 262144 + ((n / 4096) % 64) * 4096 + ((n / 64) % 64) * 64 + n % 64 == n
  {
    var q := n / 64;
    var q2 := n / 4096;
    assert n == q * 64 + n % 64;
    assert q == q2 * 64 + q % 64;
    assert q2 == (n / 262144) * 64 + q2 % 64;
  }

  /** One encoded character decodes back to itself, whatever bytes follow it. */
  lemma DecodeOneEncodeChar(c: char, rest: seq<byte>)
    ensures DecodeOne(EncodeChar(c) + rest) == (|EncodeChar(c)|, c)
  {
    var n := c as int;
    if 0x80 <= n < 0x800 {
      TwoByteForm(n);
    } else if 0x800 <= n < 0x1_0000 {
      ThreeByteForm(n);
    } else if 0x1_0000 <= n {
      FourByteForm(n);
    }
  }

  /** Bytes produced by encoding a string decode back to exactly that string. */
  lemma {:induction false} DecodeEncode(s: string)
    ensures Decode(Encode(s)) == s
  {
    if s != [] {
      var e := EncodeChar(s[0]);
      var tail := Encode(s[1..]);
      DecodeOneEncodeChar(s[0], tail);
      assert (e + tail)[|e|..] == tail;
      DecodeEncode(s[1..]);
    }
  }
}
