/**
 * The stored password format of the auth service: the hex of the scrypt key derived from the
 * password and a random salt, a ".", then the salt (itself 8 random bytes in hex).
 * scrypt (RFC 7914) is a parameter: any deterministic function from password and salt to a
 * 64-byte key.
 */
module Password {
  import opened Wrappers
  import opened Utf8

  /** A derived key of the length both calls ask scrypt for. */
  const KeyLength: nat := 64
  type DerivedKey = s: seq<byte> | |s| == KeyLength witness seq(KeyLength, _ => 0)

  /** scrypt with the key length fixed at 64 bytes. */
  type Scrypt = (string, string) -> DerivedKey

  /** The number of random bytes a salt is made of. */
  const SaltLength: nat := 8

  const Separator: char := '.'

  predicate IsHexDigit(c: char) {
    ('0' <= c <= '9') || ('a' <= c <= 'f')
  }

  /** A lowercase hexadecimal digit. */
  function HexDigit(n: nat): (c: char)
    requires n < 16
    ensures IsHexDigit(c) && c != Separator
  {
    if n < 10 then (48 + n) as char else (97 + n - 10) as char
  }

  /** `Buffer.toString('hex')`: two lowercase digits per byte, high nibble first. */
  function Hex(b: seq<byte>): (h: string)
    ensures |h| == 2 * |b|
    ensures forall i :: 0 <= i < |h| ==> IsHexDigit(h[i])
  {
    if b == [] then []
    else [HexDigit(b[0] / 16), HexDigit(b[0] % 16)] + Hex(b[1..])
  }

  lemma HexDigitInjective(m: nat, n: nat)
    requires m < 16 && n < 16 && HexDigit(m) == HexDigit(n)
    ensures m == n
  {
  }

  /** Different bytes give different hex text. */
  lemma {:induction false} HexInjective(a: seq<byte>, b: seq<byte>)
    requires Hex(a) == Hex(b)
    ensures a == b
  {
    if a != [] {
      assert |b| == |a|;
      var ha, hb := Hex(a), Hex(b);
      assert ha[0] == hb[0] && ha[1] == hb[1];
      HexDigitInjective(a[0] / 16, b[0] / 16);
      HexDigitInjective(a[0] % 16, b[0] % 16);
      assert a[0] == b[0];
      assert Hex(a[1..]) == ha[2..] == hb[2..] == Hex(b[1..]);
      HexInjective(a[1..], b[1..]);
      assert a == [a[0]] + a[1..];
      assert b == [b[0]] + b[1..];
    }
  }

  /** `String.prototype.split` with a one-character separator: always at least one part. */
  function Split(s: string, sep: char): (parts: seq<string>)
    ensures |parts| >= 1
    ensures forall i :: 0 <= i < |parts| ==> sep !in parts[i]
  {
    if s == [] then [""]
    else
      var rest := Split(s[1..], sep);
      if s[0] == sep then [""] + rest
      else [[s[0]] + rest[0]] + rest[1..]
  }

  /** Joining parts back with the separator. */
  function Join(parts: seq<string>, sep: char): string
    requires |parts| >= 1
  {
    if |parts| == 1 then parts[0] else parts[0] + [sep] + Join(parts[1..], sep)
  }

  /** Splitting loses nothing: joining the parts gives back the text. */
  lemma {:induction false} JoinSplit(s: string, sep: char)
    ensures Join(Split(s, sep), sep) == s
  {
    if s != [] {
      JoinSplit(s[1..], sep);
      var rest := Split(s[1..], sep);
      if s[0] == sep {
        assert Split(s, sep)[1..] == rest;
        assert s == [sep] + s[1..];
      } else {
        var parts := Split(s, sep);
        assert parts[0] == [s[0]] + rest[0];
        if |rest| == 1 {
          assert s == [s[0]] + rest[0];
        } else {
          assert parts[1..] == rest[1..];
          assert s == [s[0]] + (rest[0] + [sep] + Join(rest[1..], sep));
        }
      }
    }
  }

  /** Text without the separator is a single part. */
  lemma {:induction false} SplitWithoutSeparator(s: string, sep: char)
    requires sep !in s
    ensures Split(s, sep) == [s]
  {
    if s != [] {
      SplitWithoutSeparator(s[1..], sep);
      assert [s[0]] + s[1..] == s;
    }
  }

  /** The first separator ends the first part. */
  lemma {:induction false} SplitAtFirstSeparator(a: string, b: string, sep: char)
    requires sep !in a
    ensures Split(a + [sep] + b, sep) == [a] + Split(b, sep)
  {
    if a == [] {
      assert [sep] + b == a + [sep] + b;
      assert ([sep] + b)[1..] == b;
    } else {
      var s := a + [sep] + b;
      assert s[0] == a[0] && s[1..] == a[1..] + [sep] + b;
      SplitAtFirstSeparator(a[1..], b, sep);
      assert [a[0]] + a[1..] == a;
    }
  }

  /**
   * `Password.toHash`: the hex key derived from the password and the hex salt, a ".", and
   * the hex salt. The random salt bytes are a parameter.
   */
  function ToHash(password: string, saltBytes: seq<byte>, scrypt: Scrypt): (stored: string)
    requires |saltBytes| == SaltLength
    ensures |stored| == 2 * KeyLength + 1 + 2 * SaltLength
    ensures stored[2 * KeyLength] == Separator
    ensures stored[..2 * KeyLength] == Hex(scrypt(password, Hex(saltBytes)))
    ensures stored[2 * KeyLength + 1..] == Hex(saltBytes)
  {
    var salt := Hex(saltBytes);
    Hex(scrypt(password, salt)) + [Separator] + salt
  }

  /**
   * `Password.compare`: split the stored text on ".", derive a key from the supplied password
   * and the second part, and compare its hex with the first part. Stored text without a "."
   * leaves the salt undefined, and scrypt then throws.
   */
  function Compare(stored: string, supplied: string, scrypt: Scrypt): (r: Result<bool, string>)
    ensures r.Failure? <==> Separator !in stored
    ensures r.Success? ==>
      var parts := Split(stored, Separator);
      |parts| >= 2 && (r.value <==> Hex(scrypt(supplied, parts[1])) == parts[0])
  {
    var parts := Split(stored, Separator);
    if |parts| < 2 then
      assert Join(parts, Separator) == stored by { JoinSplit(stored, Separator); }
      Failure("The \"salt\" argument must be of type string")
    else
      assert Separator in stored by { SeparatorInJoin(parts, Separator); JoinSplit(stored, Separator); }
      Success(Hex(scrypt(supplied, parts[1])) == parts[0])
  }

  lemma SeparatorInJoin(parts: seq<string>, sep: char)
    requires |parts| >= 2
    ensures sep in Join(parts, sep)
  {
    assert Join(parts, sep)[|parts[0]|] == sep;
  }

  /** What `compare` splits back out of stored text is exactly what `toHash` joined. */
  lemma SplitToHash(password: string, saltBytes: seq<byte>, scrypt: Scrypt)
    requires |saltBytes| == SaltLength
    ensures Split(ToHash(password, saltBytes, scrypt), Separator)
         == [Hex(scrypt(password, Hex(saltBytes))), Hex(saltBytes)]
  {
    var key, salt := Hex(scrypt(password, Hex(saltBytes))), Hex(saltBytes);
    SplitAtFirstSeparator(key, salt, Separator);
    SplitWithoutSeparator(salt, Separator);
  }

  /** A stored password matches the password it was made from. */
  lemma CompareToHash(password: string, saltBytes: seq<byte>, scrypt: Scrypt)
    requires |saltBytes| == SaltLength
    ensures Compare(ToHash(password, saltBytes, scrypt), password, scrypt) == Success(true)
  {
    SplitToHash(password, saltBytes, scrypt);
  }

  /** A supplied password matches exactly when scrypt gives it the same key under the stored salt. */
  lemma CompareIff(password: string, supplied: string, saltBytes: seq<byte>, scrypt: Scrypt)
    requires |saltBytes| == SaltLength
    ensures var salt := Hex(saltBytes);
      Compare(ToHash(password, saltBytes, scrypt), supplied, scrypt)
        == Success(scrypt(supplied, salt) == scrypt(password, salt))
  {
    SplitToHash(password, saltBytes, scrypt);
    var salt := Hex(saltBytes);
    if Hex(scrypt(supplied, salt)) == Hex(scrypt(password, salt)) {
      HexInjective(scrypt(supplied, salt), scrypt(password, salt));
    }
  }
}
