/**
 * Byte-level building blocks the lottery core relies on: the byte type,
 * SHA-256 and HMAC-SHA256 as supplied functions, and the Python built-ins the
 * core uses on them (`str.encode()`, `hexdigest()`, `int.to_bytes(4, 'big')`
 * and `str(int)`).
 */
module Primitives {
  import opened Wrappers

  type byte = b: int | 0 <= b < 256

  /** A SHA-256 or HMAC-SHA256 output: always 32 bytes. */
  type Digest = d: seq<byte> | |d| == 32 witness seq(32, _ => 0)

  /**
   * SHA-256 (FIPS 180-4) and HMAC-SHA256 (RFC 2104) are not modelled: they are
   * arbitrary total functions whose only known property is their output length.
   * `hmacSha256(key, message)` follows the argument order of `hmac.new`.
   */
  datatype CryptoSuite = CryptoSuite(
    sha256: seq<byte> -> Digest,
    hmacSha256: (seq<byte>, seq<byte>) -> Digest)

  // ---------------------------------------------------------------------
  // UTF-8 (str.encode())
  // ---------------------------------------------------------------------

  /** The UTF-8 encoding of one Unicode scalar value. */
  function Utf8Char(c: char): (r: seq<byte>)
    ensures 1 <= |r| <= 4
    ensures |r| == 1 <==> c as int < 0x80
    ensures |r| == 1 ==> r[0] == c as int
  {
    var n := c as int;
    if n < 0x80 then [n]
    else if n < 0x800 then [0xC0 + n / 0x40, 0x80 + n % 0x40]
    else if n < 0x1_0000 then [0xE0 + n / 0x1000, 0x80 + n / 0x40 % 0x40, 0x80 + n % 0x40]
    else [0xF0 + n / 0x4_0000, 0x80 + n / 0x1000 % 0x40, 0x80 + n / 0x40 % 0x40, 0x80 + n % 0x40]
  }

  /** `s.encode()`: the UTF-8 bytes of a string. */
  function Utf8(s: string): (r: seq<byte>)
    ensures |s| <= |r| <= 4 * |s|
  {
    if s == [] then [] else Utf8Char(s[0]) + Utf8(s[1..])
  }

  /** Encoding is a homomorphism: encoding a concatenation concatenates the encodings. */
  lemma {:induction false} Utf8Append(a: string, b: string)
    ensures Utf8(a + b) == Utf8(a) + Utf8(b)
  {
    if a == [] {
      assert a + b == b;
    } else {
      assert (a + b)[0] == a[0];
      assert (a + b)[1..] == a[1..] + b;
      Utf8Append(a[1..], b);
    }
  }

  // ---------------------------------------------------------------------
  // Lower-case hexadecimal (hexdigest(), secrets.token_hex())
  // ---------------------------------------------------------------------

  /** The lower-case hex character of a nibble. */
  function HexDigit(k: int): (c: char)
    requires 0 <= k < 16
  {
    if k < 10 then ('0' as int + k) as char else ('a' as int + k - 10) as char
  }

  /** The nibble a lower-case hex character stands for, if it is one. */
  function HexValue(c: char): (v: Option<int>)
    ensures v.Some? ==> 0 <= v.value < 16
  {
    if '0' <= c <= '9' then Some(c as int - '0' as int)
    else if 'a' <= c <= 'f' then Some(c as int - 'a' as int + 10)
    else None
  }

  /** Two hex characters per byte, high nibble first. */
  function Hex(d: seq<byte>): (h: string)
    ensures |h| == 2 * |d|
  {
    if d == [] then "" else [HexDigit(d[0] / 16), HexDigit(d[0] % 16)] + Hex(d[1..])
  }

  /** Parses lower-case hex back into bytes; None for odd length or a non-hex character. */
  function Unhex(h: string): (r: Option<seq<byte>>)
    ensures r.Some? ==> 2 * |r.value| == |h|
  {
    if h == [] then Some([])
    else if |h| == 1 then None
    else
      match (HexValue(h[0]), HexValue(h[1]), Unhex(h[2..]))
      case (Some(hi), Some(lo), Some(rest)) => Some([hi * 16 + lo] + rest)
      case _ => None
  }

  /** Hex encoding loses nothing: parsing it gives the bytes back. */
  lemma {:induction false} UnhexHex(d: seq<byte>)
    ensures Unhex(Hex(d)) == Some(d)
  {
    if d != [] {
      var h := Hex(d);
      assert h[2..] == Hex(d[1..]);
      assert HexValue(h[0]) == Some(d[0] / 16);
      assert HexValue(h[1]) == Some(d[0] % 16);
      UnhexHex(d[1..]);
      assert [d[0] / 16 * 16 + d[0] % 16] + d[1..] == d;
    }
  }

  /** Two byte strings with the same hex digest text are equal. */
  lemma {:induction false} HexInjective(a: seq<byte>, b: seq<byte>)
    requires Hex(a) == Hex(b)
    ensures a == b
  {
    UnhexHex(a);
    UnhexHex(b);
  }

  /** `hashlib.sha256(seed.encode()).hexdigest()`: the published commitment to a seed. */
  function Commitment(crypto: CryptoSuite, seed: string): (c: string)
    ensures |c| == 64
  {
    Hex(crypto.sha256(Utf8(seed)))
  }

  /** Equal commitment texts mean equal SHA-256 digests of the encoded seeds. */
  lemma CommitmentsEqualIffDigestsEqual(crypto: CryptoSuite, s: string, t: string)
    ensures Commitment(crypto, s) == Commitment(crypto, t)
        <==> crypto.sha256(Utf8(s)) == crypto.sha256(Utf8(t))
  {
    if Commitment(crypto, s) == Commitment(crypto, t) {
      HexInjective(crypto.sha256(Utf8(s)), crypto.sha256(Utf8(t)));
    }
  }

  // ---------------------------------------------------------------------
  // int.to_bytes(4, 'big')
  // ---------------------------------------------------------------------

  /** `to_bytes(4, 'big')` raises OverflowError from this value on. */
  const CounterLimit: nat := 0x1_0000_0000

  /** The 4-byte big-endian encoding of a counter below 2^32. */
  function BigEndian4(n: nat): (r: seq<byte>)
    requires n < CounterLimit
    ensures |r| == 4
  {
    [n / 0x100_0000, n / 0x1_0000 % 0x100, n / 0x100 % 0x100, n % 0x100]
  }

  /** Reads four big-endian bytes back as a number. */
  function FromBigEndian4(r: seq<byte>): nat
    requires |r| == 4
  {
    var b0: int, b1: int, b2: int, b3: int := r[0], r[1], r[2], r[3];
    ((b0 * 0x100 + b1) * 0x100 + b2) * 0x100 + b3
  }

  /** The counter encoding is invertible, so distinct counters give distinct HMAC messages. */
  lemma BigEndian4RoundTrip(n: nat)
    requires n < CounterLimit
    ensures FromBigEndian4(BigEndian4(n)) == n
  {
    var q1 := n / 0x100;
    var q2 := q1 / 0x100;
    var q3 := q2 / 0x100;
    assert n == q1 * 0x100 + n % 0x100;
    assert q1 == q2 * 0x100 + q1 % 0x100;
    assert q2 == q3 * 0x100 + q2 % 0x100;
    assert n / 0x1_0000 == q2;
    assert n / 0x100_0000 == q3;
    assert q3 < 0x100;
  }

  // ---------------------------------------------------------------------
  // str(int)
  // ---------------------------------------------------------------------

  function DecimalDigit(k: int): (c: char)
    requires 0 <= k < 10
    ensures '0' <= c <= '9'
  {
    ('0' as int + k) as char
  }

  /** Decimal text of a natural number, without leading zeros. */
  function NatToString(n: nat): (s: string)
    ensures |s| >= 1
    ensures forall i :: 0 <= i < |s| ==> '0' <= s[i] <= '9'
  {
    if n < 10 then [DecimalDigit(n)] else NatToString(n / 10) + [DecimalDigit(n % 10)]
  }

  /** `str(i)`: decimal text with a leading '-' for negative numbers. */
  function IntToString(i: int): (s: string)
    ensures |s| >= 1
    ensures forall k :: 0 <= k < |s| ==> s[k] == '-' || '0' <= s[k] <= '9'
    ensures s[0] == '-' <==> i < 0
  {
    if i < 0 then "-" + NatToString(-i) else NatToString(i)
  }

  /** Distinct numbers have distinct decimal texts. */
  lemma {:induction false} NatToStringInjective(a: nat, b: nat)
    requires NatToString(a) == NatToString(b)
    ensures a == b
  {
    var s := NatToString(a);
    if a >= 10 && b >= 10 {
      var sa, sb := NatToString(a / 10), NatToString(b / 10);
      assert s == sa + [DecimalDigit(a % 10)] == sb + [DecimalDigit(b % 10)];
      assert sa == s[..|s| - 1] == sb;
      assert DecimalDigit(a % 10) == s[|s| - 1] == DecimalDigit(b % 10);
      NatToStringInjective(a / 10, b / 10);
    }
  }

  /** Distinct integers have distinct decimal texts. */
  lemma IntToStringInjective(a: int, b: int)
    requires IntToString(a) == IntToString(b)
    ensures a == b
  {
    var s := IntToString(a);
    if a < 0 && b < 0 {
      assert s[1..] == NatToString(-a) == NatToString(-b);
      NatToStringInjective(-a, -b);
    } else if 0 <= a && 0 <= b {
      NatToStringInjective(a, b);
    }
  }
}
