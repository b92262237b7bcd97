/**
 * Unbiased digit extraction (src/utils/convert.py).
 *
 * A byte is accepted only when it is below 250; an accepted byte contributes
 * its value mod 10. Because 250 is a multiple of 10, every decimal digit is
 * equally likely for a uniform byte. When the input runs out,
 * `bytes_to_digits_unbiased` replaces it by the SHA-256 digest of the block it
 * just finished and scans that from index 0, so the bytes it sees are the hash
 * chain data, sha(data), sha(sha(data)), ...
 */
module Convert {
  import opened Primitives

  /** Only bytes below this bound are accepted: 250 is the largest multiple of 10 that fits in a byte. */
  const AcceptBound := 250

  /** The digit one byte contributes: its value mod 10 if accepted, nothing otherwise. */
  function DigitOf(b: byte): (ds: seq<int>)
    ensures |ds| <= 1
  {
    if b < AcceptBound then [b % 10] else []
  }

  /** The digits a scan of `s` produces, in scanning order. */
  function AcceptedDigits(s: seq<byte>): (ds: seq<int>)
    ensures |ds| <= |s|
  {
    if s == [] then [] else AcceptedDigits(s[..|s| - 1]) + DigitOf(s[|s| - 1])
  }

  /** Every digit a scan produces is a decimal digit. */
  lemma {:induction false} AcceptedDigitsRange(s: seq<byte>)
    ensures forall i :: 0 <= i < |AcceptedDigits(s)| ==> 0 <= AcceptedDigits(s)[i] <= 9
  {
    if s != [] {
      AcceptedDigitsRange(s[..|s| - 1]);
    }
  }

  /** Scanning one more byte appends that byte's digit, if any. */
  lemma AcceptedDigitsSnoc(s: seq<byte>, b: byte)
    ensures AcceptedDigits(s + [b]) == AcceptedDigits(s) + DigitOf(b)
  {
    assert (s + [b])[..|s|] == s;
  }

  /** The digits of the first i + 1 bytes: those of the first i, then byte i's. */
  lemma AcceptedDigitsPrefixStep(s: seq<byte>, i: int)
    requires 0 <= i < |s|
    ensures AcceptedDigits(s[..i + 1]) == AcceptedDigits(s[..i]) + DigitOf(s[i])
  {
    assert s[..i + 1][..i] == s[..i];
  }

  /** Scanning two pieces one after the other gives the digits of each, in order. */
  lemma {:induction false} AcceptedDigitsAppend(a: seq<byte>, b: seq<byte>)
    ensures AcceptedDigits(a + b) == AcceptedDigits(a) + AcceptedDigits(b)
  {
    if b != [] {
      var b', last := b[..|b| - 1], b[|b| - 1];
      assert b == b' + [last];
      assert a + b == (a + b') + [last];
      calc {
        AcceptedDigits(a + b);
        { AcceptedDigitsSnoc(a + b', last); }
        AcceptedDigits(a + b') + DigitOf(last);
        { AcceptedDigitsAppend(a, b'); }
        AcceptedDigits(a) + AcceptedDigits(b') + DigitOf(last);
        { AcceptedDigitsSnoc(b', last); }
        AcceptedDigits(a) + AcceptedDigits(b);
      }
    } else {
      assert a + b == a;
    }
  }

  /** Scanning further only extends the digits already produced. */
  lemma AcceptedDigitsPrefix(a: seq<byte>, b: seq<byte>)
    requires a <= b
    ensures AcceptedDigits(a) <= AcceptedDigits(b)
  {
    assert b == a + b[|a|..];
    AcceptedDigitsAppend(a, b[|a|..]);
  }

  /**
   * Order preservation: the byte at position i, if accepted, contributes
   * `s[i] % 10` right after the digits of the bytes before it; a rejected byte
   * contributes nothing.
   */
  lemma AcceptedDigitsAt(s: seq<byte>, i: int)
    requires 0 <= i < |s|
    ensures s[i] < 250 ==> var k := |AcceptedDigits(s[..i])|;
      k < |AcceptedDigits(s)| && AcceptedDigits(s)[k] == s[i] % 10
    ensures s[i] >= 250 ==> AcceptedDigits(s[..i + 1]) == AcceptedDigits(s[..i])
  {
    AcceptedDigitsPrefixStep(s, i);
    AcceptedDigitsPrefix(s[..i + 1], s);
  }

  /** Block k of the hash chain: the input itself, then SHA-256 of the previous block. */
  function Block(sha: seq<byte> -> Digest, data: seq<byte>, k: nat): (b: seq<byte>)
    ensures k > 0 ==> |b| == 32
  {
    if k == 0 then data else sha(Block(sha, data, k - 1))
  }

  /** The first k blocks of the hash chain, in the order they are scanned. */
  function Chain(sha: seq<byte> -> Digest, data: seq<byte>, k: nat): seq<byte>
  {
    if k == 0 then [] else Chain(sha, data, k - 1) + Block(sha, data, k - 1)
  }

  /** A shorter chain is a prefix of a longer one. */
  lemma {:induction false} ChainPrefix(sha: seq<byte> -> Digest, data: seq<byte>, j: nat, k: nat)
    requires j <= k
    ensures Chain(sha, data, j) <= Chain(sha, data, k)
  {
    if j < k {
      ChainPrefix(sha, data, j, k - 1);
    }
  }

  /** The hash chain eventually holds `n` accepted bytes, so the scan stops. */
  ghost predicate Enough(sha: seq<byte> -> Digest, data: seq<byte>, n: int)
  {
    exists k: nat :: n <= |AcceptedDigits(Chain(sha, data, k))|
  }

  function Clamp(n: int): nat
  {
    if n < 0 then 0 else n
  }

  /**
   * What `bytes_to_digits_unbiased(data, n)` returns: the first n digits the
   * hash chain yields (none for n <= 0).
   */
  ghost function UnbiasedDigits(sha: seq<byte> -> Digest, data: seq<byte>, n: int): (ds: seq<int>)
    requires Enough(sha, data, n)
    ensures |ds| == Clamp(n)
    ensures forall i :: 0 <= i < |ds| ==> 0 <= ds[i] <= 9
  {
    var k: nat :| n <= |AcceptedDigits(Chain(sha, data, k))|;
    AcceptedDigitsRange(Chain(sha, data, k));
    AcceptedDigits(Chain(sha, data, k))[..Clamp(n)]
  }

  /**
   * Determinism: any number of chain blocks that holds enough accepted bytes
   * gives the same first n digits, so the result depends on (data, n) alone.
   */
  lemma UnbiasedDigitsAnyLength(sha: seq<byte> -> Digest, data: seq<byte>, n: int, k: nat)
    requires n <= |AcceptedDigits(Chain(sha, data, k))|
    ensures Enough(sha, data, n)
    ensures UnbiasedDigits(sha, data, n) == AcceptedDigits(Chain(sha, data, k))[..Clamp(n)]
  {
    var j: nat :| n <= |AcceptedDigits(Chain(sha, data, j))| && UnbiasedDigits(sha, data, n) == AcceptedDigits(Chain(sha, data, j))[..Clamp(n)];
    if j <= k {
      ChainPrefix(sha, data, j, k);
      AcceptedDigitsPrefix(Chain(sha, data, j), Chain(sha, data, k));
    } else {
      ChainPrefix(sha, data, k, j);
      AcceptedDigitsPrefix(Chain(sha, data, k), Chain(sha, data, j));
    }
  }

  /**
   * When the input itself holds n accepted bytes, no hashing happens: the
   * result is the first n accepted input bytes mod 10, whatever SHA-256 is.
   */
  lemma NoHashingWhenInputSuffices(sha: seq<byte> -> Digest, data: seq<byte>, n: int)
    requires n <= |AcceptedDigits(data)|
    ensures Enough(sha, data, n)
    ensures UnbiasedDigits(sha, data, n) == AcceptedDigits(data)[..Clamp(n)]
  {
    assert Chain(sha, data, 1) == data;
    UnbiasedDigitsAnyLength(sha, data, n, 1);
  }

  /** Appending an accepted byte followed by a rejected one adds one digit. */
  lemma AcceptedDigitsPair(p: seq<byte>, x: byte, y: byte)
    requires x < AcceptBound <= y
    ensures AcceptedDigits(p + [x, y]) == AcceptedDigits(p) + [x % 10]
  {
    AcceptedDigitsSnoc(p, x);
    AcceptedDigitsSnoc(p + [x], y);
    assert p + [x] + [y] == p + [x, y];
  }

  /** The accepted digits of the rejection example's bytes, after any prefix that yields none. */
  lemma RejectionExampleAfter(p: seq<byte>)
    requires AcceptedDigits(p) == []
    ensures AcceptedDigits(p + [1, 251] + [2, 252] + [3, 253] + [4, 254] + [5, 255] + [6, 0]) == [1, 2, 3, 4, 5, 6, 0]
  {
    AcceptedDigitsPair(p, 1, 251);
    AcceptedDigitsPair(p + [1, 251], 2, 252);
    AcceptedDigitsPair(p + [1, 251] + [2, 252], 3, 253);
    var p3 := p + [1, 251] + [2, 252] + [3, 253];
    assert AcceptedDigits(p3) == [1, 2, 3];
    AcceptedDigitsPair(p3, 4, 254);
    AcceptedDigitsPair(p3 + [4, 254], 5, 255);
    var p5 := p3 + [4, 254] + [5, 255];
    assert AcceptedDigits(p5) == [1, 2, 3, 4, 5];
    AcceptedDigitsAppend(p5, [6, 0]);
    assert AcceptedDigits([6, 0]) == [6, 0];
  }

  /** The rejection example: [1,251,2,252,3,253,4,254,5,255,6,0] with n = 6 gives [1,2,3,4,5,6]. */
  lemma RejectionExample(sha: seq<byte> -> Digest)
    ensures Enough(sha, [1, 251, 2, 252, 3, 253, 4, 254, 5, 255, 6, 0], 6)
    ensures UnbiasedDigits(sha, [1, 251, 2, 252, 3, 253, 4, 254, 5, 255, 6, 0], 6) == [1, 2, 3, 4, 5, 6]
  {
    var data: seq<byte> := [1, 251, 2, 252, 3, 253, 4, 254, 5, 255, 6, 0];
    var none: seq<byte> := [];
    RejectionExampleAfter(none);
    assert none + [1, 251] + [2, 252] + [3, 253] + [4, 254] + [5, 255] + [6, 0] == data;
    NoHashingWhenInputSuffices(sha, data, 6);
  }

  /** The bytes scanned so far: k whole blocks, then the first `index` bytes of block k. */
  ghost function Scanned(sha: seq<byte> -> Digest, data: seq<byte>, k: nat, index: nat): seq<byte>
    requires index <= |Block(sha, data, k)|
  {
    Chain(sha, data, k) + Block(sha, data, k)[..index]
  }

  /** Everything scanned inside block k lies within the first k + 1 blocks. */
  lemma ScannedWithinChain(sha: seq<byte> -> Digest, data: seq<byte>, k: nat, index: nat, m: nat)
    requires index <= |Block(sha, data, k)| && k < m
    ensures Scanned(sha, data, k, index) <= Chain(sha, data, m)
  {
    ChainPrefix(sha, data, k + 1, m);
  }

  /** Scanning the next byte of block k. */
  lemma ScannedNext(sha: seq<byte> -> Digest, data: seq<byte>, k: nat, index: nat)
    requires index < |Block(sha, data, k)|
    ensures AcceptedDigits(Scanned(sha, data, k, index + 1))
         == AcceptedDigits(Scanned(sha, data, k, index)) + DigitOf(Block(sha, data, k)[index])
  {
    var c, b := Chain(sha, data, k), Block(sha, data, k);
    assert b[..index + 1] == b[..index] + [b[index]];
    assert c + b[..index + 1] == (c + b[..index]) + [b[index]];
    AcceptedDigitsSnoc(c + b[..index], b[index]);
  }

  /** A chain with fewer accepted bytes than another is the shorter of the two. */
  lemma ShorterChain(sha: seq<byte> -> Digest, data: seq<byte>, j: nat, k: nat)
    requires |AcceptedDigits(Chain(sha, data, j))| < |AcceptedDigits(Chain(sha, data, k))|
    ensures j < k
  {
    if k <= j {
      ChainPrefix(sha, data, k, j);
      AcceptedDigitsPrefix(Chain(sha, data, k), Chain(sha, data, j));
    }
  }

  /**
   * A block scanned to its end is the start of the next one, which is the
   * digest of the block just finished; when the digits so far are still
   * fewer than n, the witness length k lies further on.
   */
  lemma ScannedBlockEnd(sha: seq<byte> -> Digest, data: seq<byte>, block: nat, n: int, k: nat, digits: seq<int>)
    requires n <= |AcceptedDigits(Chain(sha, data, k))|
    requires digits == AcceptedDigits(Scanned(sha, data, block, |Block(sha, data, block)|))
    requires |digits| < n
    ensures digits == AcceptedDigits(Scanned(sha, data, block + 1, 0))
    ensures Block(sha, data, block + 1) == sha(Block(sha, data, block))
    ensures block + 1 < k
  {
    var c, b, c' := Chain(sha, data, block), Block(sha, data, block), Chain(sha, data, block + 1);
    assert c' == c + b;
    assert b[..|b|] == b;
    assert c' + Block(sha, data, block + 1)[..0] == c';
    ShorterChain(sha, data, block + 1, k);
  }

  /** A scan that has collected exactly Clamp(n) digits has produced the unbiased digits. */
  lemma ScanComplete(sha: seq<byte> -> Digest, data: seq<byte>, n: int, k: nat, block: nat, index: nat, digits: seq<int>)
    requires n <= |AcceptedDigits(Chain(sha, data, k))|
    requires 0 < n ==> block < k
    requires index <= |Block(sha, data, block)|
    requires digits == AcceptedDigits(Scanned(sha, data, block, index))
    requires |digits| == Clamp(n)
    ensures Enough(sha, data, n)
    ensures digits == UnbiasedDigits(sha, data, n)
  {
    UnbiasedDigitsAnyLength(sha, data, n, k);
    if 0 < n {
      ScannedWithinChain(sha, data, block, index, k);
      AcceptedDigitsPrefix(Scanned(sha, data, block, index), Chain(sha, data, k));
    }
  }

  /**
   * `bytes_to_digits_unbiased`: scan the input; whenever the current block is
   * exhausted, replace it by its SHA-256 digest and start again at index 0.
   */
  method BytesToDigitsUnbiased(sha: seq<byte> -> Digest, byteArray: seq<byte>, numDigits: int)
    returns (digits: seq<int>)
    requires Enough(sha, byteArray, numDigits)
    ensures digits == UnbiasedDigits(sha, byteArray, numDigits)
  {
    ghost var k: nat :| numDigits <= |AcceptedDigits(Chain(sha, byteArray, k))|;
    digits := [];
    var index := 0;
    var extendedData := byteArray;
    ghost var block: nat := 0;
    assert Scanned(sha, byteArray, 0, 0) == [];
    while |digits| < numDigits
      invariant extendedData == Block(sha, byteArray, block)
      invariant 0 <= index <= |extendedData|
      invariant 0 < numDigits ==> block < k
      invariant digits == AcceptedDigits(Scanned(sha, byteArray, block, index))
      invariant |digits| <= Clamp(numDigits)
      decreases k - block, |extendedData| - index
    {
      if index >= |extendedData| {
        ScannedBlockEnd(sha, byteArray, block, numDigits, k, digits);
        extendedData := sha(extendedData);
        index := 0;
        block := block + 1;
      }
      var byteVal := extendedData[index];
      ScannedNext(sha, byteArray, block, index);
      index := index + 1;
      if byteVal < 250 {
        digits := digits + [byteVal % 10];
      }
    }
    ScanComplete(sha, byteArray, numDigits, k, block, index, digits);
  }

  /** `hmac_to_digits`: the unbiased digits of HMAC-SHA256(seed, message). */
  method HmacToDigits(crypto: CryptoSuite, serverSeed: string, message: seq<byte>, numDigits: int)
    returns (digits: seq<int>)
    requires Enough(crypto.sha256, crypto.hmacSha256(Utf8(serverSeed), message), numDigits)
    ensures digits == UnbiasedDigits(crypto.sha256, crypto.hmacSha256(Utf8(serverSeed), message), numDigits)
  {
    var hmacKey := Utf8(serverSeed);
    var mac := crypto.hmacSha256(hmacKey, message);
    digits := BytesToDigitsUnbiased(crypto.sha256, mac, numDigits);
  }
}
