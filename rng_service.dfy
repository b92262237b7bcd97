/**
 * The provably-fair RNG service (src/services/rng_service.py): server seeds and
 * their commitments, the six lottery digits drawn from an HMAC-SHA256 stream,
 * recomputation for verification, the search for a seed that forces an
 * outcome, and the stored seed records with their reveal step.
 *
 * Randomness (`secrets.token_hex`) is passed in: `entropy` for one seed,
 * `candidates` for the draws of the forced-seed search. Encryption of stored
 * seeds is a supplied `Vault` whose decryption may fail.
 */
module RngService {
  import opened Wrappers
  import opened Primitives
  import opened Convert
  import opened Models

  /** Every round draws six digits. */
  const DigitCount := 6

  /** `to_bytes(4, 'big')` overflows before six digits were found. */
  datatype RngError = CounterOverflow

  // ---------------------------------------------------------------------
  // The HMAC stream
  // ---------------------------------------------------------------------

  /**
   * The HMAC message: the round id's bytes, followed by the client seed's
   * bytes when one is given and non-empty.
   */
  function Message(roundId: string, clientSeed: Option<string>): (m: seq<byte>)
    ensures clientSeed.Some? ==> m == Utf8(roundId + clientSeed.value)
    ensures clientSeed.None? ==> m == Utf8(roundId)
  {
    var client := if clientSeed.Some? then clientSeed.value else "";
    Utf8Append(roundId, client);
    assert roundId + "" == roundId;
    if clientSeed.Some? && clientSeed.value != "" then Utf8(roundId) + Utf8(clientSeed.value) else Utf8(roundId)
  }

  /** MAC number `counter`: HMAC-SHA256 keyed by the seed over message ‖ BE4(counter). */
  function MacBlock(crypto: CryptoSuite, key: seq<byte>, message: seq<byte>, counter: nat): Digest
    requires counter < CounterLimit
  {
    crypto.hmacSha256(key, message + BigEndian4(counter))
  }

  /** The bytes of the first n MACs, in the order they are scanned. */
  function MacStream(crypto: CryptoSuite, key: seq<byte>, message: seq<byte>, n: nat): (s: seq<byte>)
    requires n <= CounterLimit
    ensures |s| == 32 * n
  {
    if n == 0 then [] else MacStream(crypto, key, message, n - 1) + MacBlock(crypto, key, message, n - 1)
  }

  /** A shorter stream is a prefix of a longer one. */
  lemma {:induction false} MacStreamPrefix(crypto: CryptoSuite, key: seq<byte>, message: seq<byte>, i: nat, j: nat)
    requires i <= j <= CounterLimit
    ensures MacStream(crypto, key, message, i) <= MacStream(crypto, key, message, j)
  {
    if i < j {
      MacStreamPrefix(crypto, key, message, i, j - 1);
    }
  }

  /** The first six digits of a digit sequence, or the overflow error when it has fewer. */
  function FirstSix(ds: seq<int>): (r: Result<seq<int>, RngError>)
    ensures r.Ok? <==> |ds| >= DigitCount
    ensures r.Ok? ==> r.value <= ds && |r.value| == DigitCount
  {
    if |ds| >= DigitCount then Ok(ds[..DigitCount]) else Err(CounterOverflow)
  }

  /**
   * The digits a MAC stream yields: the first six accepted bytes (mod 10) over
   * every counter value that fits in four bytes; when even that stream holds
   * fewer, encoding the next counter raises the overflow error.
   */
  function StreamDigits(crypto: CryptoSuite, key: seq<byte>, message: seq<byte>): (r: Result<seq<int>, RngError>)
    ensures r.Ok? ==> |r.value| == DigitCount
    ensures r.Ok? ==> forall i :: 0 <= i < |r.value| ==> 0 <= r.value[i] <= 9
  {
    var stream := MacStream(crypto, key, message, CounterLimit);
    AcceptedDigitsRange(stream);
    FirstSix(AcceptedDigits(stream))
  }

  /** What `compute_digits(seed, round_id, client_seed)` yields: the digits of the stream keyed by the seed. */
  function RoundDigits(crypto: CryptoSuite, serverSeed: string, roundId: string, clientSeed: Option<string>)
    : (r: Result<seq<int>, RngError>)
    ensures r.Ok? ==> |r.value| == DigitCount
    ensures r.Ok? ==> forall i :: 0 <= i < |r.value| ==> 0 <= r.value[i] <= 9
  {
    StreamDigits(crypto, Utf8(serverSeed), Message(roundId, clientSeed))
  }

  /**
   * Only the MACs up to the one holding the sixth accepted byte matter: once
   * the first c MACs hold six accepted bytes, the digits are their first six.
   */
  lemma StreamDigitsDecidedEarly(crypto: CryptoSuite, key: seq<byte>, message: seq<byte>, c: nat)
    requires c <= CounterLimit
    requires |AcceptedDigits(MacStream(crypto, key, message, c))| >= DigitCount
    ensures StreamDigits(crypto, key, message) == Ok(AcceptedDigits(MacStream(crypto, key, message, c))[..DigitCount])
  {
    var early, full := MacStream(crypto, key, message, c), MacStream(crypto, key, message, CounterLimit);
    MacStreamPrefix(crypto, key, message, c, CounterLimit);
    AcceptedDigitsPrefix(early, full);
    var ds, fs := AcceptedDigits(early), AcceptedDigits(full);
    assert ds[..DigitCount] == fs[..DigitCount];
  }

  /** An absent client seed and an empty one give the same digits. */
  lemma EmptyClientSeedIsNoClientSeed(crypto: CryptoSuite, serverSeed: string, roundId: string)
    ensures RoundDigits(crypto, serverSeed, roundId, Some("")) == RoundDigits(crypto, serverSeed, roundId, None)
  {
    assert Message(roundId, Some("")) == Message(roundId, None);
  }

  /** The digits collected so far, never more than six. */
  function Capped(ds: seq<int>): (r: seq<int>)
    ensures r <= ds && |r| <= DigitCount
    ensures |ds| <= DigitCount ==> r == ds
    ensures |ds| >= DigitCount ==> |r| == DigitCount
  {
    if |ds| <= DigitCount then ds else ds[..DigitCount]
  }

  /** Once six digits are collected, further digits change nothing. */
  lemma CappedFull(ds: seq<int>, more: seq<int>)
    requires |ds| >= DigitCount
    ensures Capped(ds + more) == Capped(ds)
  {
    assert (ds + more)[..DigitCount] == ds[..DigitCount];
  }

  /** Capping before or after appending more digits gives the same six. */
  lemma CappedAppend(ds: seq<int>, more: seq<int>)
    ensures Capped(Capped(ds) + more) == Capped(ds + more)
  {
    if |ds| >= DigitCount {
      CappedFull(ds, more);
      CappedFull(Capped(ds), more);
    }
  }

  /** One byte of the inner scan while fewer than six digits are held. */
  lemma ScanByte(mac: seq<byte>, digitsIn: seq<int>, i: nat)
    requires i < |mac|
    requires |digitsIn + AcceptedDigits(mac[..i])| < DigitCount
    ensures Capped(digitsIn + AcceptedDigits(mac[..i + 1]))
         == Capped(digitsIn + AcceptedDigits(mac[..i])) + DigitOf(mac[i])
  {
    AcceptedDigitsPrefixStep(mac, i);
    assert digitsIn + AcceptedDigits(mac[..i + 1]) == (digitsIn + AcceptedDigits(mac[..i])) + DigitOf(mac[i]);
  }

  /** Leaving the inner scan early, with six digits held, loses nothing. */
  lemma ScanStopsEarly(mac: seq<byte>, digitsIn: seq<int>, i: nat)
    requires i <= |mac|
    requires |digitsIn + AcceptedDigits(mac[..i])| >= DigitCount
    ensures Capped(digitsIn + AcceptedDigits(mac)) == Capped(digitsIn + AcceptedDigits(mac[..i]))
  {
    assert mac == mac[..i] + mac[i..];
    AcceptedDigitsAppend(mac[..i], mac[i..]);
    assert digitsIn + AcceptedDigits(mac) == (digitsIn + AcceptedDigits(mac[..i])) + AcceptedDigits(mac[i..]);
    CappedFull(digitsIn + AcceptedDigits(mac[..i]), AcceptedDigits(mac[i..]));
  }

  /**
   * The inner `for byte in mac` loop of `compute_digits`: append the digit of
   * each accepted byte, leaving the loop once six digits are held.
   */
  method ScanMac(mac: seq<byte>, digitsIn: seq<int>) returns (digits: seq<int>)
    requires |digitsIn| <= DigitCount
    ensures digits == Capped(digitsIn + AcceptedDigits(mac))
  {
    digits := digitsIn;
    var i := 0;
    assert mac[..0] == [] && digitsIn + [] == digitsIn;
    while i < |mac|
      invariant 0 <= i <= |mac|
      invariant digits == Capped(digitsIn + AcceptedDigits(mac[..i]))
    {
      if |digits| >= DigitCount {
        ScanStopsEarly(mac, digitsIn, i);
        break;
      }
      var byteVal := mac[i];
      ScanByte(mac, digitsIn, i);
      if byteVal < 250 {
        digits := digits + [byteVal % 10];
      }
      i := i + 1;
    }
    if i == |mac| {
      assert mac[..i] == mac;
    }
  }

  /**
   * The digits held after the counter loop has scanned the first n MACs:
   * each MAC's accepted digits are appended, never beyond six.
   */
  function Collected(crypto: CryptoSuite, key: seq<byte>, message: seq<byte>, n: nat): (ds: seq<int>)
    requires n <= CounterLimit
  {
    if n == 0 then []
    else Capped(Collected(crypto, key, message, n - 1) + AcceptedDigits(MacBlock(crypto, key, message, n - 1)))
  }

  /** Collecting MAC by MAC and capping as you go is capping the digits of the whole stream. */
  lemma {:induction false} CollectedIsCappedStream(crypto: CryptoSuite, key: seq<byte>, message: seq<byte>, n: nat)
    requires n <= CounterLimit
    ensures Collected(crypto, key, message, n) == Capped(AcceptedDigits(MacStream(crypto, key, message, n)))
  {
    if n > 0 {
      var stream, mac := MacStream(crypto, key, message, n - 1), MacBlock(crypto, key, message, n - 1);
      CollectedIsCappedStream(crypto, key, message, n - 1);
      AcceptedDigitsAppend(stream, mac);
      CappedAppend(AcceptedDigits(stream), AcceptedDigits(mac));
    }
  }

  /**
   * Where the counter loop ends: with six digits after c MACs, those are the
   * stream's digits; with fewer after every counter value, the overflow
   * error.
   */
  lemma ScanOutcome(crypto: CryptoSuite, key: seq<byte>, message: seq<byte>, c: nat)
    requires c <= CounterLimit
    requires |Collected(crypto, key, message, c)| >= DigitCount || c == CounterLimit
    ensures StreamDigits(crypto, key, message)
         == if |Collected(crypto, key, message, c)| >= DigitCount then Ok(Collected(crypto, key, message, c))
            else Err(CounterOverflow)
  {
    CollectedIsCappedStream(crypto, key, message, c);
    var digits := Collected(crypto, key, message, c);
    if |digits| >= DigitCount {
      var ds := AcceptedDigits(MacStream(crypto, key, message, c));
      assert digits == ds[..DigitCount];
      StreamDigitsDecidedEarly(crypto, key, message, c);
    }
  }

  /**
   * The counter loop of `compute_digits`: for counter = 0, 1, ... scan
   * HMAC(key, message ‖ BE4(counter)) until six digits are collected.
   */
  method CollectDigits(crypto: CryptoSuite, hmacKey: seq<byte>, message: seq<byte>)
    returns (r: Result<seq<int>, RngError>)
    ensures r == StreamDigits(crypto, hmacKey, message)
  {
    var digits: seq<int> := [];
    var counter: nat := 0;
    while |digits| < DigitCount
      invariant counter <= CounterLimit
      invariant digits == Collected(crypto, hmacKey, message, counter)
      decreases CounterLimit - counter
    {
      if counter == CounterLimit {
        ScanOutcome(crypto, hmacKey, message, counter);
        r := Err(CounterOverflow);
        return;
      }
      var hmacMsg := message + BigEndian4(counter);
      var mac := crypto.hmacSha256(hmacKey, hmacMsg);
      digits := ScanMac(mac, digits);
      counter := counter + 1;
    }
    ScanOutcome(crypto, hmacKey, message, counter);
    r := Ok(digits);
  }

  /**
   * `compute_digits`: build the message from the round id and the client
   * seed, key the HMAC with the server seed, and collect six digits.
   */
  method ComputeDigits(crypto: CryptoSuite, serverSeed: string, roundId: string, clientSeed: Option<string>)
    returns (r: Result<seq<int>, RngError>)
    ensures r == RoundDigits(crypto, serverSeed, roundId, clientSeed)
  {
    var message := Utf8(roundId);
    if clientSeed.Some? && clientSeed.value != "" {
      message := message + Utf8(clientSeed.value);
    }
    assert message == Message(roundId, clientSeed);
    var hmacKey := Utf8(serverSeed);
    r := CollectDigits(crypto, hmacKey, message);
  }

  // ---------------------------------------------------------------------
  // Seeds, commitments and verification
  // ---------------------------------------------------------------------

  /**
   * `generate_server_seed`: the seed is the 64-character hex text of 32
   * random bytes, and the commitment is SHA-256-hex of that text.
   */
  function GenerateServerSeed(crypto: CryptoSuite, entropy: seq<byte>): (r: (string, string))
    requires |entropy| == 32
    ensures |r.0| == 64 && |r.1| == 64
    ensures Unhex(r.0) == Some(entropy)
    ensures r.1 == Commitment(crypto, r.0)
  {
    UnhexHex(entropy);
    var serverSeed := Hex(entropy);
    (serverSeed, Commitment(crypto, serverSeed))
  }

  /** The triple `verify_round` returns. */
  datatype Verification = Verification(isValid: bool, digits: seq<int>, commitment: string)

  /**
   * `verify_round`: recompute the commitment and the digits; the round is
   * valid when no (or empty) expected digits are given, or they match.
   */
  function VerifyRound(crypto: CryptoSuite, serverSeed: string, roundId: string,
                       clientSeed: Option<string>, expectedDigits: Option<seq<int>>)
    : (r: Result<Verification, RngError>)
  {
    var computedCommitment := Commitment(crypto, serverSeed);
    match RoundDigits(crypto, serverSeed, roundId, clientSeed)
    case Err(e) => Err(e)
    case Ok(computedDigits) =>
      var isValid := if expectedDigits.Some? && expectedDigits.value != [] then computedDigits == expectedDigits.value else true;
      Ok(Verification(isValid, computedDigits, computedCommitment))
  }

  /**
   * Verification accepts exactly the digits `compute_digits` produces for the
   * same inputs, reports that seed's commitment, and fails only where
   * `compute_digits` does.
   */
  lemma VerifyRoundAgreesWithComputeDigits(crypto: CryptoSuite, serverSeed: string, roundId: string,
                                           clientSeed: Option<string>, expected: seq<int>)
    requires expected != []
    ensures VerifyRound(crypto, serverSeed, roundId, clientSeed, Some(expected)).Ok?
        <==> RoundDigits(crypto, serverSeed, roundId, clientSeed).Ok?
    ensures VerifyRound(crypto, serverSeed, roundId, clientSeed, Some(expected)).Ok? ==>
      var v := VerifyRound(crypto, serverSeed, roundId, clientSeed, Some(expected)).value;
      v.commitment == Commitment(crypto, serverSeed) &&
      v.digits == RoundDigits(crypto, serverSeed, roundId, clientSeed).value &&
      (v.isValid <==> expected == RoundDigits(crypto, serverSeed, roundId, clientSeed).value)
  {
  }

  /** Without expected digits every successful recomputation is reported valid. */
  lemma VerifyRoundWithoutExpectation(crypto: CryptoSuite, serverSeed: string, roundId: string, clientSeed: Option<string>)
    ensures VerifyRound(crypto, serverSeed, roundId, clientSeed, None).Ok? ==>
      VerifyRound(crypto, serverSeed, roundId, clientSeed, None).value.isValid
    ensures VerifyRound(crypto, serverSeed, roundId, clientSeed, None)
         == VerifyRound(crypto, serverSeed, roundId, clientSeed, Some([]))
  {
  }

  // ---------------------------------------------------------------------
  // Forced outcomes
  // ---------------------------------------------------------------------

  /** The targets an admin may force. */
  predicate IsForcedValue(forcedValue: string)
  {
    forcedValue == "small" || forcedValue == "big" || forcedValue == "even" || forcedValue == "odd"
  }

  /** Whether a last digit satisfies a forced target: small 0-4, big 5-9, even, odd. */
  predicate Satisfies(forcedValue: string, lastDigit: int)
  {
    (forcedValue == "small" && 0 <= lastDigit <= 4) ||
    (forcedValue == "big" && 5 <= lastDigit <= 9) ||
    (forcedValue == "even" && lastDigit % 2 == 0) ||
    (forcedValue == "odd" && lastDigit % 2 == 1)
  }

  /** Every decimal digit satisfies exactly one of small/big and exactly one of even/odd. */
  lemma TargetsPartitionDigits(d: int)
    requires 0 <= d <= 9
    ensures Satisfies("small", d) != Satisfies("big", d)
    ensures Satisfies("even", d) != Satisfies("odd", d)
  {
  }

  /** `generate_forced_seed`'s default attempt budget. */
  const DefaultMaxAttempts := 100000

  /** The seed a draw of 32 random bytes gives (`secrets.token_hex(32)`). */
  function SeedOf(draw: seq<byte>): (seed: string)
    ensures |seed| == 2 * |draw|
  {
    Hex(draw)
  }

  /** What one attempt of the search gives: a (seed, commitment) pair, None, or an error. */
  type Outcome = Result<Option<(string, string)>, RngError>

  /**
   * One attempt of the search: the draw's seed with its commitment when the
   * seed's last digit (no client seed) satisfies the target, None when it
   * does not, the overflow error when computing the digits raises it.
   */
  function TryDraw(crypto: CryptoSuite, roundId: string, forcedValue: string, draw: seq<byte>): (r: Outcome)
    ensures r.Err? <==> RoundDigits(crypto, SeedOf(draw), roundId, None).Err?
    ensures r.Ok? && r.value.Some? <==>
      RoundDigits(crypto, SeedOf(draw), roundId, None).Ok? &&
      Satisfies(forcedValue, RoundDigits(crypto, SeedOf(draw), roundId, None).value[DigitCount - 1])
    ensures r.Ok? && r.value.Some? ==> r.value.value == (SeedOf(draw), Commitment(crypto, SeedOf(draw)))
  {
    var serverSeed := SeedOf(draw);
    match RoundDigits(crypto, serverSeed, roundId, None)
    case Err(e) => Err(e)
    case Ok(digits) =>
      if Satisfies(forcedValue, digits[|digits| - 1]) then Ok(Some((serverSeed, Commitment(crypto, serverSeed))))
      else Ok(None)
  }

  /** The attempt function of a search for `forcedValue` in round `roundId`. */
  function Attempt(crypto: CryptoSuite, roundId: string, forcedValue: string): seq<byte> -> Outcome
  {
    draw => TryDraw(crypto, roundId, forcedValue, draw)
  }

  /**
   * The attempt loop from attempt number `attempts` on, for any attempt
   * function: the first outcome other than None, or None once the draws up
   * to `maxAttempts` were all tried.
   */
  function Grind(attempt: seq<byte> -> Outcome, candidates: seq<seq<byte>>, attempts: nat, maxAttempts: int): Outcome
    requires maxAttempts <= |candidates|
    decreases maxAttempts - attempts
  {
    if attempts >= maxAttempts then Ok(None)
    else if attempt(candidates[attempts]) == Ok(None) then Grind(attempt, candidates, attempts + 1, maxAttempts)
    else attempt(candidates[attempts])
  }

  /** What `generate_forced_seed(round_id, forced_value, max_attempts)` returns for these draws. */
  function ForcedSeed(crypto: CryptoSuite, roundId: string, forcedValue: string,
                      candidates: seq<seq<byte>>, maxAttempts: int): Outcome
    requires maxAttempts <= |candidates|
  {
    Grind(Attempt(crypto, roundId, forcedValue), candidates, 0, maxAttempts)
  }

  /**
   * A search that does not end in None stops at the first draw whose
   * attempt is not None, and returns that attempt's outcome.
   */
  lemma {:induction false} GrindFirst(attempt: seq<byte> -> Outcome, candidates: seq<seq<byte>>,
                                      attempts: nat, maxAttempts: int)
    returns (i: nat)
    requires maxAttempts <= |candidates|
    requires Grind(attempt, candidates, attempts, maxAttempts) != Ok(None)
    ensures attempts <= i < maxAttempts
    ensures attempt(candidates[i]) != Ok(None)
    ensures forall j :: attempts <= j < i ==> attempt(candidates[j]) == Ok(None)
    ensures Grind(attempt, candidates, attempts, maxAttempts) == attempt(candidates[i])
    decreases maxAttempts - attempts
  {
    if attempt(candidates[attempts]) == Ok(None) {
      i := GrindFirst(attempt, candidates, attempts + 1, maxAttempts);
    } else {
      i := attempts;
    }
  }

  /** The search ends in None exactly when every draw it tries yields None. */
  lemma {:induction false} GrindNoneIff(attempt: seq<byte> -> Outcome, candidates: seq<seq<byte>>,
                                        attempts: nat, maxAttempts: int)
    requires maxAttempts <= |candidates|
    ensures Grind(attempt, candidates, attempts, maxAttempts) == Ok(None)
        <==> forall i :: attempts <= i < maxAttempts ==> attempt(candidates[i]) == Ok(None)
    decreases maxAttempts - attempts
  {
    if attempts < maxAttempts {
      GrindNoneIff(attempt, candidates, attempts + 1, maxAttempts);
    }
  }

  /** The search uses at most `maxAttempts` draws: later draws never influence it. */
  lemma {:induction false} GrindUsesFirstDraws(attempt: seq<byte> -> Outcome, c1: seq<seq<byte>>, c2: seq<seq<byte>>,
                                               attempts: nat, maxAttempts: int)
    requires maxAttempts <= |c1| && maxAttempts <= |c2|
    requires forall i :: attempts <= i < maxAttempts ==> c1[i] == c2[i]
    ensures Grind(attempt, c1, attempts, maxAttempts) == Grind(attempt, c2, attempts, maxAttempts)
    decreases maxAttempts - attempts
  {
    if attempts < maxAttempts {
      GrindUsesFirstDraws(attempt, c1, c2, attempts + 1, maxAttempts);
    }
  }

  /**
   * Soundness of `generate_forced_seed`: a returned pair is the seed of draw
   * i, the first draw whose last digit satisfies the target, and the
   * commitment is SHA-256-hex of that seed.
   */
  lemma ForcedSeedSound(crypto: CryptoSuite, roundId: string, forcedValue: string,
                        candidates: seq<seq<byte>>, maxAttempts: int)
    returns (i: nat)
    requires maxAttempts <= |candidates|
    requires ForcedSeed(crypto, roundId, forcedValue, candidates, maxAttempts).Ok?
    requires ForcedSeed(crypto, roundId, forcedValue, candidates, maxAttempts).value.Some?
    ensures i < maxAttempts
    ensures ForcedSeed(crypto, roundId, forcedValue, candidates, maxAttempts).value.value
         == (SeedOf(candidates[i]), Commitment(crypto, SeedOf(candidates[i])))
    ensures RoundDigits(crypto, SeedOf(candidates[i]), roundId, None).Ok?
    ensures Satisfies(forcedValue, RoundDigits(crypto, SeedOf(candidates[i]), roundId, None).value[DigitCount - 1])
    ensures forall j :: 0 <= j < i ==>
      RoundDigits(crypto, SeedOf(candidates[j]), roundId, None).Ok? &&
      !Satisfies(forcedValue, RoundDigits(crypto, SeedOf(candidates[j]), roundId, None).value[DigitCount - 1])
  {
    var attempt := Attempt(crypto, roundId, forcedValue);
    i := GrindFirst(attempt, candidates, 0, maxAttempts);
    assert attempt(candidates[i]) == TryDraw(crypto, roundId, forcedValue, candidates[i]);
    forall j | 0 <= j < i
      ensures RoundDigits(crypto, SeedOf(candidates[j]), roundId, None).Ok? &&
        !Satisfies(forcedValue, RoundDigits(crypto, SeedOf(candidates[j]), roundId, None).value[DigitCount - 1])
    {
      assert attempt(candidates[j]) == TryDraw(crypto, roundId, forcedValue, candidates[j]);
    }
  }

  /**
   * `generate_forced_seed` returns None exactly when every one of the
   * `maxAttempts` draws computes its digits and misses the target.
   */
  lemma ForcedSeedNoneIff(crypto: CryptoSuite, roundId: string, forcedValue: string,
                          candidates: seq<seq<byte>>, maxAttempts: int)
    requires maxAttempts <= |candidates|
    ensures ForcedSeed(crypto, roundId, forcedValue, candidates, maxAttempts) == Ok(None)
        <==> forall i :: 0 <= i < maxAttempts ==>
               RoundDigits(crypto, SeedOf(candidates[i]), roundId, None).Ok? &&
               !Satisfies(forcedValue, RoundDigits(crypto, SeedOf(candidates[i]), roundId, None).value[DigitCount - 1])
  {
    var attempt := Attempt(crypto, roundId, forcedValue);
    GrindNoneIff(attempt, candidates, 0, maxAttempts);
    forall i | 0 <= i < maxAttempts
      ensures attempt(candidates[i]) == TryDraw(crypto, roundId, forcedValue, candidates[i])
    {
    }
  }

  /** A target outside small/big/even/odd is never met: no seed is ever returned for it. */
  lemma ForcedSeedUnknownTarget(crypto: CryptoSuite, roundId: string, forcedValue: string,
                                candidates: seq<seq<byte>>, maxAttempts: int)
    requires maxAttempts <= |candidates|
    requires !IsForcedValue(forcedValue)
    ensures ForcedSeed(crypto, roundId, forcedValue, candidates, maxAttempts) == Ok(None)
         || ForcedSeed(crypto, roundId, forcedValue, candidates, maxAttempts).Err?
  {
    var attempt := Attempt(crypto, roundId, forcedValue);
    if Grind(attempt, candidates, 0, maxAttempts) != Ok(None) {
      var i := GrindFirst(attempt, candidates, 0, maxAttempts);
      assert attempt(candidates[i]) == TryDraw(crypto, roundId, forcedValue, candidates[i]);
    }
  }

  /**
   * `generate_forced_seed`: draw seeds until one forces the target or
   * `maxAttempts` draws were made.
   */
  method GenerateForcedSeed(crypto: CryptoSuite, roundId: string, forcedValue: string,
                            candidates: seq<seq<byte>>, maxAttempts: int)
    returns (r: Outcome)
    requires maxAttempts <= |candidates|
    ensures r == ForcedSeed(crypto, roundId, forcedValue, candidates, maxAttempts)
  {
    ghost var attempt := Attempt(crypto, roundId, forcedValue);
    var attempts: nat := 0;
    while attempts < maxAttempts
      invariant ForcedSeed(crypto, roundId, forcedValue, candidates, maxAttempts)
             == Grind(attempt, candidates, attempts, maxAttempts)
      decreases maxAttempts - attempts
    {
      var serverSeed := SeedOf(candidates[attempts]);
      var digits := ComputeDigits(crypto, serverSeed, roundId, None);
      assert attempt(candidates[attempts]) == TryDraw(crypto, roundId, forcedValue, candidates[attempts]);
      if digits.Err? {
        r := Err(digits.error);
        return;
      }
      var lastDigit := digits.value[|digits.value| - 1];
      if Satisfies(forcedValue, lastDigit) {
        var commitment := Commitment(crypto, serverSeed);
        r := Ok(Some((serverSeed, commitment)));
        return;
      }
      attempts := attempts + 1;
    }
    r := Ok(None);
  }

  // ---------------------------------------------------------------------
  // Stored seeds
  // ---------------------------------------------------------------------

  /**
   * Seed encryption under the service's key. Decryption is partial: it fails
   * on a ciphertext it cannot authenticate. Nothing relates the two.
   */
  datatype Vault = Vault(encrypt: string -> string, decrypt: string -> Option<string>)

  datatype StoreError = DuplicateRound
  datatype RevealError = DecryptionFailed | CommitmentMismatch

  /** The seed table, keyed by the (unique) round id. */
  class SeedTable {
    var records: map<string, SeedRecord>

    /**
     * Each record sits under its own round id; it is either unrevealed (no
     * time, no hash) or revealed, and a revealed record's hash is its
     * commitment.
     */
    ghost predicate Valid()
      reads this
    {
      forall id :: id in records ==>
        records[id].roundId == id &&
        (records[id].revealedAt.Some? <==> records[id].revealedSeedHash.Some?) &&
        (records[id].revealedSeedHash.Some? ==> records[id].revealedSeedHash.value == records[id].commitment)
    }

    constructor ()
      ensures Valid() && records == map[]
    {
      records := map[];
    }

    /**
     * `encrypt_and_store_seed`: add an unrevealed record holding the
     * encrypted seed; a round id already present violates the uniqueness
     * constraint and nothing is stored.
     */
    method EncryptAndStoreSeed(vault: Vault, roundId: string, serverSeed: string, commitment: string,
                               periodTag: Option<string>)
      returns (r: Result<SeedRecord, StoreError>)
      requires Valid()
      modifies this
      ensures Valid()
      ensures roundId in old(records) ==> r == Err(DuplicateRound) && records == old(records)
      ensures roundId !in old(records) ==>
        r == Ok(NewSeedRecord(roundId, commitment, vault.encrypt(serverSeed), periodTag)) &&
        records == old(records)[roundId := r.value]
    {
      var encryptedSeed := vault.encrypt(serverSeed);
      var seedRecord := NewSeedRecord(roundId, commitment, encryptedSeed, periodTag);
      if roundId in records {
        return Err(DuplicateRound);
      }
      records := records[roundId := seedRecord];
      r := Ok(seedRecord);
    }

    /**
     * `reveal_seed`: unknown rounds give None. A revealed record only has its
     * seed decrypted again. An unrevealed one is checked against its
     * commitment, and on success marked revealed at `now` with the seed's
     * hash.
     */
    method RevealSeed(crypto: CryptoSuite, vault: Vault, roundId: string, now: int)
      returns (r: Result<Option<string>, RevealError>)
      requires Valid()
      modifies this
      ensures Valid()
      ensures roundId !in old(records) ==> r == Ok(None) && records == old(records)
      ensures roundId in old(records) && old(records)[roundId].revealedAt.Some? ==>
        records == old(records) &&
        r == (match vault.decrypt(old(records)[roundId].encryptedSeed)
              case None => Err(DecryptionFailed)
              case Some(s) => Ok(Some(s)))
      ensures roundId in old(records) && old(records)[roundId].revealedAt.None? ==>
        var rec := old(records)[roundId];
        match vault.decrypt(rec.encryptedSeed)
        case None => r == Err(DecryptionFailed) && records == old(records)
        case Some(s) =>
          if Commitment(crypto, s) != rec.commitment then r == Err(CommitmentMismatch) && records == old(records)
          else (r == Ok(Some(s)) &&
                records == old(records)[roundId := rec.(revealedAt := Some(now), revealedSeedHash := Some(Commitment(crypto, s)))])
    {
      if roundId !in records {
        return Ok(None);
      }
      var seedRecord := records[roundId];
      if seedRecord.revealedAt.Some? {
        var decrypted := vault.decrypt(seedRecord.encryptedSeed);
        if decrypted.None? {
          return Err(DecryptionFailed);
        }
        return Ok(Some(decrypted.value));
      }
      var decrypted := vault.decrypt(seedRecord.encryptedSeed);
      if decrypted.None? {
        return Err(DecryptionFailed);
      }
      var serverSeed := decrypted.value;
      var computedCommitment := Commitment(crypto, serverSeed);
      if computedCommitment != seedRecord.commitment {
        return Err(CommitmentMismatch);
      }
      records := records[roundId := seedRecord.(revealedAt := Some(now), revealedSeedHash := Some(Commitment(crypto, serverSeed)))];
      r := Ok(Some(serverSeed));
    }
  }
}
