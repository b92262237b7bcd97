/**
 * The public verification tool (tools/verify_cli.py): given a round id, a
 * revealed seed, the published commitment and optionally a client seed, it
 * checks the commitment, recomputes the round's digits and classifies the
 * last one. The model returns the verdict the tool prints and its exit code.
 */
module VerifyCli {
  import opened Wrappers
  import opened Primitives
  import opened RngService

  /** The size class of a round. */
  datatype Size = Small | Big

  /** The parity class of a round. */
  datatype Parity = Even | Odd

  /** SMALL for a last digit 0 to 4, BIG otherwise. */
  function SizeOf(lastDigit: int): (s: Size)
  {
    if lastDigit in [0, 1, 2, 3, 4] then Small else Big
  }

  /** EVEN when the last digit is divisible by 2, ODD otherwise. */
  function ParityOf(lastDigit: int): (p: Parity)
  {
    if lastDigit % 2 == 0 then Even else Odd
  }

  /** What one run of the tool reports. */
  datatype Verdict =
    | Usage
    | Mismatch(expected: string, computed: string)
    | Failed(error: RngError)
    | Verified(roundId: string, digits: seq<int>, lastDigit: int, size: Size, parity: Parity)

  /** The process's exit status: 0 only for a completed verification. */
  function ExitCode(v: Verdict): (code: int)
    ensures code == 0 <==> v.Verified?
    ensures code == 0 || code == 1
  {
    if v.Verified? then 0 else 1
  }

  /** The optional client seed: the fourth argument when there is one. */
  function ClientSeedArg(args: seq<string>): (c: Option<string>)
    ensures c.Some? <==> |args| > 3
    ensures c.Some? ==> c.value == args[3]
  {
    if |args| > 3 then Some(args[3]) else None
  }

  /** One run of the tool; `args` are the command-line arguments after the program name. */
  function Verify(crypto: CryptoSuite, args: seq<string>): (v: Verdict)
  {
    if |args| < 3 then Usage
    else
      var roundId, revealedSeed, publishedCommitment := args[0], args[1], args[2];
      var computed := Commitment(crypto, revealedSeed);
      if computed != publishedCommitment then Mismatch(publishedCommitment, computed)
      else
        match RoundDigits(crypto, revealedSeed, roundId, ClientSeedArg(args))
        case Err(e) => Failed(e)
        case Ok(digits) =>
          var lastDigit := digits[|digits| - 1];
          Verified(roundId, digits, lastDigit, SizeOf(lastDigit), ParityOf(lastDigit))
  }

  /**
   * The tool's verdicts, case by case: fewer than three arguments print the
   * usage; a revealed seed whose SHA-256-hex is not the published
   * commitment is refused; otherwise the verdict carries the round's digits
   * computed with the optional client seed, or the error that stopped them.
   */
  lemma VerifyCases(crypto: CryptoSuite, args: seq<string>)
    ensures Verify(crypto, args) == Usage <==> |args| < 3
    ensures Verify(crypto, args).Mismatch? <==>
      |args| >= 3 && Commitment(crypto, args[1]) != args[2]
    ensures Verify(crypto, args).Mismatch? ==>
      Verify(crypto, args) == Mismatch(args[2], Commitment(crypto, args[1]))
    ensures Verify(crypto, args).Failed? <==>
      |args| >= 3 && Commitment(crypto, args[1]) == args[2] && RoundDigits(crypto, args[1], args[0], ClientSeedArg(args)).Err?
    ensures Verify(crypto, args).Verified? <==>
      |args| >= 3 && Commitment(crypto, args[1]) == args[2] && RoundDigits(crypto, args[1], args[0], ClientSeedArg(args)).Ok?
  {
  }

  /**
   * A completed verification reports the round's six digits, their last
   * digit, and its size and parity: SMALL exactly for 0 to 4, EVEN exactly
   * for an even digit.
   */
  lemma VerifiedClassifies(crypto: CryptoSuite, args: seq<string>)
    requires Verify(crypto, args).Verified?
    ensures var v := Verify(crypto, args);
      v.roundId == args[0] &&
      v.digits == RoundDigits(crypto, args[1], args[0], ClientSeedArg(args)).value &&
      |v.digits| == DigitCount && v.lastDigit == v.digits[DigitCount - 1] &&
      0 <= v.lastDigit <= 9 &&
      (v.size == Small <==> v.lastDigit <= 4) &&
      (v.parity == Even <==> v.lastDigit % 2 == 0) &&
      ExitCode(v) == 0
  {
  }

  /**
   * A mismatched commitment is decided before any digit is computed: the
   * verdict is the same under any HMAC.
   */
  lemma MismatchIgnoresDigits(crypto: CryptoSuite, other: CryptoSuite, args: seq<string>)
    requires other.sha256 == crypto.sha256
    requires Verify(crypto, args).Mismatch?
    ensures Verify(other, args) == Verify(crypto, args)
  {
    assert Commitment(other, args[1]) == Commitment(crypto, args[1]);
  }

  /** The class a target names, as the tool prints it. */
  predicate ClassifiedAs(v: Verdict, forcedValue: string)
    requires v.Verified?
  {
    (forcedValue == "small" && v.size == Small) ||
    (forcedValue == "big" && v.size == Big) ||
    (forcedValue == "even" && v.parity == Even) ||
    (forcedValue == "odd" && v.parity == Odd)
  }

  /** A last digit meets a target exactly when the tool classifies it as that target. */
  lemma SatisfiesIffClassified(forcedValue: string, lastDigit: int)
    requires 0 <= lastDigit <= 9
    ensures Satisfies(forcedValue, lastDigit) <==>
      (forcedValue == "small" && SizeOf(lastDigit) == Small) ||
      (forcedValue == "big" && SizeOf(lastDigit) == Big) ||
      (forcedValue == "even" && ParityOf(lastDigit) == Even) ||
      (forcedValue == "odd" && ParityOf(lastDigit) == Odd)
  {
  }

  /**
   * A seed the forced-outcome search returns passes the public check for
   * its round without a client seed, and the tool classifies the round as
   * the target the search was asked for.
   */
  lemma ForcedSeedVerifiesAsTarget(crypto: CryptoSuite, roundId: string, forcedValue: string,
                                   candidates: seq<seq<byte>>, maxAttempts: int)
    requires maxAttempts <= |candidates|
    requires ForcedSeed(crypto, roundId, forcedValue, candidates, maxAttempts).Ok?
    requires ForcedSeed(crypto, roundId, forcedValue, candidates, maxAttempts).value.Some?
    ensures var (seed, commitment) := ForcedSeed(crypto, roundId, forcedValue, candidates, maxAttempts).value.value;
      var v := Verify(crypto, [roundId, seed, commitment]);
      v.Verified? && ClassifiedAs(v, forcedValue) && ExitCode(v) == 0
  {
    var i := ForcedSeedSound(crypto, roundId, forcedValue, candidates, maxAttempts);
    var seed := SeedOf(candidates[i]);
    var args := [roundId, seed, Commitment(crypto, seed)];
    assert ClientSeedArg(args) == None;
    var digits := RoundDigits(crypto, seed, roundId, None).value;
    SatisfiesIffClassified(forcedValue, digits[DigitCount - 1]);
  }
}
