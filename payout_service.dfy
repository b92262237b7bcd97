/**
 * The payout ledger (src/services/payout_service.py): crediting a user's
 * balance with a payout record and an audit entry, skimming the house fee
 * into the pot on wins, recording a failed attempt for a later retry pass,
 * and the per-user payout history.
 *
 * `Pay` and `RetryAll` describe one call and one retry pass on the ledger
 * as a value; `PayoutService` is the service whose methods update its
 * tables in place and are proved to do what those functions describe.
 */
module PayoutLedger {
  import opened Wrappers
  import opened Primitives
  import opened Models
  import opened Queries

  // ---------------------------------------------------------------------
  // The house fee
  // ---------------------------------------------------------------------

  /** The house rate as the fraction `num / den`; the service's default is 3/100. */
  datatype HouseRate = HouseRate(num: int, den: int)

  const DefaultHouseRate := HouseRate(3, 100)

  /** Python's `int()` of a quotient: division that truncates toward zero. */
  function TruncDiv(a: int, d: int): (q: int)
    requires d > 0
    ensures a >= 0 ==> 0 <= q * d <= a < q * d + d
    ensures a < 0 ==> a + d > q * d >= a && q <= 0
  {
    if a >= 0 then DivisionBounds(a, d); a / d
    else DivisionBounds(-a, d); -((-a) / d)
  }

  /** Division of a non-negative number rounds down. */
  lemma DivisionBounds(a: int, d: int)
    requires a >= 0 && d > 0
    ensures a / d >= 0
    ensures 0 <= (a / d) * d <= a < (a / d) * d + d
  {
    var q, r := a / d, a % d;
    assert a == q * d + r && 0 <= r < d;
    CancelStrict(-1, q, d);
    ScaleMonotone(d, 0, q);
  }

  /** Whether a payout for `reason` skims the house fee: only wins, and only at a positive rate. */
  predicate Skims(rate: HouseRate, reason: string)
  {
    reason == "win" && rate.num > 0
  }

  /** The fee a payout of `amount` skims into the pot: zero when it does not skim. */
  function HouseFee(rate: HouseRate, amount: int, reason: string): (fee: int)
    requires rate.den > 0
  {
    if Skims(rate, reason) then TruncDiv(amount * rate.num, rate.den) else 0
  }

  /**
   * At a rate between 0 and 1, the fee on a win of a non-negative amount is
   * the rate's share of it rounded down, so never more than the amount.
   */
  lemma HouseFeeBounds(rate: HouseRate, amount: int)
    requires 0 < rate.num <= rate.den
    requires amount >= 0
    ensures var fee := HouseFee(rate, amount, "win");
      0 <= fee <= amount &&
      fee * rate.den <= amount * rate.num < fee * rate.den + rate.den
  {
    var fee := HouseFee(rate, amount, "win");
    ScaleMonotone(amount, 0, rate.num);
    ScaleMonotone(amount, rate.num, rate.den);
    assert fee * rate.den <= amount * rate.den;
    CancelFactor(0, fee, rate.den);
    CancelFactor(fee, amount, rate.den);
  }

  lemma ScaleMonotone(x: int, y: int, z: int)
    requires x >= 0 && y <= z
    ensures x * y <= x * z
  {
    assert x * z - x * y == x * (z - y);
  }

  lemma CancelStrict(p: int, q: int, d: int)
    requires d > 0 && p * d < q * d
    ensures p < q
  {
    assert (q - p) * d == q * d - p * d;
  }

  lemma CancelFactor(p: int, q: int, d: int)
    requires d > 0 && p * d <= q * d
    ensures p <= q
  {
    assert (q - p) * d == q * d - p * d;
  }

  /** Truncation toward zero: the fee on a negative amount mirrors the fee on its opposite. */
  lemma HouseFeeTruncatesTowardZero(rate: HouseRate, amount: int, reason: string)
    requires rate.den > 0
    ensures HouseFee(rate, -amount, reason) == -HouseFee(rate, amount, reason)
  {
    if Skims(rate, reason) {
      assert -amount * rate.num == -(amount * rate.num);
    }
  }

  // ---------------------------------------------------------------------
  // One payout
  // ---------------------------------------------------------------------

  /** The ledger's tables as one value: users by id, the single pot row, payouts in insertion order, the audit log. */
  datatype Books = Books(users: map<int, User>, pot: Option<Pot>, payouts: seq<Payout>, audit: seq<AuditEntry>)

  /** What `process_payout` returns. */
  datatype PayoutResult =
    | Paid(txRef: string, amount: int, netAmount: int, newBalance: int)
    | PayFailed(error: string, txRef: string)

  /** The error text of the lookup of a user that does not exist. */
  const NoRowFound := "No row was found when one was required"

  /** The pot's balance; no row counts as 0. */
  function PotBalance(pot: Option<Pot>): int
  {
    if pot.Some? then pot.value.balance else NewPot().balance
  }

  /** `_add_to_pot`: the pot row, created at 0 when missing, with `amount` added. */
  function AddedToPot(pot: Option<Pot>, amount: int): (p: Pot)
    ensures p.balance == PotBalance(pot) + amount
  {
    var row := if pot.Some? then pot.value else NewPot();
    row.(balance := row.balance + amount)
  }

  /** The record of an attempt that failed with `error`: FAILED after one attempt. */
  function FailedPayout(txRef: string, userId: int, amount: int, roundId: Option<string>, error: string,
                        now: int): Payout
  {
    var p := NewPayout(txRef, userId, amount, roundId, now);
    p.(status := PayoutStatus.Failed, attempts := p.attempts + 1, lastError := Some(error))
  }

  /**
   * `process_payout` on the books: `txRef` is the reference the call mints,
   * `fault` the error, if any, that aborts the transaction after the payout
   * record is created, and `now` the database clock.
   */
  function Pay(rate: HouseRate, b: Books, userId: int, amount: int, roundId: Option<string>, reason: string,
               txRef: string, fault: Option<string>, now: int): (res: (Books, PayoutResult))
    requires rate.den > 0
    ensures res.1.txRef == txRef
    ensures |res.0.payouts| == |b.payouts| + (if userId in b.users then 1 else 0)
    ensures res.0.payouts[..|b.payouts|] == b.payouts
  {
    if userId !in b.users then (b, PayFailed(NoRowFound, txRef))
    else if fault.Some? then
      var failed := FailedPayout(txRef, userId, amount, roundId, fault.value, now);
      assert (b.payouts + [failed])[..|b.payouts|] == b.payouts;
      (b.(payouts := b.payouts + [failed]), PayFailed(fault.value, txRef))
    else
      var user := b.users[userId];
      var newBalance := user.balance + amount;
      var fee := HouseFee(rate, amount, reason);
      var pot := if Skims(rate, reason) then Some(AddedToPot(b.pot, fee)) else b.pot;
      var done := NewPayout(txRef, userId, amount, roundId, now).(status := Done, completedAt := Some(now));
      var entry := AuditEntry(System, "payout_" + reason, IntToString(userId),
                              PayoutMade(txRef, amount, amount - fee, roundId, user.balance, newBalance));
      assert (b.payouts + [done])[..|b.payouts|] == b.payouts;
      (Books(b.users[userId := user.(balance := newBalance)], pot, b.payouts + [done], b.audit + [entry]),
       Paid(txRef, amount, amount - fee, newBalance))
  }

  /**
   * A successful payout credits the user with the full amount and touches
   * no other user; a skimming payout adds the fee to the pot (creating it
   * at 0) and reports the amount less the fee, any other payout leaves the
   * pot alone and reports the full amount; the new record is DONE with its
   * reference, and one audit entry carries the old and new balance.
   */
  lemma PaySucceeds(rate: HouseRate, b: Books, userId: int, amount: int, roundId: Option<string>, reason: string,
                    txRef: string, now: int)
    requires rate.den > 0
    requires userId in b.users
    ensures var (b', r) := Pay(rate, b, userId, amount, roundId, reason, txRef, None, now);
      var before := b.users[userId].balance;
      var fee := HouseFee(rate, amount, reason);
      r == Paid(txRef, amount, amount - fee, before + amount) &&
      b'.users.Keys == b.users.Keys &&
      b'.users[userId] == b.users[userId].(balance := before + amount) &&
      (forall u :: u in b.users && u != userId ==> b'.users[u] == b.users[u]) &&
      (Skims(rate, reason) ==> b'.pot.Some? && PotBalance(b'.pot) == PotBalance(b.pot) + fee) &&
      (!Skims(rate, reason) ==> b'.pot == b.pot && fee == 0) &&
      b'.payouts[|b.payouts|].txRef == txRef && b'.payouts[|b.payouts|].status == Done &&
      b'.payouts[|b.payouts|].amount == amount && b'.payouts[|b.payouts|].userId == userId &&
      b'.audit == b.audit + [AuditEntry(System, "payout_" + reason, IntToString(userId),
                                        PayoutMade(txRef, amount, amount - fee, roundId, before, before + amount))]
  {
  }

  /**
   * A failed payout moves no money and writes no audit entry: a missing user
   * leaves the books as they were, any other failure leaves only a FAILED
   * record of one attempt carrying the error.
   */
  lemma PayFailsWithoutMovingMoney(rate: HouseRate, b: Books, userId: int, amount: int, roundId: Option<string>,
                                   reason: string, txRef: string, fault: Option<string>, now: int)
    requires rate.den > 0
    ensures var (b', r) := Pay(rate, b, userId, amount, roundId, reason, txRef, fault, now);
      (r.PayFailed? <==> userId !in b.users || fault.Some?) &&
      (r.PayFailed? ==> b'.users == b.users && b'.pot == b.pot && b'.audit == b.audit) &&
      (userId !in b.users ==> b' == b && r.error == NoRowFound) &&
      (userId in b.users && fault.Some? ==>
        r.error == fault.value &&
        b'.payouts == b.payouts + [FailedPayout(txRef, userId, amount, roundId, fault.value, now)] &&
        b'.payouts[|b.payouts|].status == PayoutStatus.Failed && b'.payouts[|b.payouts|].attempts == 1)
  {
  }

  // ---------------------------------------------------------------------
  // The table's invariant
  // ---------------------------------------------------------------------

  /** Every user row is stored under its own id. */
  ghost predicate UsersKeyed(users: map<int, User>)
  {
    forall u :: u in users ==> users[u].id == u
  }

  /** No two payouts share a reference. */
  ghost predicate RefsUnique(payouts: seq<Payout>)
  {
    forall i, j :: 0 <= i < j < |payouts| ==> payouts[i].txRef != payouts[j].txRef
  }

  /** Payouts are inserted in order of creation time. */
  ghost predicate CreatedInOrder(payouts: seq<Payout>)
  {
    forall i, j :: 0 <= i < j < |payouts| ==> payouts[i].createdAt <= payouts[j].createdAt
  }

  ghost predicate ValidBooks(b: Books)
  {
    UsersKeyed(b.users) && RefsUnique(b.payouts) && CreatedInOrder(b.payouts)
  }

  /** `txRef` is used by no payout yet. */
  ghost predicate FreshRef(payouts: seq<Payout>, txRef: string)
  {
    forall i :: 0 <= i < |payouts| ==> payouts[i].txRef != txRef
  }

  /** `now` is no earlier than the newest payout. */
  ghost predicate NotBefore(payouts: seq<Payout>, now: int)
  {
    forall i :: 0 <= i < |payouts| ==> payouts[i].createdAt <= now
  }

  /** A payout with a fresh reference, at a time no earlier than the last, keeps the books valid. */
  lemma PayKeepsValid(rate: HouseRate, b: Books, userId: int, amount: int, roundId: Option<string>, reason: string,
                      txRef: string, fault: Option<string>, now: int)
    requires rate.den > 0
    requires ValidBooks(b) && FreshRef(b.payouts, txRef) && NotBefore(b.payouts, now)
    ensures ValidBooks(Pay(rate, b, userId, amount, roundId, reason, txRef, fault, now).0)
  {
    var b' := Pay(rate, b, userId, amount, roundId, reason, txRef, fault, now).0;
    if userId in b.users {
      var n := |b.payouts|;
      assert b'.payouts[n].txRef == txRef && b'.payouts[n].createdAt == now;
      forall i, j | 0 <= i < j < |b'.payouts|
        ensures b'.payouts[i].txRef != b'.payouts[j].txRef
        ensures b'.payouts[i].createdAt <= b'.payouts[j].createdAt
      {
        assert b'.payouts[i] == b.payouts[i];
        if j < n {
          assert b'.payouts[j] == b.payouts[j];
        }
      }
    }
  }

  // ---------------------------------------------------------------------
  // The retry pass, as written
  // ---------------------------------------------------------------------

  /** The positions of the FAILED payouts below the attempt cap, in table order: the pass's snapshot. */
  function Retryable(payouts: seq<Payout>, maxAttempts: int): (idx: seq<nat>)
    ensures forall j :: 0 <= j < |idx| ==>
      idx[j] < |payouts| && payouts[idx[j]].status == PayoutStatus.Failed && payouts[idx[j]].attempts < maxAttempts
    ensures forall j, k :: 0 <= j < k < |idx| ==> idx[j] < idx[k]
  {
    if payouts == [] then []
    else
      var n := |payouts| - 1;
      var init := Retryable(payouts[..n], maxAttempts);
      if payouts[n].status == PayoutStatus.Failed && payouts[n].attempts < maxAttempts then init + [n] else init
  }

  /** Every FAILED record below the attempt cap is in the snapshot. */
  lemma {:induction false} RetryableComplete(payouts: seq<Payout>, maxAttempts: int, i: nat)
    requires i < |payouts| && payouts[i].status == PayoutStatus.Failed && payouts[i].attempts < maxAttempts
    ensures i in Retryable(payouts, maxAttempts)
  {
    var n := |payouts| - 1;
    if i < n {
      RetryableComplete(payouts[..n], maxAttempts, i);
    }
  }

  /** The oracle values of one retry: the reference the inner call mints, and the fault that aborts it, if any. */
  datatype Draw = Draw(txRef: string, fault: Option<string>)

  /**
   * One iteration of `retry_failed_payouts` on the payout at position `i`:
   * a fresh `process_payout` for the same user, amount and round with
   * reason "retry", then the original marked DONE, or charged one more
   * attempt with the error.
   */
  function RetryOne(rate: HouseRate, b: Books, i: nat, d: Draw, now: int): (b': Books)
    requires rate.den > 0
    requires i < |b.payouts|
    ensures |b'.payouts| >= |b.payouts|
  {
    var p := b.payouts[i];
    var res := Pay(rate, b, p.userId, p.amount, p.roundId, "retry", d.txRef, d.fault, now);
    assert res.0.payouts[i] == p;
    res.0.(payouts := res.0.payouts[i := Retried(p, res.1, now)])
  }

  /** The original record after its retry returned `r`. */
  function Retried(p: Payout, r: PayoutResult, now: int): Payout
  {
    if r.PayFailed? then p.(attempts := p.attempts + 1, lastError := Some(r.error))
    else p.(status := Done, completedAt := Some(now))
  }

  /**
   * A retry whose inner payout succeeds credits the user the original's
   * amount, marks the original DONE and leaves a second, new DONE record
   * for the same amount.
   */
  lemma RetryOneSucceeds(rate: HouseRate, b: Books, i: nat, d: Draw, now: int)
    requires rate.den > 0
    requires i < |b.payouts| && b.payouts[i].userId in b.users && d.fault.None?
    ensures var p := b.payouts[i];
      var user := b.users[p.userId];
      var b' := RetryOne(rate, b, i, d, now);
      b'.users == b.users[p.userId := user.(balance := user.balance + p.amount)] &&
      b'.pot == b.pot &&
      b'.payouts == b.payouts[i := p.(status := Done, completedAt := Some(now))] +
                    [NewPayout(d.txRef, p.userId, p.amount, p.roundId, now).(status := Done, completedAt := Some(now))]
  {
    var p := b.payouts[i];
    var res := Pay(rate, b, p.userId, p.amount, p.roundId, "retry", d.txRef, d.fault, now);
    assert !Skims(rate, "retry");
    assert res.0.payouts == b.payouts + [NewPayout(d.txRef, p.userId, p.amount, p.roundId, now).(status := Done, completedAt := Some(now))];
  }

  /**
   * A retry whose inner payout fails moves no money, charges the original
   * one more attempt with the error, and leaves a new FAILED record of one
   * attempt for the same amount.
   */
  lemma RetryOneFails(rate: HouseRate, b: Books, i: nat, d: Draw, now: int)
    requires rate.den > 0
    requires i < |b.payouts| && b.payouts[i].userId in b.users && d.fault.Some?
    ensures var p := b.payouts[i];
      var b' := RetryOne(rate, b, i, d, now);
      b'.users == b.users && b'.pot == b.pot &&
      b'.payouts == b.payouts[i := p.(attempts := p.attempts + 1, lastError := d.fault)] +
                    [FailedPayout(d.txRef, p.userId, p.amount, p.roundId, d.fault.value, now)]
  {
    var p := b.payouts[i];
    var res := Pay(rate, b, p.userId, p.amount, p.roundId, "retry", d.txRef, d.fault, now);
    assert res.0.payouts == b.payouts + [FailedPayout(d.txRef, p.userId, p.amount, p.roundId, d.fault.value, now)];
  }

  /** All positions lie inside the table. */
  predicate Inside(idx: seq<nat>, n: nat)
  {
    forall j :: 0 <= j < |idx| ==> idx[j] < n
  }

  /** The retry pass over the positions `idx`, drawing `draws[j]` for the `j`-th. */
  function RetryAll(rate: HouseRate, b: Books, idx: seq<nat>, draws: seq<Draw>, now: int): (b': Books)
    requires rate.den > 0
    requires Inside(idx, |b.payouts|) && |idx| <= |draws|
    ensures |b'.payouts| >= |b.payouts|
    decreases |idx|
  {
    if idx == [] then b
    else RetryAll(rate, RetryOne(rate, b, idx[0], draws[0], now), idx[1..], draws[1..], now)
  }

  /** The retried record itself ends DONE or charged one more attempt. */
  lemma RetryOneRetried(rate: HouseRate, b: Books, i: nat, d: Draw, now: int)
    requires rate.den > 0
    requires i < |b.payouts|
    ensures RetriedFrom(b.payouts[i], RetryOne(rate, b, i, d, now).payouts[i], now)
  {
    var p := b.payouts[i];
    var res := Pay(rate, b, p.userId, p.amount, p.roundId, "retry", d.txRef, d.fault, now);
    assert RetryOne(rate, b, i, d, now).payouts[i] == Retried(p, res.1, now);
  }

  /** `RetryOne` changes no record but its own and the ones it appends. */
  lemma RetryOneLeavesOthers(rate: HouseRate, b: Books, i: nat, d: Draw, now: int, k: nat)
    requires rate.den > 0
    requires i < |b.payouts| && k < |b.payouts| && k != i
    ensures RetryOne(rate, b, i, d, now).payouts[k] == b.payouts[k]
  {
    var p := b.payouts[i];
    var paid := Pay(rate, b, p.userId, p.amount, p.roundId, "retry", d.txRef, d.fault, now).0;
    assert paid.payouts[k] == b.payouts[k];
  }

  /** A retry pass leaves every record it does not retry exactly as it was: the cap is respected. */
  lemma {:induction false} RetryAllLeavesOthers(rate: HouseRate, b: Books, idx: seq<nat>, draws: seq<Draw>,
                                               now: int, k: nat)
    requires rate.den > 0
    requires Inside(idx, |b.payouts|) && |idx| <= |draws|
    requires k < |b.payouts| && forall j :: 0 <= j < |idx| ==> idx[j] != k
    ensures RetryAll(rate, b, idx, draws, now).payouts[k] == b.payouts[k]
    decreases |idx|
  {
    if idx != [] {
      var b1 := RetryOne(rate, b, idx[0], draws[0], now);
      RetryOneLeavesOthers(rate, b, idx[0], draws[0], now, k);
      assert Inside(idx[1..], |b1.payouts|);
      RetryAllLeavesOthers(rate, b1, idx[1..], draws[1..], now, k);
    }
  }

  /** A retry never skims: the pot is the same after the pass. */
  lemma {:induction false} RetryAllSkimsNothing(rate: HouseRate, b: Books, idx: seq<nat>, draws: seq<Draw>,
                                               now: int)
    requires rate.den > 0
    requires Inside(idx, |b.payouts|) && |idx| <= |draws|
    ensures RetryAll(rate, b, idx, draws, now).pot == b.pot
    decreases |idx|
  {
    if idx != [] {
      var b1 := RetryOne(rate, b, idx[0], draws[0], now);
      assert !Skims(rate, "retry");
      assert b1.pot == b.pot;
      RetryAllSkimsNothing(rate, b1, idx[1..], draws[1..], now);
    }
  }

  /** What a retried record becomes: DONE at `now`, or one more attempt with an error. */
  ghost predicate RetriedFrom(p: Payout, q: Payout, now: int)
  {
    q == p.(status := Done, completedAt := Some(now)) ||
    (q.lastError.Some? && q == p.(attempts := p.attempts + 1, lastError := q.lastError))
  }

  /** Every record a pass retries ends DONE or charged one more attempt. */
  lemma {:induction false} RetryAllRetries(rate: HouseRate, b: Books, idx: seq<nat>, draws: seq<Draw>,
                                          now: int, j: nat)
    requires rate.den > 0
    requires Inside(idx, |b.payouts|) && |idx| <= |draws|
    requires forall x, y :: 0 <= x < y < |idx| ==> idx[x] != idx[y]
    requires j < |idx|
    ensures RetriedFrom(b.payouts[idx[j]], RetryAll(rate, b, idx, draws, now).payouts[idx[j]], now)
    decreases |idx|
  {
    var b1 := RetryOne(rate, b, idx[0], draws[0], now);
    assert Inside(idx[1..], |b1.payouts|);
    assert RetryAll(rate, b, idx, draws, now) == RetryAll(rate, b1, idx[1..], draws[1..], now);
    if j == 0 {
      RetryOneRetried(rate, b, idx[0], draws[0], now);
      assert forall x :: 0 <= x < |idx[1..]| ==> idx[1..][x] == idx[x + 1] != idx[0];
      RetryAllLeavesOthers(rate, b1, idx[1..], draws[1..], now, idx[0]);
    } else {
      RetryOneLeavesOthers(rate, b, idx[0], draws[0], now, idx[j]);
      assert idx[1..][j - 1] == idx[j];
      RetryAllRetries(rate, b1, idx[1..], draws[1..], now, j - 1);
    }
  }

  /** The references the draws mint are new and pairwise distinct. */
  ghost predicate FreshDraws(payouts: seq<Payout>, draws: seq<Draw>)
  {
    (forall j :: 0 <= j < |draws| ==> FreshRef(payouts, draws[j].txRef)) &&
    (forall j, k :: 0 <= j < k < |draws| ==> draws[j].txRef != draws[k].txRef)
  }

  /** One retry keeps the books valid and the remaining draws fresh. */
  lemma RetryOneKeepsValid(rate: HouseRate, b: Books, i: nat, draws: seq<Draw>, now: int)
    requires rate.den > 0
    requires i < |b.payouts| && |draws| > 0
    requires ValidBooks(b) && FreshDraws(b.payouts, draws) && NotBefore(b.payouts, now)
    ensures var b' := RetryOne(rate, b, i, draws[0], now);
      ValidBooks(b') && FreshDraws(b'.payouts, draws[1..]) && NotBefore(b'.payouts, now)
  {
    var p := b.payouts[i];
    var d := draws[0];
    var paid := Pay(rate, b, p.userId, p.amount, p.roundId, "retry", d.txRef, d.fault, now).0;
    PayKeepsValid(rate, b, p.userId, p.amount, p.roundId, "retry", d.txRef, d.fault, now);
    var b' := RetryOne(rate, b, i, d, now);
    assert b'.users == paid.users;
    forall x | 0 <= x < |b'.payouts|
      ensures b'.payouts[x].txRef == paid.payouts[x].txRef && b'.payouts[x].createdAt == paid.payouts[x].createdAt
    {
    }
    forall x | 0 <= x < |paid.payouts|
      ensures paid.payouts[x].createdAt <= now
      ensures forall j :: 1 <= j < |draws| ==> paid.payouts[x].txRef != draws[j].txRef
    {
      if x < |b.payouts| {
        assert paid.payouts[x] == b.payouts[x];
      }
    }
  }

  /** A pass over the snapshot with fresh references keeps the books valid. */
  lemma {:induction false} RetryAllKeepsValid(rate: HouseRate, b: Books, idx: seq<nat>, draws: seq<Draw>, now: int)
    requires rate.den > 0
    requires Inside(idx, |b.payouts|) && |idx| <= |draws|
    requires ValidBooks(b) && FreshDraws(b.payouts, draws) && NotBefore(b.payouts, now)
    ensures ValidBooks(RetryAll(rate, b, idx, draws, now))
    decreases |idx|
  {
    if idx != [] {
      var b1 := RetryOne(rate, b, idx[0], draws[0], now);
      RetryOneKeepsValid(rate, b, idx[0], draws, now);
      assert Inside(idx[1..], |b1.payouts|);
      RetryAllKeepsValid(rate, b1, idx[1..], draws[1..], now);
    }
  }

  // ---------------------------------------------------------------------
  // Retrying on the original record
  // ---------------------------------------------------------------------

  /**
   * A retry that reuses the failed record, as a retry keyed by the record's
   * own reference would: the credit, when it succeeds, is booked on the
   * original, which becomes DONE; a failure charges it one more attempt.
   * No record is minted.
   */
  function RetryOneInPlace(b: Books, i: nat, fault: Option<string>, now: int): (b': Books)
    requires i < |b.payouts|
    ensures |b'.payouts| == |b.payouts|
  {
    var p := b.payouts[i];
    if p.userId !in b.users then
      b.(payouts := b.payouts[i := p.(attempts := p.attempts + 1, lastError := Some(NoRowFound))])
    else if fault.Some? then
      b.(payouts := b.payouts[i := p.(attempts := p.attempts + 1, lastError := fault)])
    else
      var user := b.users[p.userId];
      var newBalance := user.balance + p.amount;
      var entry := AuditEntry(System, "payout_retry", IntToString(p.userId),
                              PayoutMade(p.txRef, p.amount, p.amount, p.roundId, user.balance, newBalance));
      Books(b.users[p.userId := user.(balance := newBalance)], b.pot,
            b.payouts[i := p.(status := Done, completedAt := Some(now))], b.audit + [entry])
  }

  /** The pass over `idx` retrying in place, with `faults[j]` aborting the `j`-th retry. */
  function RetryAllInPlace(b: Books, idx: seq<nat>, faults: seq<Option<string>>, now: int): (b': Books)
    requires Inside(idx, |b.payouts|) && |idx| <= |faults|
    ensures |b'.payouts| == |b.payouts|
    decreases |idx|
  {
    if idx == [] then b
    else RetryAllInPlace(RetryOneInPlace(b, idx[0], faults[0], now), idx[1..], faults[1..], now)
  }

  /** The total amount of a user's DONE payouts. */
  function PaidOut(payouts: seq<Payout>, userId: int): int
  {
    if payouts == [] then 0
    else
      var n := |payouts| - 1;
      PaidOut(payouts[..n], userId) + Contribution(payouts[n], userId)
  }

  /** What one record adds to a user's total paid out. */
  function Contribution(p: Payout, userId: int): int
  {
    if p.userId == userId && p.status == Done then p.amount else 0
  }

  /** Replacing one record changes the total by the difference of the two records' contributions. */
  lemma {:induction false} PaidOutUpdate(payouts: seq<Payout>, i: nat, q: Payout, userId: int)
    requires i < |payouts|
    ensures PaidOut(payouts[i := q], userId)
         == PaidOut(payouts, userId) - Contribution(payouts[i], userId) + Contribution(q, userId)
  {
    var n := |payouts| - 1;
    var s := payouts[i := q];
    assert s[..n] == if i < n then payouts[..n][i := q] else payouts[..n];
    if i < n {
      PaidOutUpdate(payouts[..n], i, q, userId);
    }
  }

  /** The money a user holds beyond what the payout table says they were paid. */
  function Unbooked(b: Books, userId: int): int
    requires userId in b.users
  {
    b.users[userId].balance - PaidOut(b.payouts, userId)
  }

  /**
   * Retrying a FAILED record in place moves a user's balance exactly as
   * the DONE payouts move: every credit is backed by one record turning
   * DONE, so no payout is credited twice.
   */
  lemma RetryOneInPlaceBooksEveryCredit(b: Books, i: nat, fault: Option<string>, now: int, userId: int)
    requires i < |b.payouts| && b.payouts[i].status == PayoutStatus.Failed
    requires userId in b.users
    ensures var b' := RetryOneInPlace(b, i, fault, now);
      userId in b'.users && Unbooked(b', userId) == Unbooked(b, userId)
  {
    var p := b.payouts[i];
    var b' := RetryOneInPlace(b, i, fault, now);
    var q := b'.payouts[i];
    assert b'.payouts == b.payouts[i := q];
    PaidOutUpdate(b.payouts, i, q, userId);
  }

  /** Records the in-place retry leaves alone are unchanged. */
  lemma {:induction false} RetryAllInPlaceLeavesOthers(b: Books, idx: seq<nat>, faults: seq<Option<string>>,
                                                      now: int, k: nat)
    requires Inside(idx, |b.payouts|) && |idx| <= |faults|
    requires k < |b.payouts| && forall j :: 0 <= j < |idx| ==> idx[j] != k
    ensures RetryAllInPlace(b, idx, faults, now).payouts[k] == b.payouts[k]
    decreases |idx|
  {
    if idx != [] {
      var b1 := RetryOneInPlace(b, idx[0], faults[0], now);
      RetryAllInPlaceLeavesOthers(b1, idx[1..], faults[1..], now, k);
    }
  }

  /**
   * A whole in-place pass over distinct FAILED records keeps every user's
   * unbooked money: the users' balances rise by exactly the amounts of the
   * records it turns DONE.
   */
  lemma {:induction false} RetryAllInPlaceBooksEveryCredit(b: Books, idx: seq<nat>, faults: seq<Option<string>>,
                                                          now: int, userId: int)
    requires Inside(idx, |b.payouts|) && |idx| <= |faults|
    requires forall x, y :: 0 <= x < y < |idx| ==> idx[x] != idx[y]
    requires forall j :: 0 <= j < |idx| ==> b.payouts[idx[j]].status == PayoutStatus.Failed
    requires userId in b.users
    ensures var b' := RetryAllInPlace(b, idx, faults, now);
      userId in b'.users && Unbooked(b', userId) == Unbooked(b, userId)
    decreases |idx|
  {
    if idx != [] {
      var b1 := RetryOneInPlace(b, idx[0], faults[0], now);
      RetryOneInPlaceBooksEveryCredit(b, idx[0], faults[0], now, userId);
      forall j | 0 <= j < |idx[1..]| ensures b1.payouts[idx[1..][j]].status == PayoutStatus.Failed {
        assert idx[1..][j] == idx[j + 1] != idx[0];
      }
      RetryAllInPlaceBooksEveryCredit(b1, idx[1..], faults[1..], now, userId);
    }
  }

  // ---------------------------------------------------------------------
  // The double credit of the pass as written
  // ---------------------------------------------------------------------

  /** One user with an empty balance, owed a single payout of 100 whose first attempt failed. */
  function OwedOnce(): Books
  {
    var user := User(1, 42, None, 0, None);
    var owed := Payout("t0", 1, 100, None, PayoutStatus.Failed, 1, Some("timeout"), 0, None);
    Books(map[1 := user], None, [owed], [])
  }

  /**
   * Under the pass as written a single failed payout of 100 is credited
   * twice: a first pass whose retry fails mints a second FAILED record for
   * the same amount, and a second pass retries both.
   */
  lemma RetryAsWrittenCreditsTwice()
    ensures var b0 := OwedOnce();
      Retryable(b0.payouts, 3) == [0] &&
      var b1 := RetryAll(DefaultHouseRate, b0, [0], [Draw("t1", Some("timeout"))], 1);
      Retryable(b1.payouts, 3) == [0, 1] &&
      var b2 := RetryAll(DefaultHouseRate, b1, [0, 1], [Draw("t2", None), Draw("t3", None)], 2);
      b0.users[1].balance == 0 && 1 in b2.users && b2.users[1].balance == 200
  {
    OwedOnceRetryable();
    RetryAllOne(DefaultHouseRate, OwedOnce(), 0, [Draw("t1", Some("timeout"))], 1);
    AsWrittenFirstPass();
    AsWrittenSecondPass();
  }

  /** The second pass retries the original and the record the first pass minted, crediting 100 for each. */
  lemma AsWrittenSecondPass()
    ensures var b1 := RetryOne(DefaultHouseRate, OwedOnce(), 0, Draw("t1", Some("timeout")), 1);
      |b1.payouts| == 2 &&
      var b2 := RetryAll(DefaultHouseRate, b1, [0, 1], [Draw("t2", None), Draw("t3", None)], 2);
      1 in b2.users && b2.users[1].balance == 200
  {
    var rate := DefaultHouseRate;
    var b1 := RetryOne(rate, OwedOnce(), 0, Draw("t1", Some("timeout")), 1);
    AsWrittenFirstPass();
    var b2 := RetryOne(rate, b1, 0, Draw("t2", None), 2);
    RetryOneSucceeds(rate, b1, 0, Draw("t2", None), 2);
    RetryOneSucceeds(rate, b2, 1, Draw("t3", None), 2);
    RetryAllTwo(rate, b1, 0, 1, [Draw("t2", None), Draw("t3", None)], 2);
  }

  /** The first pass's snapshot of `OwedOnce` is its one record. */
  lemma OwedOnceRetryable()
    ensures Retryable(OwedOnce().payouts, 3) == [0]
  {
    assert OwedOnce().payouts[..0] == [];
  }

  /** After the failed first retry: the original charged twice, plus a new FAILED record of 100. */
  lemma AsWrittenFirstPass()
    ensures var b1 := RetryOne(DefaultHouseRate, OwedOnce(), 0, Draw("t1", Some("timeout")), 1);
      b1.users == OwedOnce().users && |b1.payouts| == 2 &&
      b1.payouts[0].userId == 1 && b1.payouts[0].amount == 100 &&
      b1.payouts[1].userId == 1 && b1.payouts[1].amount == 100 &&
      Retryable(b1.payouts, 3) == [0, 1]
  {
    var b1 := RetryOne(DefaultHouseRate, OwedOnce(), 0, Draw("t1", Some("timeout")), 1);
    RetryOneFails(DefaultHouseRate, OwedOnce(), 0, Draw("t1", Some("timeout")), 1);
    assert b1.payouts[0].status == PayoutStatus.Failed && b1.payouts[0].attempts == 2;
    assert b1.payouts[1].status == PayoutStatus.Failed && b1.payouts[1].attempts == 1;
    assert b1.payouts == [b1.payouts[0], b1.payouts[1]];
    RetryableBothFailed(b1.payouts[0], b1.payouts[1]);
  }

  /** Two FAILED records, each with attempts left, are both retried, in table order. */
  lemma RetryableBothFailed(p0: Payout, p1: Payout)
    requires p0.status == PayoutStatus.Failed && p0.attempts < 3
    requires p1.status == PayoutStatus.Failed && p1.attempts < 3
    ensures Retryable([p0, p1], 3) == [0, 1]
  {
    RetryableSnoc([], p0, 3);
    assert [] + [p0] == [p0];
    RetryableSnoc([p0], p1, 3);
    assert [p0] + [p1] == [p0, p1];
  }

  /** Appending a record extends the snapshot by its position exactly when it is retryable. */
  lemma RetryableSnoc(payouts: seq<Payout>, p: Payout, maxAttempts: int)
    ensures Retryable(payouts + [p], maxAttempts)
         == Retryable(payouts, maxAttempts) +
            (if p.status == PayoutStatus.Failed && p.attempts < maxAttempts then [|payouts|] else [])
  {
    assert (payouts + [p])[..|payouts|] == payouts;
  }

  /** A pass over one position is that position's retry. */
  lemma RetryAllOne(rate: HouseRate, b: Books, i: nat, draws: seq<Draw>, now: int)
    requires rate.den > 0
    requires i < |b.payouts| && |draws| >= 1
    ensures RetryAll(rate, b, [i], draws, now) == RetryOne(rate, b, i, draws[0], now)
  {
    assert [i][1..] == [];
  }

  /** A pass over two positions is their two retries in order. */
  lemma RetryAllTwo(rate: HouseRate, b: Books, i: nat, k: nat, draws: seq<Draw>, now: int)
    requires rate.den > 0
    requires i < |b.payouts| && k < |b.payouts| && |draws| >= 2
    ensures RetryAll(rate, b, [i, k], draws, now)
         == RetryOne(rate, RetryOne(rate, b, i, draws[0], now), k, draws[1], now)
  {
    var b1 := RetryOne(rate, b, i, draws[0], now);
    assert [i, k][1..] == [k];
    RetryAllOne(rate, b1, k, draws[1..], now);
  }

  /**
   * Even when the retry succeeds, the pass as written books the debt twice:
   * the original record turns DONE and the retry mints a second DONE record,
   * so the user's balance minus their DONE total drops from 0 to -100.
   */
  lemma RetrySucceedsAsWrittenBooksTwice()
    ensures var b0 := OwedOnce();
      var b1 := RetryOne(DefaultHouseRate, b0, 0, Draw("t1", None), 1);
      b0.users[1].balance - PaidOut(b0.payouts, 1) == 0 &&
      1 in b1.users && |b1.payouts| == 2 &&
      b1.users[1].balance - PaidOut(b1.payouts, 1) == -100
  {
    var b0 := OwedOnce();
    var b1 := RetryOne(DefaultHouseRate, b0, 0, Draw("t1", None), 1);
    RetryOneSucceeds(DefaultHouseRate, b0, 0, Draw("t1", None), 1);
    assert b0.payouts[..0] == [];
    assert b1.payouts == [b1.payouts[0], b1.payouts[1]];
    PaidOutPair(b1.payouts[0], b1.payouts[1], 1);
  }

  /** The DONE total of a two-record table. */
  lemma PaidOutPair(q0: Payout, q1: Payout, userId: int)
    ensures PaidOut([q0, q1], userId) == Contribution(q0, userId) + Contribution(q1, userId)
  {
    assert [q0][..0] == [];
    assert PaidOut([q0], userId) == Contribution(q0, userId);
    assert [q0, q1][..1] == [q0];
  }

  /** The same two passes retrying in place credit the payout once. */
  lemma RetryInPlaceCreditsOnce()
    ensures var b0 := OwedOnce();
      Retryable(b0.payouts, 3) == [0] &&
      var b1 := RetryAllInPlace(b0, [0], [Some("timeout")], 1);
      Retryable(b1.payouts, 3) == [0] &&
      var b2 := RetryAllInPlace(b1, [0], [None, None], 2);
      1 in b2.users && b2.users[1].balance == 100 && |b2.payouts| == 1 && b2.payouts[0].status == Done
  {
    OwedOnceRetryable();
    var b1 := RetryOneInPlace(OwedOnce(), 0, Some("timeout"), 1);
    RetryAllInPlaceOne(OwedOnce(), 0, [Some("timeout")], 1);
    InPlaceFirstPass();
    RetryAllInPlaceOne(b1, 0, [None, None], 2);
  }

  /** After the failed first in-place retry: the original charged twice, nothing minted, no money moved. */
  lemma InPlaceFirstPass()
    ensures var b1 := RetryOneInPlace(OwedOnce(), 0, Some("timeout"), 1);
      b1.users == OwedOnce().users && |b1.payouts| == 1 && b1.payouts[0].userId == 1 &&
      b1.payouts[0].amount == 100 && Retryable(b1.payouts, 3) == [0]
  {
    var b1 := RetryOneInPlace(OwedOnce(), 0, Some("timeout"), 1);
    assert b1.payouts[0].attempts == 2;
    assert b1.payouts[..0] == [];
  }

  /** An in-place pass over one position is that position's retry. */
  lemma RetryAllInPlaceOne(b: Books, i: nat, faults: seq<Option<string>>, now: int)
    requires i < |b.payouts| && |faults| >= 1
    ensures RetryAllInPlace(b, [i], faults, now) == RetryOneInPlace(b, i, faults[0], now)
  {
    assert [i][1..] == [];
  }

  // ---------------------------------------------------------------------
  // The history
  // ---------------------------------------------------------------------

  /** `get_payout_history`: the user's payouts, newest first, at most `limit`. */
  function PayoutHistory(payouts: seq<Payout>, userId: int, limit: nat): (r: seq<Payout>)
    requires CreatedInOrder(payouts)
    ensures |r| == Min(limit, |Filter(payouts, (p: Payout) => p.userId == userId)|)
    ensures forall p :: p in r ==> p in payouts && p.userId == userId
    ensures forall i, j :: 0 <= i < j < |r| ==> r[i].createdAt >= r[j].createdAt
    ensures forall p, q :: p in payouts && p.userId == userId && p !in r && q in r ==> p.createdAt <= q.createdAt
  {
    var keep := (p: Payout) => p.userId == userId;
    var time := (p: Payout) => p.createdAt;
    assert TimesAscend(payouts, time);
    NewestFirstFromTable(payouts, keep, limit);
    NewestFirstDescending(payouts, keep, limit, time);
    NewestFirstKeepsNewest(payouts, keep, limit, time);
    NewestFirst(payouts, keep, limit)
  }

  // ---------------------------------------------------------------------
  // The service
  // ---------------------------------------------------------------------

  /** `PayoutService`: the house rate and the tables it reads and writes. */
  class PayoutService {
    const rate: HouseRate
    var users: map<int, User>
    var pot: Option<Pot>
    var payouts: seq<Payout>
    var audit: seq<AuditEntry>

    /** The tables as one value. */
    function Tables(): Books
      reads this
    {
      Books(users, pot, payouts, audit)
    }

    ghost predicate Valid()
      reads this
    {
      rate.den > 0 && ValidBooks(Tables())
    }

    constructor (rate: HouseRate, users: map<int, User>)
      requires rate.den > 0 && UsersKeyed(users)
      ensures Valid()
      ensures this.rate == rate && this.users == users
      ensures pot.None? && payouts == [] && audit == []
    {
      this.rate := rate;
      this.users := users;
      pot := None;
      payouts := [];
      audit := [];
    }

    /**
     * `process_payout`; `txRef` is the fresh reference the call mints,
     * `fault` the error that aborts its transaction after the record is
     * created, if any, and `now` the database clock.
     */
    method ProcessPayout(userId: int, amount: int, roundId: Option<string>, reason: string,
                         txRef: string, fault: Option<string>, now: int)
      returns (r: PayoutResult)
      requires Valid()
      requires FreshRef(payouts, txRef) && NotBefore(payouts, now)
      modifies this
      ensures (Tables(), r) == Pay(rate, old(Tables()), userId, amount, roundId, reason, txRef, fault, now)
      ensures Valid()
    {
      PayKeepsValid(rate, Tables(), userId, amount, roundId, reason, txRef, fault, now);
      if userId !in users {
        return PayFailed(NoRowFound, txRef);
      }
      var payout := NewPayout(txRef, userId, amount, roundId, now);
      if fault.Some? {
        // the transaction is rolled back; only the failed record is kept
        payout := payout.(status := PayoutStatus.Failed, lastError := fault, attempts := payout.attempts + 1);
        payouts := payouts + [payout];
        return PayFailed(fault.value, txRef);
      }
      var user := users[userId];
      var oldBalance := user.balance;
      user := user.(balance := user.balance + amount);
      users := users[userId := user];
      var newBalance := user.balance;
      var netAmount;
      if reason == "win" && rate.num > 0 {
        var houseFee := TruncDiv(amount * rate.num, rate.den);
        AddToPot(houseFee);
        netAmount := amount - houseFee;
      } else {
        netAmount := amount;
      }
      payout := payout.(status := Done, completedAt := Some(now));
      payouts := payouts + [payout];
      var auditLog := AuditEntry(System, "payout_" + reason, IntToString(userId),
                                 PayoutMade(txRef, amount, netAmount, roundId, oldBalance, newBalance));
      audit := audit + [auditLog];
      r := Paid(txRef, amount, netAmount, newBalance);
    }

    /** `_add_to_pot`: creates the pot row at 0 if there is none, then adds `amount`. */
    method AddToPot(amount: int)
      modifies this
      ensures pot == Some(AddedToPot(old(pot), amount))
      ensures PotBalance(pot) == PotBalance(old(pot)) + amount
      ensures users == old(users) && payouts == old(payouts) && audit == old(audit)
    {
      var row := NewPot();
      if pot.Some? {
        row := pot.value;
      }
      row := row.(balance := row.balance + amount);
      pot := Some(row);
    }

    /**
     * `retry_failed_payouts`: takes the snapshot of FAILED payouts below the
     * cap, then retries each with reason "retry"; `draws[j]` are the
     * reference and the fault of the `j`-th inner call.
     */
    method RetryFailedPayouts(maxAttempts: int, draws: seq<Draw>, now: int)
      requires Valid()
      requires |Retryable(payouts, maxAttempts)| <= |draws|
      requires FreshDraws(payouts, draws) && NotBefore(payouts, now)
      modifies this
      ensures Tables() == RetryAll(rate, old(Tables()), Retryable(old(payouts), maxAttempts), draws, now)
      ensures Valid()
    {
      var failedPayouts := Retryable(payouts, maxAttempts);
      RetryEach(failedPayouts, draws, now);
    }

    /** The loop of `retry_failed_payouts` over the snapshot `failedPayouts`. */
    method RetryEach(failedPayouts: seq<nat>, draws: seq<Draw>, now: int)
      requires Valid()
      requires Inside(failedPayouts, |payouts|) && |failedPayouts| <= |draws|
      requires FreshDraws(payouts, draws) && NotBefore(payouts, now)
      modifies this
      ensures Tables() == RetryAll(rate, old(Tables()), failedPayouts, draws, now)
      ensures Valid()
    {
      for j := 0 to |failedPayouts|
        invariant Valid()
        invariant Inside(failedPayouts[j..], |payouts|)
        invariant FreshDraws(payouts, draws[j..]) && NotBefore(payouts, now)
        invariant RetryAll(rate, Tables(), failedPayouts[j..], draws[j..], now)
               == RetryAll(rate, old(Tables()), failedPayouts, draws, now)
      {
        assert draws[j..][0] == draws[j] && draws[j..][1..] == draws[j + 1..];
        assert failedPayouts[j..][0] == failedPayouts[j] && failedPayouts[j..][1..] == failedPayouts[j + 1..];
        RetryAt(failedPayouts[j], draws[j..], now);
      }
    }

    /**
     * The body of the retry loop for the payout at position `i`: a fresh
     * `ProcessPayout` with reason "retry", then the original updated;
     * `draws[0]` is this retry's draw.
     */
    method RetryAt(i: nat, draws: seq<Draw>, now: int)
      requires Valid()
      requires i < |payouts| && |draws| > 0
      requires FreshDraws(payouts, draws) && NotBefore(payouts, now)
      modifies this
      ensures Tables() == RetryOne(rate, old(Tables()), i, draws[0], now)
      ensures Valid()
      ensures FreshDraws(payouts, draws[1..]) && NotBefore(payouts, now)
    {
      RetryOneKeepsValid(rate, Tables(), i, draws, now);
      var payout := payouts[i];
      var result := ProcessPayout(payout.userId, payout.amount, payout.roundId, "retry",
                                  draws[0].txRef, draws[0].fault, now);
      if result.PayFailed? {
        payout := payout.(attempts := payout.attempts + 1, lastError := Some(result.error));
      } else {
        payout := payout.(status := Done, completedAt := Some(now));
      }
      payouts := payouts[i := payout];
    }

    /** `get_payout_history`. */
    function GetPayoutHistory(userId: int, limit: nat): (r: seq<Payout>)
      requires Valid()
      reads this
      ensures |r| == Min(limit, |Filter(payouts, (p: Payout) => p.userId == userId)|)
      ensures forall p :: p in r ==> p in payouts && p.userId == userId
      ensures forall i, j :: 0 <= i < j < |r| ==> r[i].createdAt >= r[j].createdAt
      ensures forall p, q :: p in payouts && p.userId == userId && p !in r && q in r ==> p.createdAt <= q.createdAt
    {
      PayoutHistory(payouts, userId, limit)
    }
  }
}
