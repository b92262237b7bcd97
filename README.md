# Provably fair lottery core, modelled in Dafny

This project models the core of a Telegram lottery bot in Dafny and proves
properties of the model. The bot draws six digits per round from an
HMAC-SHA256 stream keyed by a committed server seed. It lets admins force a
round's outcome once enough of them confirm it. It pays winners from a
ledger that skims a house fee into a pot. A command-line tool lets anyone
check a revealed seed against its commitment.

The modules follow the repository's files:

- `Wrappers` (`wrappers.dfy`): `Option` and `Result`.
- `Primitives` (`primitives.dfy`): bytes, UTF-8 encoding, lower-case hex, the
  SHA-256-hex commitment, the 4-byte big-endian counter and decimal text.
  SHA-256 and HMAC-SHA256 are functions held in a `CryptoSuite` value.
- `Models` (`models.dfy`): the database rows and their column defaults.
- `Convert` (`convert.dfy`): `bytes_to_digits_unbiased` and `hmac_to_digits`.
- `RngService` (`rng_service.dfy`):
  - seed generation;
  - digit computation with rejection sampling;
  - round verification;
  - the forced-outcome seed search;
  - the encrypted seed table (`SeedTable`).
- `Queries` (`queries.dfy`): the "filter, newest first, limit" query that both
  history views run.
- `ForceFlow` (`force_flow.dfy`): the forced-outcome workflow.
  - Each call is described as a step function on the tables.
  - `ForceFlowService` is the class whose methods update those tables and are
    proved equal to the step functions.
- `PayoutLedger` (`payout_service.dfy`): payouts, the house fee, the pot, the
  retry pass and the payout history.
  - Each call is described as a function on the tables.
  - `PayoutService` is the class whose methods update the tables and are
    proved equal to those functions.
- `VerifyCli` (`verify_cli.dfy`): the public verification tool, as a verdict
  plus an exit code.

## Model

| member | source | states |
|---|---|---|
| Primitives.Utf8Append | src/services/rng_service.py:44-46 | Encoding a concatenation is the concatenation of the encodings, so `round_id + client_seed` may be encoded either way |
| Primitives.UnhexHex | src/services/rng_service.py:17 | A `token_hex` seed decodes back to the exact entropy bytes it was made from |
| Primitives.HexInjective | src/services/rng_service.py:18 | Different digests have different hex digests |
| Primitives.Commitment | src/services/rng_service.py:18 | A commitment is always 64 characters long |
| Primitives.CommitmentsEqualIffDigestsEqual | src/services/rng_service.py:90-92 | Two seeds' commitments agree exactly when the SHA-256 digests of their UTF-8 encodings agree |
| Primitives.BigEndian4RoundTrip | src/services/rng_service.py:56 | The 4-byte big-endian counter encoding loses nothing for any counter below 2^32 |
| Primitives.IntToStringInjective | src/services/payout_service.py:60 | Distinct user ids give distinct audit targets |
| Primitives.NatToStringInjective | src/admin/force_flow.py:91 | Distinct non-negative numbers have distinct decimal texts |
| Models.ParseForcedActionStatus | src/db/models.py:8-12 | A status string parses exactly when it is one of the four enum values, and printing the parsed value gives the same text |
| Models.ForcedActionStatusRoundTrip | src/db/models.py:8-12 | Printing a forced-action status and parsing it gives the status back |
| Models.ParsePayoutStatus | src/db/models.py:14-17 | A payout status string parses exactly when it is "pending", "done" or "failed", and parsing inverts printing |
| Models.PayoutStatusRoundTrip | src/db/models.py:14-17 | Printing a payout status and parsing it gives the status back |
| Models.NewUser | src/db/models.py:19-28 | A new user starts with balance 0 and no client seed |
| Models.NewSeedRecord | src/db/models.py:42-54 | A new seed row is unrevealed, allows a client seed, and keeps the given round, commitment, ciphertext and tag |
| Models.NewForcedAction | src/db/models.py:56-68 | A new forced action is PENDING with no confirmations, no applied round and 2 required confirmations |
| Models.NewPayout | src/db/models.py:70-82 | A new payout is PENDING, attempted 0 times, with no error and no completion time |
| Models.NewPot | src/db/models.py:94-99 | A new pot holds 0 |
| Convert.AcceptedDigitsRange | src/utils/convert.py:23-26 | Every accepted digit lies in 0..9 |
| Convert.AcceptedDigitsAppend | src/utils/convert.py:14-26 | Rejection sampling is compositional: the digits of `a + b` are those of `a` followed by those of `b` |
| Convert.AcceptedDigitsAt | src/utils/convert.py:23-26 | A byte below 250 contributes exactly its value mod 10 at the next digit position, and a byte of 250 or more contributes nothing |
| Convert.ChainPrefix | src/utils/convert.py:15-18 | Extending by re-hashing only appends bytes, so the bytes already read are never revised |
| Convert.UnbiasedDigits | src/utils/convert.py:5-28 | The result has exactly `max(num_digits, 0)` digits, each in 0..9 |
| Convert.UnbiasedDigitsAnyLength | src/utils/convert.py:14-26 | The result is the first `num_digits` accepted digits of the hash chain, however many extra blocks are looked at |
| Convert.NoHashingWhenInputSuffices | src/utils/convert.py:14-18 | When the input alone holds enough acceptable bytes, no hash is taken and the result is its first accepted digits |
| Convert.RejectionExample | tests/test_rng.py:49-55 | The bytes 1,251,2,252,3,253,4,254,5,255,6,0 give the digits 1,2,3,4,5,6 whatever the hash |
| Convert.BytesToDigitsUnbiased | src/utils/convert.py:5-28 | The loop returns the reference definition `UnbiasedDigits` of the rejection-sampled hash chain |
| Convert.HmacToDigits | src/utils/convert.py:30-36 | Returns the unbiased digits of the HMAC-SHA256 of the message keyed by the UTF-8 seed |
| RngService.Message | src/services/rng_service.py:44-46 | The HMAC message is the round id, followed by the client seed when one is given |
| RngService.MacStreamPrefix | src/services/rng_service.py:54-69 | The MAC blocks for counters 0..i-1 are a prefix of those for 0..j-1 |
| RngService.FirstSix | src/services/rng_service.py:54 | Succeeds exactly when there are at least six digits, and then returns the first six |
| RngService.RoundDigits | src/services/rng_service.py:38-71 | A round that is computed has exactly six digits, each in 0..9 |
| RngService.StreamDigitsDecidedEarly | src/services/rng_service.py:54-69 | Once some prefix of the MAC stream holds six accepted bytes, the round's digits are its first six, whatever later blocks hold |
| RngService.EmptyClientSeedIsNoClientSeed | src/services/rng_service.py:45 | An empty client seed gives the same digits as no client seed |
| RngService.CappedAppend | src/services/rng_service.py:60-67 | Stopping at six digits and then continuing gives the same six digits as continuing first and stopping at the end |
| RngService.ScanMac | src/services/rng_service.py:60-67 | The inner byte loop appends the accepted digits of one MAC and stops at six |
| RngService.CollectedIsCappedStream | src/services/rng_service.py:54-69 | After n counter values, the digits collected are the first six accepted digits of the first n MAC blocks |
| RngService.CollectDigits | src/services/rng_service.py:51-71 | The counter loop returns the first six accepted digits of the MAC stream, or the overflow error when the counter would need a fifth byte |
| RngService.ComputeDigits | src/services/rng_service.py:38-71 | `compute_digits` returns `RoundDigits` of its seed, round and client seed |
| RngService.GenerateServerSeed | src/services/rng_service.py:15-19 | The seed is the 64-character hex of 32 entropy bytes, and the second value is that seed's commitment |
| RngService.VerifyRoundAgreesWithComputeDigits | src/services/rng_service.py:102-117 | With expected digits, `verify_round` reports the seed's commitment and the round's digits, and is valid exactly when the expectation equals them |
| RngService.VerifyRoundWithoutExpectation | src/services/rng_service.py:112-115 | Without expected digits, or with an empty list, every computed round is valid |
| RngService.TargetsPartitionDigits | src/services/rng_service.py:133-142 | Every digit is exactly one of small or big, and exactly one of even or odd |
| RngService.TryDraw | src/services/rng_service.py:128-144 | A draw is accepted exactly when its round computes and its last digit meets the target, and then yields the seed and its commitment |
| RngService.GrindFirst | src/services/rng_service.py:125-148 | The search returns what the first draw that does not miss produces, and every draw before it missed |
| RngService.GrindNoneIff | src/services/rng_service.py:125-148 | The search finds nothing exactly when every one of the first `max_attempts` draws missed |
| RngService.GrindUsesFirstDraws | src/services/rng_service.py:127 | Only the first `max_attempts` draws matter |
| RngService.ForcedSeedSound | src/services/rng_service.py:119-148 | A returned seed comes from some draw i: its round computes, its last digit meets the target, the commitment is its own, and every earlier draw missed |
| RngService.ForcedSeedNoneIff | src/services/rng_service.py:119-148 | The search returns None exactly when every allowed draw computes and misses the target |
| RngService.ForcedSeedUnknownTarget | src/services/rng_service.py:133-148 | A target other than small, big, even or odd never yields a seed |
| RngService.GenerateForcedSeed | src/services/rng_service.py:119-148 | The attempt loop returns the search's specified outcome |
| RngService.SeedTable.constructor | src/db/models.py:42-46 | A new seed table is empty and valid, with every row stored under its own round id |
| RngService.SeedTable.EncryptAndStoreSeed | src/services/rng_service.py:21-36 | Stores one new row under the round id with the ciphertext of the seed; a round id already present is refused and nothing changes |
| RngService.SeedTable.RevealSeed | src/services/rng_service.py:77-100 | Unknown round gives None; a revealed row gives its plaintext and is left alone; otherwise a seed whose commitment differs is refused, and a matching one is stamped with the time and its hash |
| Queries.Filter | src/admin/force_flow.py:133-135 | The rows kept are exactly the table's rows that satisfy the condition |
| Queries.Reverse | src/admin/force_flow.py:144 | The i-th row of the result is the i-th row from the end of the table |
| Queries.ReverseSnoc | src/admin/force_flow.py:144 | Reversing a table with one more row puts that row first |
| Queries.NewestFirst | src/admin/force_flow.py:139-146 | The result is the matching rows in reverse insertion order, cut at the limit |
| Queries.NewestFirstFromTable | src/admin/force_flow.py:141-143 | Every row returned is a matching row of the table |
| Queries.FilterAscends | src/services/payout_service.py:137-139 | Filtering a table inserted in time order keeps its rows in time order |
| Queries.NewestFirstDescending | src/admin/force_flow.py:144 | When rows were inserted in time order, the result is in descending time |
| Queries.NewestFirstKeepsNewest | src/admin/force_flow.py:144 | A matching row left out is no newer than any row returned |
| ForceFlow.TextBeforeUnderscore | src/admin/force_flow.py:91 | In a round id, the text before the first underscore is exactly the chat id |
| ForceFlow.SplitAtUnderscore | src/admin/force_flow.py:91 | Splitting at the first underscore recovers both parts |
| ForceFlow.ForcedRoundIdInjective | src/admin/force_flow.py:91 | Distinct (chat, action) pairs get distinct forced round ids, so two forced actions never share a seed row |
| ForceFlow.ConfirmationsNeeded | src/admin/force_flow.py:87 | At least one confirmation is always needed, and never fewer than required |
| ForceFlow.AddConfirmation | src/admin/force_flow.py:68-88 | A non-pending action and a repeat confirmer are refused in that order; otherwise one confirmation is appended and the action is APPROVED exactly when the count reaches the required number |
| ForceFlow.ConfirmEachReachesThreshold | src/admin/force_flow.py:75-88 | Distinct admins confirming one by one keep it PENDING until the threshold and APPROVED exactly at it, each confirmation recorded in order |
| ForceFlow.ConfirmEachAfterApproval | src/admin/force_flow.py:68-69 | Once an action has left PENDING, any further confirmation is refused |
| ForceFlow.RequestStepEffects | src/admin/force_flow.py:15-54 | Non-admins and unknown targets are refused with nothing written; otherwise one PENDING action with the next id, the requested chat, requester, target and time, no confirmations and the configured threshold is added, with one "force_requested" audit entry by that admin whose target is the chat id as text and whose meta holds the forced value and the new action id |
| ForceFlow.RequestStepKeepsValid | src/admin/force_flow.py:24-32 | A request keeps every stored action well formed and the table in request-time order |
| ForceFlow.ConfirmStepEffects | src/admin/force_flow.py:56-129 | Refusals come in the order non-admin, not found, not pending, already confirmed, and write nothing; a success appends exactly one confirmation by this admin at this time to the confirmed action, changes no other action, and reports its new state; unless the action becomes APPLIED, the action is exactly the confirmed one and the audit log and seed table are unchanged |
| ForceFlow.ConfirmStepSearchOutcome | src/admin/force_flow.py:86-119 | A confirmation reaching the threshold approves the action; no seed found leaves it APPROVED with its round unset; a seed found for a round id not yet stored makes it APPLIED to that round; a failing search or an already stored round aborts with nothing changed |
| ForceFlow.AddConfirmationKeepsValid | src/admin/force_flow.py:79-88 | Adding one admin's confirmation keeps the action well formed |
| ForceFlow.ActionValidMoreSeeds | src/admin/force_flow.py:101-105 | An action that was well formed stays so when more seed rows are stored |
| ForceFlow.ReplaceKeepsValid | src/admin/force_flow.py:84-106 | Replacing one action by a well-formed one with the same request time keeps the table valid |
| ForceFlow.ConfirmStepKeepsValid | src/admin/force_flow.py:56-129 | Every confirmation keeps the state valid: confirmers are distinct admins, the status matches the count, and an applied round has its seed stored |
| ForceFlow.ConfirmStepNeverMovesBack | src/admin/force_flow.py:68-69 | An action that has left PENDING is never changed again |
| ForceFlow.AppliedStoresFound | src/admin/force_flow.py:91-119 | An APPLIED result stores the found seed's ciphertext and commitment under a fresh round id "{chat}_forced_{id}", records that round, and appends exactly one `force_applied` audit entry by the system with the action id, forced value and round |
| ForceFlow.AppliedRoundIsForced | src/admin/force_flow.py:91-106 | The seed stored for an applied action's round yields a last digit that meets the requested target |
| ForceFlow.PendingActions | src/admin/force_flow.py:131-137 | Returns exactly the PENDING actions of the chat, or of every chat when the chat id is missing or 0 |
| ForceFlow.ForceHistory | src/admin/force_flow.py:139-146 | The chat's actions, newest request first, as many as the limit allows, leaving out only older ones |
| ForceFlow.ForceFlowService.constructor | src/admin/force_flow.py:9-13 | The service starts with the given admins, threshold and seed table, and no actions |
| ForceFlow.ForceFlowService.RequestForce | src/admin/force_flow.py:15-54 | Updates the tables and returns exactly as `RequestStep` describes, and keeps them valid |
| ForceFlow.ForceFlowService.ConfirmForce | src/admin/force_flow.py:56-129 | Updates the actions, audit log and seed table and returns exactly as `ConfirmStep` describes, and keeps them valid |
| ForceFlow.ForceFlowService.ConfirmAt | src/admin/force_flow.py:84-129 | Writes back an accepted confirmation, or approves and applies the action, exactly as `Confirmed` describes |
| ForceFlow.ForceFlowService.ApplyApprovedAt | src/admin/force_flow.py:90-119 | Runs the search and stores the seed exactly as `ApplyApproved` describes |
| ForceFlow.ForceFlowService.GetPendingActions | src/admin/force_flow.py:131-137 | The service's pending actions of the chat, and no others |
| ForceFlow.ForceFlowService.GetForceHistory | src/admin/force_flow.py:139-146 | The service's actions of the chat, newest first, at most `limit` of them |
| PayoutLedger.TruncDiv | src/services/payout_service.py:46 | Python's `int()` of a quotient: rounds toward zero for both signs |
| PayoutLedger.HouseFeeBounds | src/services/payout_service.py:45-48 | For a rate in (0,1], a win's fee is between 0 and the amount, and is the rate times the amount rounded down |
| PayoutLedger.HouseFeeTruncatesTowardZero | src/services/payout_service.py:46 | The fee of a negative amount is the negated fee of the positive amount |
| PayoutLedger.AddedToPot | src/services/payout_service.py:98-106 | The pot, created at 0 when missing, grows by exactly the amount |
| PayoutLedger.Pay | src/services/payout_service.py:14-96 | Returns the reference it minted, appends exactly one payout record when the user exists and none otherwise, and leaves earlier records alone |
| PayoutLedger.PaySucceeds | src/services/payout_service.py:25-80 | A payout without fault credits the full amount to that user only, skims the fee into the pot on wins, appends a DONE record and one audit entry with the old and new balances |
| PayoutLedger.PayFailsWithoutMovingMoney | src/services/payout_service.py:82-96 | A failure moves no money and writes no audit entry; a missing user leaves no record, and a fault after the record was made leaves it FAILED after one attempt |
| PayoutLedger.PayKeepsValid | src/services/payout_service.py:14-96 | A payout keeps users keyed by id, transaction references unique and records in creation order |
| PayoutLedger.Retryable | src/services/payout_service.py:110-115 | The snapshot lists only FAILED records below the attempt cap, at increasing positions |
| PayoutLedger.RetryableComplete | src/services/payout_service.py:110-115 | Every FAILED record below the attempt cap is in the snapshot |
| PayoutLedger.RetryableSnoc | src/services/payout_service.py:110-115 | Appending a record adds its position to the snapshot exactly when it is FAILED and below the cap |
| PayoutLedger.RetryOneSucceeds | src/services/payout_service.py:117-130 | A successful retry credits the user, marks the old record DONE, and leaves behind a second DONE record under a new reference |
| PayoutLedger.RetryOneFails | src/services/payout_service.py:117-127 | A failed retry moves no money, counts an attempt and the error on the old record, and leaves a new FAILED record behind |
| PayoutLedger.RetryOneLeavesOthers | src/services/payout_service.py:117-132 | Retrying one record changes no other existing record |
| PayoutLedger.RetryAllLeavesOthers | src/services/payout_service.py:110-132 | A retry pass changes no record outside its snapshot |
| PayoutLedger.RetryAllSkimsNothing | src/services/payout_service.py:118-123 | Retries are paid with reason "retry", so a retry pass never adds to the pot |
| PayoutLedger.RetryOneRetried | src/services/payout_service.py:117-132 | The retried record ends DONE at the retry time, or charged one more attempt with an error |
| PayoutLedger.RetryAllRetries | src/services/payout_service.py:117-132 | Every record in the snapshot ends DONE, or FAILED with one more attempt |
| PayoutLedger.RetryOneKeepsValid | src/services/payout_service.py:117-132 | One retry keeps the ledger's invariant |
| PayoutLedger.RetryAllKeepsValid | src/services/payout_service.py:108-132 | A retry pass keeps the ledger's invariant |
| PayoutLedger.RetryOneInPlace | src/services/payout_service.py:117-130 | The corrected retry writes no new record |
| PayoutLedger.RetryAllInPlace | src/services/payout_service.py:108-132 | A corrected retry pass writes no new record |
| PayoutLedger.PaidOutUpdate | src/services/payout_service.py:53-54 | Replacing one record changes a user's DONE total by that record's change alone |
| PayoutLedger.RetryOneInPlaceBooksEveryCredit | src/services/payout_service.py:117-130 | With the corrected retry, a user's balance minus their DONE total is unchanged: every credit is matched by the retried record turning DONE |
| PayoutLedger.RetryAllInPlaceLeavesOthers | src/services/payout_service.py:110-132 | A corrected pass changes no record outside its snapshot |
| PayoutLedger.RetryAllInPlaceBooksEveryCredit | src/services/payout_service.py:108-132 | With the corrected retry, a whole pass leaves each user's balance minus their DONE total unchanged, so no debt is credited twice |
| PayoutLedger.RetryAsWrittenCreditsTwice | src/services/payout_service.py:108-132 | Two retry passes as written credit a single owed payout of 100 twice |
| PayoutLedger.RetrySucceedsAsWrittenBooksTwice | src/services/payout_service.py:117-130 | One successful retry as written leaves two DONE records for one debt, so balance minus DONE total drops from 0 to -100 |
| PayoutLedger.RetryInPlaceCreditsOnce | src/services/payout_service.py:108-132 | The same two passes with the corrected retry credit it once and leave one DONE record |
| PayoutLedger.RetryAllTwo | src/services/payout_service.py:117 | A pass over two records retries them in snapshot order |
| PayoutLedger.PayoutHistory | src/services/payout_service.py:134-140 | The user's payouts, newest first, as many as the limit allows, leaving out only older ones |
| PayoutLedger.PayoutService.constructor | src/services/payout_service.py:9-11 | The service starts with the given rate and users, no pot row and no payouts |
| PayoutLedger.PayoutService.ProcessPayout | src/services/payout_service.py:14-96 | Updates the tables and returns exactly as `Pay` describes, and keeps the invariant |
| PayoutLedger.PayoutService.AddToPot | src/services/payout_service.py:98-106 | Adds the amount to the pot, creating it at 0 when missing, and touches nothing else |
| PayoutLedger.PayoutService.RetryFailedPayouts | src/services/payout_service.py:108-132 | Updates the tables exactly as the retry pass `RetryAll` over the snapshot describes, and keeps the invariant |
| PayoutLedger.PayoutService.RetryEach | src/services/payout_service.py:117-132 | The loop over the snapshot does what `RetryAll` describes |
| PayoutLedger.PayoutService.RetryAt | src/services/payout_service.py:118-132 | One loop iteration does what `RetryOne` describes |
| PayoutLedger.PayoutService.GetPayoutHistory | src/services/payout_service.py:134-140 | The service's payouts of the user, newest first, at most `limit` of them |
| VerifyCli.ExitCode | tools/verify_cli.py:8-56 | The tool exits with 0 exactly when the verification completes, and with 1 otherwise |
| VerifyCli.ClientSeedArg | tools/verify_cli.py:16 | The client seed is the fourth argument when there is one |
| VerifyCli.VerifyCases | tools/verify_cli.py:8-56 | Too few arguments give usage; a seed whose commitment differs is refused and both values are reported; otherwise the round's digits are reported, or the error that stopped them |
| VerifyCli.VerifiedClassifies | tools/verify_cli.py:33-49 | A completed check reports six digits and the last of them; SMALL exactly for 0-4 and EVEN exactly for an even digit |
| VerifyCli.MismatchIgnoresDigits | tools/verify_cli.py:22-28 | A commitment mismatch is decided before any digit is computed |
| VerifyCli.SatisfiesIffClassified | tools/verify_cli.py:40-49 | The forced-seed search's targets and the tool's classes agree digit by digit |
| VerifyCli.ForcedSeedVerifiesAsTarget | tools/verify_cli.py:20-51 | A seed found by the forced-outcome search passes the public check and is classified as the target it was searched for |

## Left out

- SHA-256, HMAC-SHA256, Fernet encryption and the PBKDF2 key derivation (`src/utils/crypto.py`) are not modelled. They are opaque functions passed in (`CryptoSuite`, `Vault`), and decryption may fail. In the source, `derive_key` draws a fresh random salt on every call (`src/utils/crypto.py:9-10`), so `decrypt_seed` never derives the key `encrypt_seed` used and every `reveal_seed` of a stored seed raises (`src/services/rng_service.py:85,89`); Fernet encryption is also randomized, whereas `Vault.encrypt` is a function. The model leaves `Vault` unconstrained and no lemma relies on decryption inverting encryption, so it neither assumes nor excludes that failure.
- `secrets.token_hex` and `uuid.uuid4` are not modelled. Their outputs are parameters: the entropy bytes, the candidate draws of the forced search, and the transaction references of payouts and retries.
- The database clock (`SELECT NOW()`, `datetime.utcnow()`) is an integer parameter. Callers pass times that do not go backwards.
- Database sessions, row locks, the `user_lock` decorator and concurrent callers are not modelled. Each call runs alone and its writes take effect together.
- The house rate is a float in the source; the model uses an exact fraction `num/den`, so float rounding of `amount * house_rate` is not captured.
- Integers are unbounded: the BigInteger columns' 64-bit range is not modelled.
- PayoutLedger.Pay models a fault only after the payout record exists and before the commit. Its error text is a parameter. As written, the failure path does not store a FAILED record: the session is made with `autoflush=False` (`src/bot/main.py:27`), so the `attempts` default of 0 (`src/db/models.py:79`) is not yet applied, `payout.attempts += 1` (`src/services/payout_service.py:88`) raises `TypeError` out of the `except` handler, and the `rollback()` at line 83 has already discarded the pending record. The model follows what lines 85-89 intend: the failure returns a result and leaves the record FAILED after one attempt (PayoutLedger.PayFailsWithoutMovingMoney, PayoutLedger.RetryOneFails).
- PayoutLedger.PayoutService.RetryFailedPayouts models the retry pass as written. The corrected pass (`RetryAllInPlace`) is proved at the level of the tables only; no class method runs it.
- PayoutLedger.FreshRef: the model requires each new transaction reference to differ from the existing ones (the unique column); a collision of random references is not modelled.
- Convert.BytesToDigitsUnbiased requires that the hash chain eventually holds enough acceptable bytes (`Enough`). The source loops until it does, which the model cannot bound.
- `audit_ref` (a timestamp string) and the audit logs' `created_at` are not modelled. The `force_requested` audit entry records the action's id, known in the model before the flush that the source would need.
- The raw SQL text of `confirm_force`, `get_pending_actions` and `get_force_history` is not modelled, so neither is its injection risk. The id lookup is an index into the actions table.
- ForceFlow.PendingActions returns the pending actions in table order; the source's query has no ORDER BY, so its order is unspecified.
- ForceFlow.ForceHistory and PayoutLedger.PayoutHistory: ties in time come out newest-inserted first, where SQL leaves tie order unspecified. The limit is a `nat`, so a negative LIMIT is not modelled.
- The REJECTED status can be parsed and printed but no operation sets it, as in the source.
- The verify tool's printing and `sys.exit` are modelled as the verdict and the exit code. `SystemExit` raised inside the `try` is not an `Exception`, so it escapes the handler, as in the model.
- `get_seed_for_round` is the map lookup in `SeedTable.RevealSeed`. The `Bet` table, `src/bot/main.py` and the database migration are not part of this model.
- RngService.ComputeDigits: on a counter of 2^32 `to_bytes(4, 'big')` raises; the model returns `CounterOverflow` there instead of looping on.

## Findings

| source | as written | input that shows it | evidently intended | confidence | as-written member | corrected member |
|---|---|---|---|---|---|---|
| src/services/payout_service.py:108-132 | Each retry calls `process_payout`, which mints a new payout record. On the failure path that lines 85-89 intend, a failed retry leaves that new record FAILED, so the next pass retries the same debt twice. As written, that handler raises instead (see PayoutLedger.Pay under Left out), and a failed retry raises out of `retry_failed_payouts` | User 1 with balance 0 owns one FAILED payout of 100. Pass 1: the retry fails. Pass 2: both records are retried and both succeed; the balance ends at 200 | A retry settles the original record, paying its amount once, so a user's balance minus their DONE total never changes | low, not executed | PayoutLedger.RetryAsWrittenCreditsTwice | PayoutLedger.RetryAllInPlaceBooksEveryCredit |
| src/services/payout_service.py:117-130 | A successful retry mints a second DONE record through `process_payout` and also marks the original DONE, so one debt is booked as paid twice, with no failure involved | User 1 with balance 0 owns one FAILED payout of 100. One retry succeeds: the balance is 100, and two DONE records of 100 exist, so balance minus DONE total goes from 0 to -100 | A retry settles the original record and writes no second one, so a user's balance minus their DONE total never changes | high, not executed | PayoutLedger.RetrySucceedsAsWrittenBooksTwice | PayoutLedger.RetryOneInPlaceBooksEveryCredit |
