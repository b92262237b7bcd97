/**
 * The records of the lottery's database (src/db/models.py): the two closed
 * status enumerations with their stored text, and the rows of the user,
 * seed, forced-action, payout, audit and pot tables with their column
 * defaults. Times are plain integers supplied by the caller.
 */
module Models {
  import opened Wrappers

  // ---------------------------------------------------------------------
  // Status enumerations
  // ---------------------------------------------------------------------

  /** The life of a forced-outcome request. */
  datatype ForcedActionStatus = Pending | Approved | Rejected | Applied

  /** The text stored in the `status` column. */
  function ForcedActionStatusText(s: ForcedActionStatus): (t: string)
  {
    match s
    case Pending => "pending"
    case Approved => "approved"
    case Rejected => "rejected"
    case Applied => "applied"
  }

  /** The status a stored text stands for; None for any other text. */
  function ParseForcedActionStatus(t: string): (s: Option<ForcedActionStatus>)
    ensures s.Some? <==> t in {"pending", "approved", "rejected", "applied"}
    ensures s.Some? ==> ForcedActionStatusText(s.value) == t
  {
    if t == "pending" then Some(ForcedActionStatus.Pending)
    else if t == "approved" then Some(Approved)
    else if t == "rejected" then Some(Rejected)
    else if t == "applied" then Some(Applied)
    else None
  }

  /** Storing a status and reading it back gives the same status: the four texts are distinct. */
  lemma ForcedActionStatusRoundTrip(s: ForcedActionStatus)
    ensures ParseForcedActionStatus(ForcedActionStatusText(s)) == Some(s)
  {
  }

  /** The life of a payout. */
  datatype PayoutStatus = Pending | Done | Failed

  function PayoutStatusText(s: PayoutStatus): (t: string)
  {
    match s
    case Pending => "pending"
    case Done => "done"
    case Failed => "failed"
  }

  function ParsePayoutStatus(t: string): (s: Option<PayoutStatus>)
    ensures s.Some? <==> t in {"pending", "done", "failed"}
    ensures s.Some? ==> PayoutStatusText(s.value) == t
  {
    if t == "pending" then Some(PayoutStatus.Pending)
    else if t == "done" then Some(Done)
    else if t == "failed" then Some(Failed)
    else None
  }

  lemma PayoutStatusRoundTrip(s: PayoutStatus)
    ensures ParsePayoutStatus(PayoutStatusText(s)) == Some(s)
  {
  }

  // ---------------------------------------------------------------------
  // Rows
  // ---------------------------------------------------------------------

  /** A `users` row; the balance is in the smallest currency unit. */
  datatype User = User(id: int, telegramId: int, username: Option<string>, balance: int, clientSeed: Option<string>)

  /** A user as first inserted: balance 0. */
  function NewUser(id: int, telegramId: int, username: Option<string>): (u: User)
    ensures u.id == id && u.telegramId == telegramId && u.username == username
    ensures u.balance == 0 && u.clientSeed.None?
  {
    User(id, telegramId, username, 0, None)
  }

  /** A `provable_seeds` row; `revealedSeedHash` and `revealedAt` stay unset until the reveal. */
  datatype SeedRecord = SeedRecord(
    roundId: string,
    commitment: string,
    encryptedSeed: string,
    revealedSeedHash: Option<string>,
    revealedAt: Option<int>,
    periodTag: Option<string>,
    clientSeedAllowed: bool)

  /** A seed record as first inserted: unrevealed, client seeds allowed. */
  function NewSeedRecord(roundId: string, commitment: string, encryptedSeed: string,
                         periodTag: Option<string>): (r: SeedRecord)
    ensures r.roundId == roundId && r.commitment == commitment && r.encryptedSeed == encryptedSeed
    ensures r.periodTag == periodTag
    ensures r.revealedSeedHash.None? && r.revealedAt.None? && r.clientSeedAllowed
  {
    SeedRecord(roundId, commitment, encryptedSeed, None, None, periodTag, true)
  }

  /** One element of a forced action's `confirmations` list. */
  datatype Confirmation = Confirmation(adminId: int, confirmedAt: int)

  /** A `forced_actions` row. */
  datatype ForcedAction = ForcedAction(
    id: int,
    chatId: int,
    requestedBy: int,
    forcedValue: string,
    requestedAt: int,
    confirmations: seq<Confirmation>,
    requiredConfirmations: int,
    status: ForcedActionStatus,
    appliedRound: Option<string>)

  /** A forced action as first inserted with only the required columns: pending, two confirmations required. */
  function NewForcedAction(id: int, chatId: int, requestedBy: int, forcedValue: string,
                           requestedAt: int): (a: ForcedAction)
    ensures a.id == id && a.chatId == chatId && a.requestedBy == requestedBy
    ensures a.forcedValue == forcedValue && a.requestedAt == requestedAt
    ensures a.confirmations == [] && a.appliedRound.None?
    ensures a.requiredConfirmations == 2 && a.status == ForcedActionStatus.Pending
  {
    ForcedAction(id, chatId, requestedBy, forcedValue, requestedAt, [], 2, ForcedActionStatus.Pending, None)
  }

  /** A `payouts` row; `txRef` is unique across the table. */
  datatype Payout = Payout(
    txRef: string,
    userId: int,
    amount: int,
    roundId: Option<string>,
    status: PayoutStatus,
    attempts: int,
    lastError: Option<string>,
    createdAt: int,
    completedAt: Option<int>)

  /** A payout as first inserted: pending, no attempts, no error, not completed. */
  function NewPayout(txRef: string, userId: int, amount: int, roundId: Option<string>,
                     createdAt: int): (p: Payout)
    ensures p.txRef == txRef && p.userId == userId && p.amount == amount && p.roundId == roundId
    ensures p.createdAt == createdAt
    ensures p.status == PayoutStatus.Pending && p.attempts == 0
    ensures p.lastError.None? && p.completedAt.None?
  {
    Payout(txRef, userId, amount, roundId, PayoutStatus.Pending, 0, None, createdAt, None)
  }

  /** Who an audit entry is attributed to: an admin's Telegram id, or the system itself. */
  datatype Actor = Admin(id: int) | System

  /** The `meta` of the audit entries the core writes. */
  datatype AuditMeta =
    | ForceRequested(forcedValue: string, forcedActionId: int)
    | ForceApplied(forcedActionId: int, forcedValue: string, appliedRound: string)
    | PayoutMade(txRef: string, amount: int, netAmount: int, roundId: Option<string>,
                 oldBalance: int, newBalance: int)

  /** An `audit_logs` row. */
  datatype AuditEntry = AuditEntry(actor: Actor, action: string, target: string, meta: AuditMeta)

  /** The single `pot` row. */
  datatype Pot = Pot(balance: int)

  /** The pot as first inserted: balance 0. */
  function NewPot(): (p: Pot)
    ensures p.balance == 0
  {
    Pot(0)
  }
}
