/**
 * The forced-outcome approval workflow (src/admin/force_flow.py). An admin
 * requests that a chat's next result be small, big, even or odd; other
 * admins confirm; when enough distinct admins have confirmed, the request is
 * approved and a seed forcing the outcome is searched for, stored, and the
 * request marked applied.
 *
 * The tables the service touches are a `FlowState` value: the forced actions
 * in id order (row k holds id k + 1, as the table's auto-increment key
 * gives them), the audit log, and the seed records. `RequestStep` and
 * `ConfirmStep` say what one call does to that state; the
 * `ForceFlowService` class performs the same calls in place.
 */
module ForceFlow {
  import opened Wrappers
  import opened Primitives
  import opened Models
  import opened Queries
  import opened RngService

  /** Why a request or a confirmation is refused. */
  datatype ForceError =
    | NotAdmin
    | InvalidValue
    | NotFound
    | NotPending
    | AlreadyConfirmed
    | SearchFailed(cause: RngError)
    | StoreFailed(reason: StoreError)

  /** What `request_force` returns on success. */
  datatype RequestReceipt = RequestReceipt(forcedActionId: int, requiredConfirmations: int)

  /** What `confirm_force` returns on success. */
  datatype ConfirmReceipt = ConfirmReceipt(
    forcedActionId: int,
    confirmationsCount: int,
    requiredConfirmations: int,
    status: ForcedActionStatus)

  /** The service's configuration: the admins' Telegram ids, the threshold, the crypto and the seed vault. */
  datatype Config = Config(adminIds: seq<int>, confirmThreshold: int, crypto: CryptoSuite, vault: Vault)

  /** The tables the workflow reads and writes. */
  datatype FlowState = FlowState(
    actions: seq<ForcedAction>,
    audit: seq<AuditEntry>,
    seeds: map<string, SeedRecord>)

  // ---------------------------------------------------------------------
  // Round ids
  // ---------------------------------------------------------------------

  /** The round id a forced seed is stored under: "{chat_id}_forced_{id}". */
  function ForcedRoundId(chatId: int, id: int): (r: string)
  {
    IntToString(chatId) + ("_forced_" + IntToString(id))
  }

  /** The length of the text before the first '_'. */
  function TextBefore(s: string): (n: nat)
    ensures n <= |s|
  {
    if s == [] || s[0] == '_' then 0 else 1 + TextBefore(s[1..])
  }

  /** Text without '_' followed by '_' is exactly the text before the first '_'. */
  lemma {:induction false} TextBeforeUnderscore(c: string, rest: string)
    requires forall k :: 0 <= k < |c| ==> c[k] != '_'
    requires |rest| > 0 && rest[0] == '_'
    ensures TextBefore(c + rest) == |c|
  {
    if c != [] {
      assert (c + rest)[0] == c[0];
      assert (c + rest)[1..] == c[1..] + rest;
      TextBeforeUnderscore(c[1..], rest);
    }
  }

  /** Two texts without '_', each followed by a text starting with '_', split equal concatenations equally. */
  lemma SplitAtUnderscore(c1: string, r1: string, c2: string, r2: string)
    requires c1 + r1 == c2 + r2
    requires forall k :: 0 <= k < |c1| ==> c1[k] != '_'
    requires forall k :: 0 <= k < |c2| ==> c2[k] != '_'
    requires |r1| > 0 && r1[0] == '_' && |r2| > 0 && r2[0] == '_'
    ensures c1 == c2 && r1 == r2
  {
    var s := c1 + r1;
    TextBeforeUnderscore(c1, r1);
    TextBeforeUnderscore(c2, r2);
    assert c1 == s[..|c1|] && c2 == s[..|c2|];
    assert r1 == s[|c1|..] && r2 == s[|c2|..];
  }

  /** Distinct (chat, action) pairs get distinct round ids, so two actions never store under one round. */
  lemma ForcedRoundIdInjective(chat1: int, id1: int, chat2: int, id2: int)
    requires ForcedRoundId(chat1, id1) == ForcedRoundId(chat2, id2)
    ensures chat1 == chat2 && id1 == id2
  {
    var c1, c2 := IntToString(chat1), IntToString(chat2);
    var r1, r2 := "_forced_" + IntToString(id1), "_forced_" + IntToString(id2);
    assert c1 + r1 == ForcedRoundId(chat1, id1);
    assert c2 + r2 == ForcedRoundId(chat2, id2);
    SplitAtUnderscore(c1, r1, c2, r2);
    IntToStringInjective(chat1, chat2);
    assert IntToString(id1) == r1[8..] == r2[8..] == IntToString(id2);
    IntToStringInjective(id1, id2);
  }

  // ---------------------------------------------------------------------
  // Confirming one action
  // ---------------------------------------------------------------------

  /** How many confirmations take an action out of PENDING: the required count, but at least the one just made. */
  function ConfirmationsNeeded(required: int): (n: nat)
    ensures n >= 1 && n >= required
  {
    if required < 1 then 1 else required
  }

  /** Whether `admin` is among the action's confirming admins. */
  predicate ConfirmedBy(a: ForcedAction, admin: int)
  {
    exists c :: c in a.confirmations && c.adminId == admin
  }

  /**
   * The checks and the update `confirm_force` makes on the action itself:
   * a non-pending action and an admin who already confirmed are refused;
   * otherwise the confirmation is appended and the action is approved once
   * the count reaches the required number.
   */
  function AddConfirmation(a: ForcedAction, admin: int, now: int): (r: Result<ForcedAction, ForceError>)
    ensures a.status != ForcedActionStatus.Pending ==> r == Err(NotPending)
    ensures a.status == ForcedActionStatus.Pending && ConfirmedBy(a, admin) ==> r == Err(AlreadyConfirmed)
    ensures a.status == ForcedActionStatus.Pending && !ConfirmedBy(a, admin) ==>
      r.Ok? &&
      r.value.confirmations == a.confirmations + [Confirmation(admin, now)] &&
      (r.value.status == Approved <==> |r.value.confirmations| >= a.requiredConfirmations) &&
      (r.value.status != Approved ==> r.value.status == ForcedActionStatus.Pending) &&
      r.value == a.(confirmations := r.value.confirmations, status := r.value.status)
  {
    if a.status != ForcedActionStatus.Pending then Err(NotPending)
    else if ConfirmedBy(a, admin) then Err(AlreadyConfirmed)
    else
      var confirmations := a.confirmations + [Confirmation(admin, now)];
      var status := if |confirmations| >= a.requiredConfirmations then Approved else ForcedActionStatus.Pending;
      Ok(a.(confirmations := confirmations, status := status))
  }

  /** The admin ids of a confirmation list are pairwise distinct. */
  ghost predicate DistinctAdmins(cs: seq<Confirmation>)
  {
    forall i, j :: 0 <= i < j < |cs| ==> cs[i].adminId != cs[j].adminId
  }

  /** Confirmations made one after another, stopping at the first refusal. */
  function ConfirmEach(a: ForcedAction, cs: seq<Confirmation>): (r: Result<ForcedAction, ForceError>)
    decreases |cs|
  {
    if cs == [] then Ok(a)
    else
      match AddConfirmation(a, cs[0].adminId, cs[0].confirmedAt)
      case Err(e) => Err(e)
      case Ok(next) => ConfirmEach(next, cs[1..])
  }

  /**
   * The threshold: distinct admins confirming a pending action in turn are
   * all accepted, and the action stays PENDING exactly while fewer than the
   * required number (at least one) have confirmed.
   */
  lemma {:induction false} ConfirmEachReachesThreshold(a: ForcedAction, cs: seq<Confirmation>)
    requires a.status == ForcedActionStatus.Pending
    requires |a.confirmations| < ConfirmationsNeeded(a.requiredConfirmations)
    requires |a.confirmations| + |cs| <= ConfirmationsNeeded(a.requiredConfirmations)
    requires DistinctAdmins(a.confirmations + cs)
    ensures ConfirmEach(a, cs).Ok?
    ensures ConfirmEach(a, cs).value.confirmations == a.confirmations + cs
    ensures ConfirmEach(a, cs).value.status
         == if |a.confirmations| + |cs| < ConfirmationsNeeded(a.requiredConfirmations)
            then ForcedActionStatus.Pending else Approved
    ensures ConfirmEach(a, cs).value == a.(confirmations := a.confirmations + cs,
                                           status := ConfirmEach(a, cs).value.status)
    decreases |cs|
  {
    if cs == [] {
      assert a.confirmations + cs == a.confirmations;
    } else {
      var all := a.confirmations + cs;
      forall c | c in a.confirmations ensures c.adminId != cs[0].adminId {
        var k :| 0 <= k < |a.confirmations| && a.confirmations[k] == c;
        assert all[k] == c && all[|a.confirmations|] == cs[0];
      }
      var next := AddConfirmation(a, cs[0].adminId, cs[0].confirmedAt).value;
      assert next.confirmations == a.confirmations + [cs[0]];
      assert next.confirmations + cs[1..] == all;
      if |next.confirmations| < ConfirmationsNeeded(a.requiredConfirmations) {
        ConfirmEachReachesThreshold(next, cs[1..]);
      } else {
        assert cs[1..] == [];
        assert next.confirmations + cs[1..] == next.confirmations;
      }
    }
  }

  /** Once an action has left PENDING, no confirmation changes it again: status never moves back. */
  lemma ConfirmEachAfterApproval(a: ForcedAction, cs: seq<Confirmation>)
    requires a.status != ForcedActionStatus.Pending
    requires cs != []
    ensures ConfirmEach(a, cs) == Err(NotPending)
  {
  }

  // ---------------------------------------------------------------------
  // The workflow's state and its invariant
  // ---------------------------------------------------------------------

  /**
   * A forced action as the workflow keeps it: it holds its own id; it was
   * requested by an admin for a valid target with the configured threshold;
   * its confirming admins are distinct admins; it is PENDING exactly while
   * the threshold is not reached, and the count stops at the threshold; it
   * is never REJECTED; it has an applied round exactly when APPLIED, and
   * that round is "{chat}_forced_{id}" with a stored seed.
   */
  ghost predicate ActionValid(cfg: Config, seeds: map<string, SeedRecord>, a: ForcedAction, id: int)
  {
    a.id == id &&
    IsForcedValue(a.forcedValue) &&
    a.requestedBy in cfg.adminIds &&
    a.requiredConfirmations == cfg.confirmThreshold &&
    DistinctAdmins(a.confirmations) &&
    (forall c :: c in a.confirmations ==> c.adminId in cfg.adminIds) &&
    a.status != Rejected &&
    (a.status == ForcedActionStatus.Pending <==> |a.confirmations| < ConfirmationsNeeded(a.requiredConfirmations)) &&
    |a.confirmations| <= ConfirmationsNeeded(a.requiredConfirmations) &&
    (a.appliedRound.Some? <==> a.status == Applied) &&
    (a.appliedRound.Some? ==> a.appliedRound.value == ForcedRoundId(a.chatId, a.id) && a.appliedRound.value in seeds)
  }

  /** Actions were requested in id order: request times never decrease. */
  ghost predicate RequestedInOrder(actions: seq<ForcedAction>)
  {
    forall i, j :: 0 <= i < j < |actions| ==> actions[i].requestedAt <= actions[j].requestedAt
  }

  /** Every action is valid at its position, and requests were made in time order. */
  ghost predicate ValidState(cfg: Config, st: FlowState)
  {
    (forall k :: 0 <= k < |st.actions| ==> ActionValid(cfg, st.seeds, st.actions[k], k + 1)) &&
    RequestedInOrder(st.actions)
  }

  // ---------------------------------------------------------------------
  // request_force
  // ---------------------------------------------------------------------

  /**
   * `request_force`: a non-admin is refused first, then a target other than
   * small/big/even/odd; otherwise a PENDING action with no confirmations
   * and the configured threshold is added under the next id, with a
   * 'force_requested' audit entry by the requesting admin.
   */
  function RequestStep(cfg: Config, st: FlowState, chatId: int, requestedBy: int, forcedValue: string, now: int)
    : (res: (FlowState, Result<RequestReceipt, ForceError>))
  {
    if requestedBy !in cfg.adminIds then (st, Err(NotAdmin))
    else if !IsForcedValue(forcedValue) then (st, Err(InvalidValue))
    else
      var id := |st.actions| + 1;
      var action := ForcedAction(id, chatId, requestedBy, forcedValue, now, [], cfg.confirmThreshold,
                                 ForcedActionStatus.Pending, None);
      var entry := AuditEntry(Admin(requestedBy), "force_requested", IntToString(chatId), ForceRequested(forcedValue, id));
      (st.(actions := st.actions + [action], audit := st.audit + [entry]), Ok(RequestReceipt(id, cfg.confirmThreshold)))
  }

  /**
   * What a request does: a non-admin is refused before the target is
   * looked at, a refused request changes nothing, and an accepted one adds
   * exactly one PENDING action with no confirmations, needing the
   * configured number and carrying the requested chat, requester, target
   * and time, plus exactly one 'force_requested' audit entry by that admin
   * naming the chat, the target and the new action's id.
   */
  lemma RequestStepEffects(cfg: Config, st: FlowState, chatId: int, requestedBy: int, forcedValue: string, now: int)
    ensures var res := RequestStep(cfg, st, chatId, requestedBy, forcedValue, now);
      (requestedBy !in cfg.adminIds ==> res == (st, Err(NotAdmin))) &&
      (requestedBy in cfg.adminIds && !IsForcedValue(forcedValue) ==> res == (st, Err(InvalidValue))) &&
      (res.1.Err? ==> res.0 == st) &&
      (requestedBy in cfg.adminIds && IsForcedValue(forcedValue) ==>
        res.1 == Ok(RequestReceipt(|st.actions| + 1, cfg.confirmThreshold)) &&
        res.0.seeds == st.seeds &&
        |res.0.actions| == |st.actions| + 1 && res.0.actions[..|st.actions|] == st.actions &&
        res.0.actions[|st.actions|].status == ForcedActionStatus.Pending &&
        res.0.actions[|st.actions|].confirmations == [] &&
        res.0.actions[|st.actions|].requiredConfirmations == cfg.confirmThreshold &&
        |res.0.audit| == |st.audit| + 1 && res.0.audit[..|st.audit|] == st.audit &&
        res.0.audit[|st.audit|].action == "force_requested" &&
        res.0.actions[|st.actions|] == ForcedAction(|st.actions| + 1, chatId, requestedBy, forcedValue, now, [],
                                                    cfg.confirmThreshold, ForcedActionStatus.Pending, None) &&
        res.0.audit[|st.audit|] == AuditEntry(Admin(requestedBy), "force_requested", IntToString(chatId),
                                              ForceRequested(forcedValue, |st.actions| + 1)))
  {
    var res := RequestStep(cfg, st, chatId, requestedBy, forcedValue, now);
    if requestedBy in cfg.adminIds && IsForcedValue(forcedValue) {
      assert res.0.actions[..|st.actions|] == st.actions;
      assert res.0.audit[..|st.audit|] == st.audit;
    }
  }

  /** A request made no earlier than the last one keeps the workflow's invariant. */
  lemma RequestStepKeepsValid(cfg: Config, st: FlowState, chatId: int, requestedBy: int, forcedValue: string, now: int)
    requires ValidState(cfg, st)
    requires |st.actions| > 0 ==> st.actions[|st.actions| - 1].requestedAt <= now
    ensures ValidState(cfg, RequestStep(cfg, st, chatId, requestedBy, forcedValue, now).0)
  {
    if requestedBy in cfg.adminIds && IsForcedValue(forcedValue) {
      var n := |st.actions|;
      var action := ForcedAction(n + 1, chatId, requestedBy, forcedValue, now, [], cfg.confirmThreshold,
                                 ForcedActionStatus.Pending, None);
      var actions := st.actions + [action];
      assert RequestStep(cfg, st, chatId, requestedBy, forcedValue, now).0.actions == actions;
      assert ActionValid(cfg, st.seeds, action, n + 1);
      forall k | 0 <= k < |actions| ensures ActionValid(cfg, st.seeds, actions[k], k + 1) {
        if k < n {
          assert actions[k] == st.actions[k];
        }
      }
      forall i, j | 0 <= i < j < |actions| ensures actions[i].requestedAt <= actions[j].requestedAt {
        if j < n {
          assert actions[i] == st.actions[i] && actions[j] == st.actions[j];
        } else if i < n - 1 {
          assert st.actions[i].requestedAt <= st.actions[n - 1].requestedAt;
        }
      }
    }
  }

  // ---------------------------------------------------------------------
  // confirm_force
  // ---------------------------------------------------------------------

  /** The seed search as the workflow sees it: from a round id and a target to the search's outcome. */
  type Search = (string, string) -> Outcome

  /** `generate_forced_seed` with its default attempt budget, drawing `candidates`. */
  function SeedSearch(crypto: CryptoSuite, candidates: seq<seq<byte>>): Search
    requires DefaultMaxAttempts <= |candidates|
  {
    (roundId: string, forcedValue: string) => ForcedSeed(crypto, roundId, forcedValue, candidates, DefaultMaxAttempts)
  }

  function Receipt(a: ForcedAction): ConfirmReceipt
  {
    ConfirmReceipt(a.id, |a.confirmations|, a.requiredConfirmations, a.status)
  }

  /**
   * What follows the approval of the action at position `k`: search for a
   * seed forcing its target for round "{chat}_forced_{id}". A found seed is
   * stored and the action becomes APPLIED with that round and a
   * 'force_applied' audit entry by the system; none found leaves it
   * APPROVED. A failing search, or a round id already stored, aborts the
   * whole confirmation.
   */
  function ApplyApproved(cfg: Config, st: FlowState, k: nat, a: ForcedAction, search: Search)
    : (res: (FlowState, Result<ConfirmReceipt, ForceError>))
    requires k < |st.actions|
  {
    var roundId := ForcedRoundId(a.chatId, a.id);
    match search(roundId, a.forcedValue)
    case Err(e) => (st, Err(SearchFailed(e)))
    case Ok(None) => (st.(actions := st.actions[k := a]), Ok(Receipt(a)))
    case Ok(Some(found)) =>
      if roundId in st.seeds then (st, Err(StoreFailed(DuplicateRound)))
      else
        var applied := a.(appliedRound := Some(roundId), status := Applied);
        var entry := AuditEntry(System, "force_applied", IntToString(a.chatId), ForceApplied(a.id, a.forcedValue, roundId));
        var record := NewSeedRecord(roundId, found.1, cfg.vault.encrypt(found.0), None);
        (FlowState(st.actions[k := applied], st.audit + [entry], st.seeds[roundId := record]), Ok(Receipt(applied)))
  }

  /**
   * `confirm_force`: refused, in this order and with nothing changed, for a
   * non-admin, an unknown id, an action no longer pending and an admin who
   * already confirmed. Otherwise the confirmation is recorded; reaching the
   * threshold approves the action and goes on to `ApplyApproved`.
   */
  function ConfirmStep(cfg: Config, st: FlowState, id: int, admin: int, now: int, search: Search)
    : (res: (FlowState, Result<ConfirmReceipt, ForceError>))
  {
    if admin !in cfg.adminIds then (st, Err(NotAdmin))
    else if !(1 <= id <= |st.actions|) then (st, Err(NotFound))
    else
      match AddConfirmation(st.actions[id - 1], admin, now)
      case Err(e) => (st, Err(e))
      case Ok(a) => Confirmed(cfg, st, id - 1, a, search)
  }

  /**
   * An accepted confirmation, `a` being the action at position `k` with the
   * confirmation added: still PENDING, it is only written back; APPROVED, it
   * goes on to `ApplyApproved`.
   */
  function Confirmed(cfg: Config, st: FlowState, k: nat, a: ForcedAction, search: Search)
    : (res: (FlowState, Result<ConfirmReceipt, ForceError>))
    requires k < |st.actions|
  {
    if a.status == ForcedActionStatus.Pending then (st.(actions := st.actions[k := a]), Ok(Receipt(a)))
    else ApplyApproved(cfg, st, k, a, search)
  }

  /**
   * What a confirmation does: the refusals come in the order admin, known
   * action, pending, not yet confirmed by this admin; a refusal changes
   * nothing; a success touches only the confirmed action among the actions
   * and reports it, and unless it applies the action it leaves the audit
   * log and the seed table as they were.
   */
  lemma ConfirmStepEffects(cfg: Config, st: FlowState, id: int, admin: int, now: int, search: Search)
    ensures var res := ConfirmStep(cfg, st, id, admin, now, search);
      (res.1.Err? ==> res.0 == st) &&
      (admin !in cfg.adminIds ==> res.1 == Err(NotAdmin)) &&
      (admin in cfg.adminIds && !(1 <= id <= |st.actions|) ==> res.1 == Err(NotFound)) &&
      (admin in cfg.adminIds && 1 <= id <= |st.actions| && AddConfirmation(st.actions[id - 1], admin, now).Err? ==>
        res.1 == Err(AddConfirmation(st.actions[id - 1], admin, now).error)) &&
      (res.1.Ok? ==>
        1 <= id <= |st.actions| && |res.0.actions| == |st.actions| &&
        (forall j :: 0 <= j < |st.actions| && j != id - 1 ==> res.0.actions[j] == st.actions[j]) &&
        res.1.value == Receipt(res.0.actions[id - 1])) &&
      (res.1.Ok? && res.1.value.status != Applied ==> res.0.audit == st.audit && res.0.seeds == st.seeds) &&
      (res.1.Ok? ==>
        res.0.actions[id - 1].confirmations == st.actions[id - 1].confirmations + [Confirmation(admin, now)]) &&
      (res.1.Ok? && res.1.value.status != Applied ==>
        AddConfirmation(st.actions[id - 1], admin, now).Ok? &&
        res.0.actions[id - 1] == AddConfirmation(st.actions[id - 1], admin, now).value)
  {
  }

  /**
   * How the seed search decides an approving confirmation: no seed found
   * leaves the action APPROVED with its round unset; a seed found for a
   * round id not yet stored makes it APPLIED to that round; a failing
   * search or an already stored round aborts with nothing changed.
   */
  lemma ConfirmStepSearchOutcome(cfg: Config, st: FlowState, id: int, admin: int, now: int, search: Search)
    requires admin in cfg.adminIds && 1 <= id <= |st.actions|
    requires AddConfirmation(st.actions[id - 1], admin, now).Ok?
    requires AddConfirmation(st.actions[id - 1], admin, now).value.status != ForcedActionStatus.Pending
    ensures var a := AddConfirmation(st.actions[id - 1], admin, now).value;
      var roundId := ForcedRoundId(a.chatId, a.id);
      var res := ConfirmStep(cfg, st, id, admin, now, search);
      a.status == Approved &&
      (search(roundId, a.forcedValue) == Ok(None) ==>
        res == (st.(actions := st.actions[id - 1 := a]), Ok(Receipt(a))) &&
        res.0.actions[id - 1].appliedRound == st.actions[id - 1].appliedRound) &&
      (search(roundId, a.forcedValue).Ok? && search(roundId, a.forcedValue).value.Some? && roundId !in st.seeds ==>
        res.1.Ok? && res.1.value.status == Applied &&
        res.0.actions[id - 1] == a.(appliedRound := Some(roundId), status := Applied)) &&
      (search(roundId, a.forcedValue).Err? ==> res == (st, Err(SearchFailed(search(roundId, a.forcedValue).error)))) &&
      (search(roundId, a.forcedValue).Ok? && search(roundId, a.forcedValue).value.Some? && roundId in st.seeds ==>
        res == (st, Err(StoreFailed(DuplicateRound))))
  {
  }

  /** An action that leaves PENDING stays with the count it had at that moment, never more. */
  lemma AddConfirmationKeepsValid(cfg: Config, seeds: map<string, SeedRecord>, a: ForcedAction, id: int, admin: int, now: int)
    requires ActionValid(cfg, seeds, a, id)
    requires admin in cfg.adminIds
    requires AddConfirmation(a, admin, now).Ok?
    ensures var b := AddConfirmation(a, admin, now).value;
      b.status == ForcedActionStatus.Pending ==> ActionValid(cfg, seeds, b, id)
    ensures var b := AddConfirmation(a, admin, now).value;
      b.status == Approved ==> ActionValid(cfg, seeds, b, id)
  {
    var b := AddConfirmation(a, admin, now).value;
    assert !ConfirmedBy(a, admin);
    forall i, j | 0 <= i < j < |b.confirmations| ensures b.confirmations[i].adminId != b.confirmations[j].adminId {
      if j == |a.confirmations| {
        assert b.confirmations[i] in a.confirmations;
      } else {
        assert b.confirmations[i] == a.confirmations[i] && b.confirmations[j] == a.confirmations[j];
      }
    }
    forall c | c in b.confirmations ensures c.adminId in cfg.adminIds {
      if c != Confirmation(admin, now) {
        assert c in a.confirmations;
      }
    }
  }

  /** Growing the seed table keeps every action valid. */
  lemma ActionValidMoreSeeds(cfg: Config, seeds: map<string, SeedRecord>, more: map<string, SeedRecord>, a: ForcedAction, id: int)
    requires ActionValid(cfg, seeds, a, id)
    requires seeds.Keys <= more.Keys
    ensures ActionValid(cfg, more, a, id)
  {
  }

  /** Replacing action k by a valid action with the same request time keeps the workflow's invariant. */
  lemma ReplaceKeepsValid(cfg: Config, st: FlowState, next: FlowState, k: nat, a: ForcedAction)
    requires ValidState(cfg, st)
    requires k < |st.actions|
    requires next.actions == st.actions[k := a]
    requires st.seeds.Keys <= next.seeds.Keys
    requires ActionValid(cfg, next.seeds, a, k + 1)
    requires a.requestedAt == st.actions[k].requestedAt
    ensures ValidState(cfg, next)
  {
    forall j | 0 <= j < |next.actions| ensures ActionValid(cfg, next.seeds, next.actions[j], j + 1) {
      if j != k {
        ActionValidMoreSeeds(cfg, st.seeds, next.seeds, st.actions[j], j + 1);
      }
    }
    forall i, j | 0 <= i < j < |next.actions| ensures next.actions[i].requestedAt <= next.actions[j].requestedAt {
      assert st.actions[i].requestedAt <= st.actions[j].requestedAt;
    }
  }

  /** Every confirmation, accepted or refused, keeps the workflow's invariant. */
  lemma ConfirmStepKeepsValid(cfg: Config, st: FlowState, id: int, admin: int, now: int, search: Search)
    requires ValidState(cfg, st)
    ensures ValidState(cfg, ConfirmStep(cfg, st, id, admin, now, search).0)
  {
    var res := ConfirmStep(cfg, st, id, admin, now, search);
    if res.1.Ok? {
      var k := id - 1;
      var old_ := st.actions[k];
      var a := AddConfirmation(old_, admin, now).value;
      AddConfirmationKeepsValid(cfg, st.seeds, old_, id, admin, now);
      if a.status != ForcedActionStatus.Pending {
        var roundId := ForcedRoundId(a.chatId, a.id);
        var outcome := search(roundId, a.forcedValue);
        if outcome.Ok? && outcome.value.Some? {
          var applied := a.(appliedRound := Some(roundId), status := Applied);
          assert res.0.actions == st.actions[k := applied];
          ActionValidMoreSeeds(cfg, st.seeds, res.0.seeds, a, id);
          ReplaceKeepsValid(cfg, st, res.0, k, applied);
        } else {
          ReplaceKeepsValid(cfg, st, res.0, k, a);
        }
      } else {
        ReplaceKeepsValid(cfg, st, res.0, k, a);
      }
    }
  }

  /**
   * No confirmation moves an action backwards: a PENDING action stays
   * PENDING or leaves it, an APPROVED or APPLIED one is left as it was.
   */
  lemma ConfirmStepNeverMovesBack(cfg: Config, st: FlowState, id: int, admin: int, now: int,
                                  search: Search, k: nat)
    requires k < |st.actions|
    requires st.actions[k].status != ForcedActionStatus.Pending
    ensures var next := ConfirmStep(cfg, st, id, admin, now, search).0;
      k < |next.actions| && next.actions[k] == st.actions[k]
  {
  }

  /**
   * A confirmation that applies an action stored what the search found:
   * the found seed's encryption and commitment under the action's round.
   */
  lemma AppliedStoresFound(cfg: Config, st: FlowState, id: int, admin: int, now: int, search: Search)
    returns (found: (string, string))
    requires ConfirmStep(cfg, st, id, admin, now, search).1.Ok?
    requires ConfirmStep(cfg, st, id, admin, now, search).1.value.status == Applied
    ensures 1 <= id <= |st.actions| && AddConfirmation(st.actions[id - 1], admin, now).Ok?
    ensures var a := AddConfirmation(st.actions[id - 1], admin, now).value;
      var roundId := ForcedRoundId(a.chatId, a.id);
      var next := ConfirmStep(cfg, st, id, admin, now, search).0;
      search(roundId, a.forcedValue) == Ok(Some(found)) &&
      next.actions[id - 1] == a.(appliedRound := Some(roundId), status := Applied) &&
      roundId !in st.seeds &&
      next.seeds == st.seeds[roundId := NewSeedRecord(roundId, found.1, cfg.vault.encrypt(found.0), None)] &&
      next.audit == st.audit + [AuditEntry(System, "force_applied", IntToString(a.chatId),
                                           ForceApplied(a.id, a.forcedValue, roundId))]
  {
    var a := AddConfirmation(st.actions[id - 1], admin, now).value;
    var roundId := ForcedRoundId(a.chatId, a.id);
    found := search(roundId, a.forcedValue).value.value;
  }

  /**
   * A confirmation that applies an action has stored, under the action's
   * round, the encryption of a seed whose digits for that round (no client
   * seed) end in a digit of the requested class, with that seed's
   * commitment.
   */
  lemma AppliedRoundIsForced(cfg: Config, st: FlowState, id: int, admin: int, now: int, candidates: seq<seq<byte>>)
    returns (seed: string)
    requires DefaultMaxAttempts <= |candidates|
    requires ConfirmStep(cfg, st, id, admin, now, SeedSearch(cfg.crypto, candidates)).1.Ok?
    requires ConfirmStep(cfg, st, id, admin, now, SeedSearch(cfg.crypto, candidates)).1.value.status == Applied
    ensures 1 <= id <= |st.actions|
    ensures var next := ConfirmStep(cfg, st, id, admin, now, SeedSearch(cfg.crypto, candidates)).0;
      var a := next.actions[id - 1];
      var roundId := ForcedRoundId(a.chatId, a.id);
      a.appliedRound == Some(roundId) &&
      a.forcedValue == st.actions[id - 1].forcedValue &&
      roundId !in st.seeds &&
      next.seeds == st.seeds[roundId := NewSeedRecord(roundId, Commitment(cfg.crypto, seed), cfg.vault.encrypt(seed), None)] &&
      RoundDigits(cfg.crypto, seed, roundId, None).Ok? &&
      Satisfies(a.forcedValue, RoundDigits(cfg.crypto, seed, roundId, None).value[DigitCount - 1])
  {
    var search := SeedSearch(cfg.crypto, candidates);
    var found := AppliedStoresFound(cfg, st, id, admin, now, search);
    var a := AddConfirmation(st.actions[id - 1], admin, now).value;
    var roundId := ForcedRoundId(a.chatId, a.id);
    assert search(roundId, a.forcedValue) == ForcedSeed(cfg.crypto, roundId, a.forcedValue, candidates, DefaultMaxAttempts);
    var i := ForcedSeedSound(cfg.crypto, roundId, a.forcedValue, candidates, DefaultMaxAttempts);
    seed := SeedOf(candidates[i]);
    assert found == (seed, Commitment(cfg.crypto, seed));
  }

  // ---------------------------------------------------------------------
  // Queries
  // ---------------------------------------------------------------------

  /** `if chat_id:` — a chat filter applies only for a given, non-zero chat id. */
  predicate InChat(a: ForcedAction, chatId: Option<int>)
  {
    chatId.None? || chatId.value == 0 || a.chatId == chatId.value
  }

  /** `get_pending_actions`: the PENDING actions, of the chat when one is given. */
  function PendingActions(actions: seq<ForcedAction>, chatId: Option<int>): (r: seq<ForcedAction>)
    ensures forall a :: a in r <==> a in actions && a.status == ForcedActionStatus.Pending && InChat(a, chatId)
  {
    Filter(actions, (a: ForcedAction) => a.status == ForcedActionStatus.Pending && InChat(a, chatId))
  }

  /** `get_force_history`: the actions of the chat when one is given, newest request first, at most `limit`. */
  function ForceHistory(actions: seq<ForcedAction>, chatId: Option<int>, limit: nat): (r: seq<ForcedAction>)
    requires RequestedInOrder(actions)
    ensures |r| == Min(limit, |Filter(actions, (a: ForcedAction) => InChat(a, chatId))|)
    ensures forall a :: a in r ==> a in actions && InChat(a, chatId)
    ensures forall i, j :: 0 <= i < j < |r| ==> r[i].requestedAt >= r[j].requestedAt
    ensures forall a, b :: a in actions && InChat(a, chatId) && a !in r && b in r ==> a.requestedAt <= b.requestedAt
  {
    var keep := (a: ForcedAction) => InChat(a, chatId);
    var time := (a: ForcedAction) => a.requestedAt;
    assert TimesAscend(actions, time);
    NewestFirstFromTable(actions, keep, limit);
    NewestFirstDescending(actions, keep, limit, time);
    NewestFirstKeepsNewest(actions, keep, limit, time);
    NewestFirst(actions, keep, limit)
  }

  // ---------------------------------------------------------------------
  // The service
  // ---------------------------------------------------------------------

  /** `ForceFlowService`: the configuration, the shared seed table and the workflow's own tables. */
  class ForceFlowService {
    const config: Config
    const seeds: SeedTable
    var actions: seq<ForcedAction>
    var audit: seq<AuditEntry>

    /** The tables as one value. */
    function State(): FlowState
      reads this, seeds
    {
      FlowState(actions, audit, seeds.records)
    }

    ghost predicate Valid()
      reads this, seeds
    {
      seeds.Valid() && ValidState(config, State())
    }

    constructor (config: Config, seeds: SeedTable)
      requires seeds.Valid()
      ensures Valid()
      ensures this.config == config && this.seeds == seeds
      ensures actions == [] && audit == []
    {
      this.config := config;
      this.seeds := seeds;
      actions := [];
      audit := [];
    }

    /** `request_force`, at time `now`, no earlier than the previous request. */
    method RequestForce(chatId: int, requestedBy: int, forcedValue: string, now: int)
      returns (r: Result<RequestReceipt, ForceError>)
      requires Valid()
      requires |actions| > 0 ==> actions[|actions| - 1].requestedAt <= now
      modifies this
      ensures (State(), r) == RequestStep(config, old(State()), chatId, requestedBy, forcedValue, now)
      ensures Valid()
    {
      ghost var before := State();
      RequestStepKeepsValid(config, before, chatId, requestedBy, forcedValue, now);
      if requestedBy !in config.adminIds {
        return Err(NotAdmin);
      }
      if !IsForcedValue(forcedValue) {
        return Err(InvalidValue);
      }
      var id := |actions| + 1;
      var forcedAction := ForcedAction(id, chatId, requestedBy, forcedValue, now, [], config.confirmThreshold,
                                       ForcedActionStatus.Pending, None);
      actions := actions + [forcedAction];
      var auditLog := AuditEntry(Admin(requestedBy), "force_requested", IntToString(chatId), ForceRequested(forcedValue, id));
      audit := audit + [auditLog];
      r := Ok(RequestReceipt(id, config.confirmThreshold));
    }

    /**
     * `confirm_force` at time `now`; `candidates` are the random draws the
     * seed search would make.
     */
    method ConfirmForce(forcedActionId: int, confirmedBy: int, now: int, candidates: seq<seq<byte>>)
      returns (r: Result<ConfirmReceipt, ForceError>)
      requires Valid()
      requires DefaultMaxAttempts <= |candidates|
      modifies this, seeds
      ensures (State(), r) == ConfirmStep(config, old(State()), forcedActionId, confirmedBy, now,
                                          SeedSearch(config.crypto, candidates))
      ensures Valid()
    {
      ghost var before := State();
      ghost var search := SeedSearch(config.crypto, candidates);
      ghost var step := ConfirmStep(config, before, forcedActionId, confirmedBy, now, search);
      ConfirmStepKeepsValid(config, before, forcedActionId, confirmedBy, now, search);
      if confirmedBy !in config.adminIds {
        r := Err(NotAdmin);
        assert step == (before, r);
      } else if !(1 <= forcedActionId <= |actions|) {
        r := Err(NotFound);
        assert step == (before, r);
      } else {
        var confirmed := AddConfirmation(actions[forcedActionId - 1], confirmedBy, now);
        if confirmed.Err? {
          r := Err(confirmed.error);
          assert step == (before, r);
        } else {
          assert step == Confirmed(config, before, forcedActionId - 1, confirmed.value, search);
          r := ConfirmAt(forcedActionId - 1, confirmed.value, candidates);
        }
      }
    }

    /** The rest of `confirm_force` once the confirmation `forcedAction` of the action at position `k` is accepted. */
    method ConfirmAt(k: nat, forcedAction: ForcedAction, candidates: seq<seq<byte>>)
      returns (r: Result<ConfirmReceipt, ForceError>)
      requires seeds.Valid()
      requires k < |actions|
      requires DefaultMaxAttempts <= |candidates|
      modifies this, seeds
      ensures (State(), r) == Confirmed(config, old(State()), k, forcedAction, SeedSearch(config.crypto, candidates))
      ensures seeds.Valid()
    {
      if forcedAction.status == ForcedActionStatus.Pending {
        actions := actions[k := forcedAction];
        r := Ok(Receipt(forcedAction));
      } else {
        r := ApplyApprovedAt(k, forcedAction, candidates);
      }
    }

    /**
     * The part of `confirm_force` after the threshold is reached: the seed
     * search, storing the seed, and marking the action at position `k` applied.
     */
    method ApplyApprovedAt(k: nat, forcedAction: ForcedAction, candidates: seq<seq<byte>>)
      returns (r: Result<ConfirmReceipt, ForceError>)
      requires seeds.Valid()
      requires k < |actions|
      requires DefaultMaxAttempts <= |candidates|
      modifies this, seeds
      ensures (State(), r) == ApplyApproved(config, old(State()), k, forcedAction, SeedSearch(config.crypto, candidates))
      ensures seeds.Valid()
    {
      var roundId := ForcedRoundId(forcedAction.chatId, forcedAction.id);
      assert SeedSearch(config.crypto, candidates)(roundId, forcedAction.forcedValue)
          == ForcedSeed(config.crypto, roundId, forcedAction.forcedValue, candidates, DefaultMaxAttempts);
      var forcedSeedResult := GenerateForcedSeed(config.crypto, roundId, forcedAction.forcedValue,
                                                 candidates, DefaultMaxAttempts);
      if forcedSeedResult.Err? {
        return Err(SearchFailed(forcedSeedResult.error));
      }
      var approved := forcedAction;
      if forcedSeedResult.value.Some? {
        var (serverSeed, commitment) := forcedSeedResult.value.value;
        var stored := seeds.EncryptAndStoreSeed(config.vault, roundId, serverSeed, commitment, None);
        if stored.Err? {
          return Err(StoreFailed(stored.error));
        }
        approved := forcedAction.(appliedRound := Some(roundId), status := Applied);
        var auditLog := AuditEntry(System, "force_applied", IntToString(forcedAction.chatId),
                                   ForceApplied(forcedAction.id, forcedAction.forcedValue, roundId));
        audit := audit + [auditLog];
      }
      actions := actions[k := approved];
      r := Ok(Receipt(approved));
    }

    /** `get_pending_actions`. */
    function GetPendingActions(chatId: Option<int>): (r: seq<ForcedAction>)
      reads this
      ensures forall a :: a in r <==> a in actions && a.status == ForcedActionStatus.Pending && InChat(a, chatId)
    {
      PendingActions(actions, chatId)
    }

    /** `get_force_history`. */
    function GetForceHistory(chatId: Option<int>, limit: nat): (r: seq<ForcedAction>)
      requires Valid()
      reads this, seeds
      ensures |r| == Min(limit, |Filter(actions, (a: ForcedAction) => InChat(a, chatId))|)
      ensures forall a :: a in r ==> a in actions && InChat(a, chatId)
      ensures forall i, j :: 0 <= i < j < |r| ==> r[i].requestedAt >= r[j].requestedAt
      ensures forall a, b :: a in actions && InChat(a, chatId) && a !in r && b in r ==> a.requestedAt <= b.requestedAt
    {
      ForceHistory(actions, chatId, limit)
    }
  }
}
