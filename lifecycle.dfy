/**
 * The card lifecycle across the four status operations (activateCard, confirmCardBlock, declineCardBlock in
 * AdminServiceImpl, requestCardBlock in CardServiceImpl), and what a failed operation leaves committed.
 */
module CardLifecycle {
  import opened Common
  import opened YearMonths
  import opened Cards
  import opened Errors
  import opened CardStatusManager
  import opened CardService
  import opened AdminService

  datatype StatusOp = Activate | ConfirmBlock | DeclineBlock | RequestBlock

  /** The decision one operation takes on a card with the given status, with `now` as the current month. */
  function StatusAfter(op: StatusOp, cardId: Uuid, current: CardStatus, expirationDate: YearMonth, now: YearMonth): (t: Transition)
    ensures t.error.None? ==> t.status == (match op
                                           case Activate => Active
                                           case ConfirmBlock => Blocked
                                           case DeclineBlock => Active
                                           case RequestBlock => BlockRequested)
    ensures t.error.Some? ==> t.status == current || t.status == Expired
  {
    match op
    case Activate => ActivateTransition(cardId, current, expirationDate, now)
    case ConfirmBlock => ConfirmBlockTransition(cardId, current, expirationDate, now)
    case DeclineBlock => DeclineBlockTransition(cardId, current, expirationDate, now)
    case RequestBlock => BlockRequestTransition(current)
  }

  /** The moves an operation can make (a no-op or a rejection leaves the status where it was). */
  predicate PermittedMove(from: CardStatus, to: CardStatus)
  {
    from == to
    || (from == Active && to == BlockRequested)
    || (from == BlockRequested && to in {Blocked, Active, Expired})
    || (from in {Blocked, Expired} && to in {Active, Expired})
  }

  /** Every operation moves along PermittedMove. */
  lemma EveryStepPermitted(op: StatusOp, cardId: Uuid, current: CardStatus, expirationDate: YearMonth, now: YearMonth)
    ensures PermittedMove(current, StatusAfter(op, cardId, current, expirationDate, now).status)
  {
  }

  /** The status after a sequence of operations, each applied to the status the previous one left. */
  function ApplyOps(ops: seq<StatusOp>, cardId: Uuid, current: CardStatus, expirationDate: YearMonth, now: YearMonth): (s: CardStatus)
    ensures |ops| == 0 ==> s == current
  {
    if |ops| == 0 then current
    else ApplyOps(ops[1..], cardId, StatusAfter(ops[0], cardId, current, expirationDate, now).status, expirationDate, now)
  }

  /** A card past its expiration month that is not ACTIVE never becomes ACTIVE again, whatever is done to it. */
  lemma {:induction false} LapsedCardNeverReactivated(ops: seq<StatusOp>, cardId: Uuid, current: CardStatus,
                                                       expirationDate: YearMonth, now: YearMonth)
    requires IsLapsed(expirationDate, now) && current != Active
    ensures ApplyOps(ops, cardId, current, expirationDate, now) != Active
    decreases |ops|
  {
    if |ops| > 0 {
      var next := StatusAfter(ops[0], cardId, current, expirationDate, now).status;
      assert next != Active;
      LapsedCardNeverReactivated(ops[1..], cardId, next, expirationDate, now);
    }
  }

  /** A card that reached BLOCKED stays out of ACTIVE until an administrator activates it. */
  lemma {:induction false} BlockedStaysInactiveWithoutActivation(ops: seq<StatusOp>, cardId: Uuid, current: CardStatus,
                                                                  expirationDate: YearMonth, now: YearMonth)
    requires current in {Blocked, Expired}
    requires forall i :: 0 <= i < |ops| ==> ops[i] != Activate
    ensures ApplyOps(ops, cardId, current, expirationDate, now) in {Blocked, Expired}
    decreases |ops|
  {
    if |ops| > 0 {
      var next := StatusAfter(ops[0], cardId, current, expirationDate, now).status;
      assert next == current;
      BlockedStaysInactiveWithoutActivation(ops[1..], cardId, next, expirationDate, now);
    }
  }

  /** As written, activating a lapsed BLOCKED card reports it expired but leaves it BLOCKED in the database. */
  lemma RollbackDiscardsExpiryCorrection(cardId: Uuid, expirationDate: YearMonth, now: YearMonth)
    requires IsLapsed(expirationDate, now)
    ensures var t := ActivateTransition(cardId, Blocked, expirationDate, now);
            && t.saved && t.status == Expired && t.error == Some(InvalidOperation(CardExpired))
            && CommittedStatusAsWritten(t, Blocked) == Blocked
  {
  }

  /**
   * With the correction kept, every operation commits exactly the status StatusAfter computes, and an activation
   * or a declined block of a lapsed card leaves it EXPIRED.
   */
  lemma ExpiryCorrectionPersists(op: StatusOp, cardId: Uuid, current: CardStatus, expirationDate: YearMonth, now: YearMonth)
    ensures var t := StatusAfter(op, cardId, current, expirationDate, now);
            CommittedStatus(t, current) == t.status
    ensures IsLapsed(expirationDate, now) && ((op == Activate && current in {Blocked, Expired}) || (op == DeclineBlock && current == BlockRequested)) ==>
              CommittedStatus(StatusAfter(op, cardId, current, expirationDate, now), current) == Expired
  {
  }
}
