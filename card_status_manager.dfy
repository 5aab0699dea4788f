/**
 * service/impl/CardStatusManager.java: the card-status state machine shared by the admin operations.
 * `now` stands for YearMonth.now().
 */
module CardStatusManager {
  import opened Common
  import opened YearMonths
  import opened Cards
  import opened Errors
  import opened CardRepositories
  import CardQueryService

  /** What one status change does to a card: the status it is left in, whether it is saved, and the error thrown. */
  datatype Transition = Transition(status: CardStatus, saved: bool, error: Option<Error>)

  /**
   * validateCurrentStatus: an empty list of expected statuses accepts any status; otherwise the current status
   * must be one of them.
   */
  function ValidateCurrentStatus(cardId: Uuid, current: CardStatus, action: string, expected: seq<CardStatus>): (r: Option<Error>)
    ensures r.None? <==> |expected| == 0 || current in expected
    ensures r.Some? ==> r.value == InvalidOperation(UnexpectedStatus(action, cardId, current, expected))
  {
    if |expected| > 0 && current !in expected then
      Some(InvalidOperation(UnexpectedStatus(action, cardId, current, expected)))
    else
      None
  }

  /** ensureCardIsNotExpired's test: the expiration month is strictly before the current month. */
  predicate IsLapsed(expirationDate: YearMonth, now: YearMonth)
  {
    IsBefore(expirationDate, now)
  }

  /**
   * The decision processStatusChange takes for a card in status `current` asked to move to `newStatus`:
   * a no-op when it is already there, a rejection when the current status is not expected, an EXPIRED
   * correction (saved, then rejected) when it is to become ACTIVE after its expiration month, else the move.
   */
  function StatusTransition(cardId: Uuid, current: CardStatus, expirationDate: YearMonth, newStatus: CardStatus,
                            action: string, expected: seq<CardStatus>, now: YearMonth): (t: Transition)
    // the no-op comes first: it holds even when `current` is not an expected status
    ensures current == newStatus ==> t == Transition(current, false, None)
    // a rejected source status leaves the card as it was and saves nothing
    ensures current != newStatus && ValidateCurrentStatus(cardId, current, action, expected).Some? ==>
              t == Transition(current, false, ValidateCurrentStatus(cardId, current, action, expected))
    // the card is saved exactly when it gets past the status check
    ensures t.saved <==> current != newStatus && ValidateCurrentStatus(cardId, current, action, expected).None?
    // success leaves the card in the target status
    ensures t.error.None? ==> t.status == newStatus
    // the only other outcome of an accepted move is the expiration correction, and only on the way to ACTIVE
    ensures t.saved && t.error.Some? <==> t.saved && newStatus == Active && IsLapsed(expirationDate, now)
    ensures t.saved && t.error.Some? ==> t.status == Expired && t.error == Some(InvalidOperation(CardExpired))
    // every error is an InvalidOperation
    ensures t.error.Some? ==> t.error.value.InvalidOperation?
  {
    if current == newStatus then Transition(current, false, None)
    else
      var invalid := ValidateCurrentStatus(cardId, current, action, expected);
      if invalid.Some? then Transition(current, false, invalid)
      else if newStatus == Active && IsLapsed(expirationDate, now) then
        Transition(Expired, true, Some(InvalidOperation(CardExpired)))
      else
        Transition(newStatus, true, None)
  }

  /** The expiration month itself is still valid: isBefore is strict. */
  lemma CurrentMonthNotLapsed(current: CardStatus, cardId: Uuid, action: string, expected: seq<CardStatus>, now: YearMonth)
    requires current != Active && (|expected| == 0 || current in expected)
    ensures StatusTransition(cardId, current, now, Active, action, expected, now) == Transition(Active, true, None)
  {
  }

  /** A target other than ACTIVE never consults the expiration date. */
  lemma ExpirationIgnoredUnlessActivating(cardId: Uuid, current: CardStatus, e1: YearMonth, e2: YearMonth,
                                          newStatus: CardStatus, action: string, expected: seq<CardStatus>, now: YearMonth)
    requires newStatus != Active
    ensures StatusTransition(cardId, current, e1, newStatus, action, expected, now)
         == StatusTransition(cardId, current, e2, newStatus, action, expected, now)
  {
  }

  /** Applying the same change twice is the same as applying it once when the first one succeeded. */
  lemma {:induction false} SuccessfulChangeIsIdempotent(cardId: Uuid, current: CardStatus, expirationDate: YearMonth,
                                          newStatus: CardStatus, action: string, expected: seq<CardStatus>, now: YearMonth)
    requires StatusTransition(cardId, current, expirationDate, newStatus, action, expected, now).error.None?
    ensures var t := StatusTransition(cardId, current, expirationDate, newStatus, action, expected, now);
            StatusTransition(cardId, t.status, expirationDate, newStatus, action, expected, now) == Transition(newStatus, false, None)
  {
  }

  /**
   * The status the database holds after an operation, as the code is written: the operation runs in one
   * transaction that rolls back on the runtime exception it throws, so every write of a failed operation is
   * discarded, the EXPIRED correction included.
   */
  function CommittedStatusAsWritten(t: Transition, current: CardStatus): (s: CardStatus)
    ensures t.error.Some? ==> s == current
    ensures t.error.None? ==> s == t.status
  {
    if t.error.Some? then current else t.status
  }

  /**
   * The status the database holds after an operation with the correction kept (the failure does not roll back
   * the write ensureCardIsNotExpired made): a saved status stays, an unsaved operation leaves the old one.
   */
  function CommittedStatus(t: Transition, current: CardStatus): (s: CardStatus)
    ensures t.saved ==> s == t.status
    ensures !t.saved ==> s == current
  {
    if t.saved then t.status else current
  }

  /**
   * ensureCardIsNotExpired: a lapsed card is set to EXPIRED and saved, and the activation fails; otherwise
   * nothing happens.
   */
  method EnsureCardIsNotExpired(repo: CardRepository, card: Card, now: YearMonth) returns (err: Option<Error>)
    modifies repo, card
    ensures err.Some? <==> IsLapsed(card.expirationDate, now)
    ensures err.Some? ==> err.value == InvalidOperation(CardExpired)
    ensures card.status == (if err.Some? then Expired else old(card.status))
    ensures card.balance == old(card.balance) && card.active == old(card.active)
    ensures repo.cards == (if err.Some? then old(repo.cards)[card.id := card] else old(repo.cards))
    ensures repo.saveLog == old(repo.saveLog) + (if err.Some? then [card.id] else [])
  {
    err := None;
    if IsBefore(card.expirationDate, now) {
      card.status := Expired;
      repo.Save(card);
      err := Some(InvalidOperation(CardExpired));
    }
  }

  /**
   * processStatusChange: fetch the card without the soft-delete filter (NotFound if there is none), then apply
   * StatusTransition to it. Only the card's status changes, and it is saved at most once.
   */
  method ProcessStatusChange(repo: CardRepository, cardId: Uuid, newStatus: CardStatus, action: string,
                             expected: seq<CardStatus>, now: YearMonth) returns (r: Result<Card>)
    requires repo.Valid()
    modifies repo, repo.cards.Values
    ensures repo.Valid() && repo.cards == old(repo.cards)
    ensures cardId !in repo.cards ==>
              && r == Err(ResourceNotFound("Card", cardId))
              && repo.States() == old(repo.States()) && repo.saveLog == old(repo.saveLog)
    ensures cardId in repo.cards ==>
              var before := old(repo.States())[cardId];
              var t := StatusTransition(cardId, before.status, repo.cards[cardId].expirationDate, newStatus, action, expected, now);
              && repo.States() == old(repo.States())[cardId := before.(status := t.status)]
              && repo.saveLog == old(repo.saveLog) + (if t.saved then [cardId] else [])
              && r == (if t.error.None? then Ok(repo.cards[cardId]) else Err(t.error.value))
  {
    var found := CardQueryService.FindByIdOrThrow(repo, cardId);
    if found.Err? {
      return Err(found.error);
    }
    var card := found.value;
    if card.status == newStatus {
      return Ok(card);
    }
    var invalid := ValidateCurrentStatus(card.id, card.status, action, expected);
    if invalid.Some? {
      return Err(invalid.value);
    }
    if newStatus == Active {
      var expired := EnsureCardIsNotExpired(repo, card, now);
      if expired.Some? {
        assert repo.cards == old(repo.cards);
        return Err(expired.value);
      }
    }
    card.status := newStatus;
    repo.Save(card);
    assert repo.cards == old(repo.cards);
    r := Ok(card);
  }
}
