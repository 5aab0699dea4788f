/**
 * service/impl/CardServiceImpl.java: the card owner's operations — block request, balance read and the
 * transfer engine. The requester id comes in as a parameter, as it does in the source.
 */
module CardService {
  import opened Common
  import opened Money
  import opened YearMonths
  import opened Cards
  import opened Errors
  import opened CardRepositories
  import opened TransferRequests
  import CardQueryService
  import opened CardStatusManager

  /**
   * The status side of requestCardBlock for a card the user may see: only an ACTIVE card moves, to
   * BLOCK_REQUESTED, and is saved; any other status is rejected and left alone.
   */
  function BlockRequestTransition(current: CardStatus): (t: Transition)
    ensures t.error.None? <==> current == Active
    ensures t.error.None? ==> t.status == BlockRequested && t.saved
    ensures t.error.Some? ==> t == Transition(current, false, Some(InvalidOperation(NotInActiveStatus(current))))
  {
    if current != Active then Transition(current, false, Some(InvalidOperation(NotInActiveStatus(current))))
    else Transition(BlockRequested, true, None)
  }

  /**
   * requestCardBlock: the card must exist, belong to the user and not be soft-deleted (else NotFound); then
   * BlockRequestTransition decides. Nothing but that card's status changes.
   */
  method RequestCardBlock(repo: CardRepository, cardId: Uuid, userId: Uuid) returns (r: Result<Card>)
    requires repo.Valid()
    modifies repo, repo.cards.Values
    ensures repo.Valid() && repo.cards == old(repo.cards)
    ensures old(CardQueryService.FindActiveByIdAndOwnerOrThrow(repo, cardId, userId)).Err? ==>
              && r == Err(ResourceNotFound("Active card for user", cardId))
              && repo.States() == old(repo.States()) && repo.saveLog == old(repo.saveLog)
    ensures old(CardQueryService.FindActiveByIdAndOwnerOrThrow(repo, cardId, userId)).Ok? ==>
              var before := old(repo.States())[cardId];
              var t := BlockRequestTransition(before.status);
              && repo.States() == old(repo.States())[cardId := before.(status := t.status)]
              && repo.saveLog == old(repo.saveLog) + (if t.saved then [cardId] else [])
              && r == (if t.error.None? then Ok(repo.cards[cardId]) else Err(t.error.value))
  {
    var found := CardQueryService.FindActiveByIdAndOwnerOrThrow(repo, cardId, userId);
    if found.Err? {
      return Err(found.error);
    }
    var card := found.value;
    if card.status != Active {
      return Err(InvalidOperation(NotInActiveStatus(card.status)));
    }
    card.status := BlockRequested;
    repo.Save(card);
    assert repo.cards == old(repo.cards);
    r := Ok(card);
  }

  /**
   * getMyCardBalance: the balance of a card the user owns and has not had soft-deleted; otherwise NotFound.
   * It reads through the repository directly, so its error names "Active card" rather than the query
   * service's "Active card for user".
   */
  function GetMyCardBalance(repo: CardRepository, cardId: Uuid, userId: Uuid): (r: Result<int>)
    reads repo, repo.cards.Values
    ensures r.Ok? <==> CardQueryService.FindActiveByIdAndOwnerOrThrow(repo, cardId, userId).Ok?
    ensures r.Ok? ==> r.value == CardQueryService.FindActiveByIdAndOwnerOrThrow(repo, cardId, userId).value.balance
    ensures r.Err? ==> r.error == ResourceNotFound("Active card", cardId)
  {
    match repo.FindByIdAndOwnerIdAndActiveTrue(cardId, userId)
    case Some(c) => Ok(c.balance)
    case None => Err(ResourceNotFound("Active card", cardId))
  }

  /**
   * validateTransfer: the business checks in the source's order (same card, ownership of both cards, status
   * of the source, funds), the first failure deciding the error. The destination's status is not an input.
   */
  function ValidateTransfer(fromId: Uuid, fromOwner: Uuid, fromStatus: CardStatus, fromBalance: int,
                            toId: Uuid, toOwner: Uuid, userId: Uuid, amount: int): (r: Option<Error>)
    ensures r.None? <==> fromId != toId && fromOwner == userId && toOwner == userId && fromStatus == Active && fromBalance >= amount
    ensures fromId == toId ==> r == Some(InvalidOperation(SameCard))
    ensures fromId != toId && (fromOwner != userId || toOwner != userId) ==> r == Some(UnauthorizedOperation)
    ensures r == Some(InvalidOperation(SourceNotActive)) <==>
              fromId != toId && fromOwner == userId && toOwner == userId && fromStatus != Active
    ensures r.Some? && r.value.InsufficientFunds? <==>
              fromId != toId && fromOwner == userId && toOwner == userId && fromStatus == Active && fromBalance < amount
    ensures r.Some? && r.value.InsufficientFunds? ==> r.value == InsufficientFunds(fromBalance, amount)
  {
    if fromId == toId then Some(InvalidOperation(SameCard))
    else if fromOwner != userId || toOwner != userId then Some(UnauthorizedOperation)
    else if fromStatus != Active then Some(InvalidOperation(SourceNotActive))
    else if fromBalance < amount then Some(InsufficientFunds(fromBalance, amount))
    else None
  }

  /**
   * The outcome of transferBetweenMyCards on the current table: both cards must exist and not be soft-deleted
   * (the source is looked up first), then ValidateTransfer decides. None means the transfer goes through.
   */
  function TransferCheck(repo: CardRepository, fromId: Uuid, toId: Uuid, amount: int, userId: Uuid): (r: Option<Error>)
    reads repo, repo.cards.Values
    ensures r.None? ==> fromId in repo.cards && toId in repo.cards && fromId != toId
    ensures r.None? ==> repo.cards[fromId].balance >= amount && repo.cards[fromId].status == Active
    ensures r.None? ==> repo.cards[fromId].active && repo.cards[toId].active
    ensures r.None? ==> repo.cards[fromId].ownerId == userId && repo.cards[toId].ownerId == userId
    ensures !(fromId in repo.cards && repo.cards[fromId].active) ==> r == Some(ResourceNotFound("Active card", fromId))
    ensures fromId in repo.cards && repo.cards[fromId].active && !(toId in repo.cards && repo.cards[toId].active) ==>
              r == Some(ResourceNotFound("Active card", toId))
    ensures repo.Valid() && fromId in repo.cards && repo.cards[fromId].active && toId in repo.cards && repo.cards[toId].active ==>
              r == ValidateTransfer(fromId, repo.cards[fromId].ownerId, repo.cards[fromId].status, repo.cards[fromId].balance,
                                    toId, repo.cards[toId].ownerId, userId, amount)
  {
    match CardQueryService.FindActiveByIdWithLockOrThrow(repo, fromId)
    case Err(e) => Some(e)
    case Ok(from) =>
      match CardQueryService.FindActiveByIdWithLockOrThrow(repo, toId)
      case Err(e) => Some(e)
      case Ok(to) => ValidateTransfer(from.id, from.ownerId, from.status, from.balance, to.id, to.ownerId, userId, amount)
  }

  /** executeTransfer: debit the source, credit the destination, save both. */
  method ExecuteTransfer(repo: CardRepository, amount: int, fromCard: Card, toCard: Card)
    requires fromCard != toCard
    modifies repo, fromCard, toCard
    ensures fromCard.balance == old(fromCard.balance) - amount
    ensures toCard.balance == old(toCard.balance) + amount
    ensures fromCard.status == old(fromCard.status) && fromCard.active == old(fromCard.active)
    ensures toCard.status == old(toCard.status) && toCard.active == old(toCard.active)
    ensures repo.cards == old(repo.cards)[fromCard.id := fromCard][toCard.id := toCard]
    ensures repo.saveLog == old(repo.saveLog) + [fromCard.id, toCard.id]
  {
    fromCard.balance := fromCard.balance - amount;
    toCard.balance := toCard.balance + amount;
    repo.SaveAll(fromCard, toCard);
  }

  /**
   * transferBetweenMyCards: when TransferCheck finds no error, `amount` cents leave the source and reach the
   * destination and both cards are saved; otherwise nothing changes and nothing is saved. The total of all
   * balances is the same afterwards, and no balance becomes negative for a non-negative amount.
   * The request has passed @Valid (ids and amount present) and, like every TransferRequest, carries an amount
   * at scale 2, so its unscaled value is the amount in cents.
   */
  method TransferBetweenMyCards(repo: CardRepository, request: TransferRequest, userId: Uuid) returns (r: Result<()>)
    requires repo.Valid()
    requires request.fromCardId.Some? && request.toCardId.Some? && request.amount.Some? && IsNormalized(request)
    modifies repo, repo.cards.Values
    ensures repo.Valid() && repo.cards == old(repo.cards)
    ensures var fromId, toId, amount := request.fromCardId.value, request.toCardId.value, request.amount.value.unscaled;
            var check := old(TransferCheck(repo, fromId, toId, amount, userId));
            && (r.Ok? <==> check.None?)
            && (r.Err? ==> r.error == check.value && repo.States() == old(repo.States()) && repo.saveLog == old(repo.saveLog))
            && (r.Ok? ==>
                  var s := old(repo.States());
                  var s1 := s[fromId := s[fromId].(balance := s[fromId].balance - amount)];
                  && repo.States() == s1[toId := s1[toId].(balance := s1[toId].balance + amount)]
                  && repo.saveLog == old(repo.saveLog) + [fromId, toId])
    ensures SumBalances(repo.States()) == old(SumBalances(repo.States()))
    ensures request.amount.value.unscaled >= 0 && old(repo.BalancesNonNegative()) ==> repo.BalancesNonNegative()
  {
    var fromId, toId, amount := request.fromCardId.value, request.toCardId.value, request.amount.value.unscaled;
    ghost var s := repo.States();
    var fromFound := CardQueryService.FindActiveByIdWithLockOrThrow(repo, fromId);
    if fromFound.Err? {
      return Err(fromFound.error);
    }
    var toFound := CardQueryService.FindActiveByIdWithLockOrThrow(repo, toId);
    if toFound.Err? {
      return Err(toFound.error);
    }
    var fromCard, toCard := fromFound.value, toFound.value;
    var invalid := ValidateTransfer(fromCard.id, fromCard.ownerId, fromCard.status, fromCard.balance,
                                    toCard.id, toCard.ownerId, userId, amount);
    if invalid.Some? {
      return Err(invalid.value);
    }
    ExecuteTransfer(repo, amount, fromCard, toCard);
    assert repo.cards == old(repo.cards);
    MoveConservesTotal(s, fromId, toId, amount);
    r := Ok(());
  }

  /** Test setup for TransferScenario: two ACTIVE cards of one user, numbered 1 and 2, holding the given balances. */
  method TwoCards(userId: Uuid, fromBalance: int, toBalance: int) returns (repo: CardRepository)
    ensures fresh(repo) && repo.Valid() && repo.cards.Keys == {1, 2}
    ensures repo.cards[1] != repo.cards[2] && fresh(repo.cards[1]) && fresh(repo.cards[2])
    ensures repo.States() == map[1 := CardState(Active, fromBalance, true), 2 := CardState(Active, toBalance, true)]
    ensures repo.cards[1].ownerId == userId && repo.cards[2].ownerId == userId
  {
    var expiry := YearMonth(2030, 12);
    repo := new CardRepository();
    var fromCard := new Card(1, "4444555566667777", expiry, userId, Active);
    fromCard.balance := fromBalance;
    repo.Save(fromCard);
    var toCard := new Card(2, "1111222233334444", expiry, userId, Active);
    toCard.balance := toBalance;
    repo.Save(toCard);
    assert repo.cards == map[1 := fromCard, 2 := toCard];
  }

  /**
   * The integration scenario: cards holding 1000.00 and 500.00; a transfer of 200.50 leaves 799.50 and
   * 700.50, and a following transfer of 800.00 fails for lack of funds and changes nothing.
   */
  method TransferScenario(userId: Uuid) returns (first: Result<()>, second: Result<()>, fromBalance: int, toBalance: int)
    ensures first.Ok?
    ensures second == Err(InsufficientFunds(79950, 80000))
    ensures fromBalance == 79950 && toBalance == 70050
  {
    var repo := TwoCards(userId, 100000, 50000);
    var small := NewTransferRequest(Some(1), Some(2), Some(Decimal(20050, 2)));
    SetScale2AtScale2(Decimal(20050, 2));
    assert small.amount.value.unscaled == 20050;
    assert TransferCheck(repo, 1, 2, 20050, userId) == None;
    first := TransferBetweenMyCards(repo, small, userId);
    assert repo.States() == map[1 := CardState(Active, 79950, true), 2 := CardState(Active, 70050, true)];

    var large := NewTransferRequest(Some(1), Some(2), Some(Decimal(80000, 2)));
    SetScale2AtScale2(Decimal(80000, 2));
    assert large.amount.value.unscaled == 80000;
    assert TransferCheck(repo, 1, 2, 80000, userId) == Some(InsufficientFunds(79950, 80000));
    second := TransferBetweenMyCards(repo, large, userId);
    fromBalance, toBalance := repo.cards[1].balance, repo.cards[2].balance;
  }
}
