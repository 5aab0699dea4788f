/**
 * service/impl/AdminServiceImpl.java: the administrator's card and user operations. The id the database
 * generates for a new card comes in as `newId`, and YearMonth.now() as `now`.
 */
module AdminService {
  import opened Common
  import opened Money
  import opened YearMonths
  import opened Cards
  import opened Errors
  import opened CardRepositories
  import opened CreateCardRequests
  import opened CardStatusManager
  import opened Users
  import CardQueryService
  import UserQueryService

  /**
   * The opening balance of a new card, in cents: the requested initial balance, or zero when there is none,
   * rounded to two decimal places half-up.
   */
  function InitialBalanceCents(initialBalance: Option<Decimal>): (c: int)
    ensures initialBalance.None? ==> c == 0
    ensures initialBalance.Some? && initialBalance.value.scale <= 2 ==> Value(Decimal(c, 2)) == Value(initialBalance.value)
    ensures initialBalance.Some? && initialBalance.value.scale > 2 ==>
              RoundsHalfUp(initialBalance.value.unscaled, Pow10(initialBalance.value.scale - 2), c)
    ensures initialBalance.Some? && initialBalance.value.unscaled >= 0 ==> c >= 0
  {
    match initialBalance
    case None => SetScale2HalfUp(Zero).unscaled
    case Some(d) => SetScale2HalfUp(d).unscaled
  }

  /** The integration-test card: an initial balance of 123.45 opens the card with 123.45. */
  lemma InitialBalanceExample()
    ensures InitialBalanceCents(Some(Decimal(12345, 2))) == 12345
  {
    SetScale2AtScale2(Decimal(12345, 2));
  }

  /**
   * createCard: a number already carried by a card that is not soft-deleted is a duplicate (checked before the
   * owner is looked up); an unknown owner is NotFound; otherwise a new ACTIVE, not soft-deleted card with the
   * requested number, expiration and owner and the rounded opening balance is stored under `newId` and saved.
   * Nothing is written on either error.
   */
  method CreateCard(cardRepo: CardRepository, userRepo: UserRepository, request: CreateCardRequest, newId: Uuid)
    returns (r: Result<Card>)
    requires cardRepo.Valid() && userRepo.Valid() && newId !in cardRepo.cards
    requires request.ownerId.Some? && request.cardNumber.Some? && request.expirationDate.Some?
    // the log line masks the number before any check, which fails on fewer than four characters
    requires |request.cardNumber.value| >= 4
    modifies cardRepo
    ensures cardRepo.Valid()
    ensures var number := request.cardNumber.value;
            old(cardRepo.ExistsByCardNumberAndActiveTrue(number)) ==>
              && r == Err(DuplicateResource("Active Card", number))
              && cardRepo.cards == old(cardRepo.cards) && cardRepo.saveLog == old(cardRepo.saveLog)
    ensures var number, owner := request.cardNumber.value, request.ownerId.value;
            !old(cardRepo.ExistsByCardNumberAndActiveTrue(number)) && owner !in userRepo.users ==>
              && r == Err(ResourceNotFound("User", owner))
              && cardRepo.cards == old(cardRepo.cards) && cardRepo.saveLog == old(cardRepo.saveLog)
    ensures var number, owner := request.cardNumber.value, request.ownerId.value;
            !old(cardRepo.ExistsByCardNumberAndActiveTrue(number)) && owner in userRepo.users ==>
              && r.Ok? && fresh(r.value)
              && r.value.id == newId && r.value.cardNumber == number && r.value.ownerId == owner
              && r.value.expirationDate == request.expirationDate.value
              && r.value.status == Active && r.value.active
              && r.value.balance == InitialBalanceCents(request.initialBalance)
              && cardRepo.cards == old(cardRepo.cards)[newId := r.value]
              && cardRepo.saveLog == old(cardRepo.saveLog) + [newId]
    ensures old(cardRepo.ActiveNumbersUnique()) ==> cardRepo.ActiveNumbersUnique()
    ensures old(cardRepo.BalancesNonNegative()) && (request.initialBalance.None? || request.initialBalance.value.unscaled >= 0) ==>
              cardRepo.BalancesNonNegative()
  {
    var number := request.cardNumber.value;
    if cardRepo.ExistsByCardNumberAndActiveTrue(number) {
      return Err(DuplicateResource("Active Card", number));
    }
    var owner := UserQueryService.FindByIdOrThrow(userRepo, request.ownerId.value);
    if owner.Err? {
      return Err(owner.error);
    }
    var card := new Card(newId, number, request.expirationDate.value, owner.value.id, Active);
    card.balance := InitialBalanceCents(request.initialBalance);
    cardRepo.Save(card);
    r := Ok(card);
  }

  /** activateCard: ACTIVE from BLOCKED or EXPIRED. */
  function ActivateTransition(cardId: Uuid, current: CardStatus, expirationDate: YearMonth, now: YearMonth): (t: Transition)
    ensures current == Active ==> t == Transition(Active, false, None)
    ensures current == BlockRequested ==> !t.saved && t.status == BlockRequested && t.error.Some?
    ensures current in {Blocked, Expired} && !IsLapsed(expirationDate, now) ==> t == Transition(Active, true, None)
    ensures current in {Blocked, Expired} && IsLapsed(expirationDate, now) ==>
              t == Transition(Expired, true, Some(InvalidOperation(CardExpired)))
  {
    StatusTransition(cardId, current, expirationDate, Active, "activate card", [Blocked, Expired], now)
  }

  /** confirmCardBlock: BLOCKED from BLOCK_REQUESTED; the expiration plays no part. */
  function ConfirmBlockTransition(cardId: Uuid, current: CardStatus, expirationDate: YearMonth, now: YearMonth): (t: Transition)
    ensures current == Blocked ==> t == Transition(Blocked, false, None)
    ensures current == BlockRequested ==> t == Transition(Blocked, true, None)
    ensures current in {Active, Expired} ==> !t.saved && t.status == current && t.error.Some?
  {
    StatusTransition(cardId, current, expirationDate, Blocked, "confirm block", [BlockRequested], now)
  }

  /** declineCardBlock: back to ACTIVE from BLOCK_REQUESTED, subject to the same expiration check as activation. */
  function DeclineBlockTransition(cardId: Uuid, current: CardStatus, expirationDate: YearMonth, now: YearMonth): (t: Transition)
    ensures current == Active ==> t == Transition(Active, false, None)
    ensures current == BlockRequested && !IsLapsed(expirationDate, now) ==> t == Transition(Active, true, None)
    ensures current == BlockRequested && IsLapsed(expirationDate, now) ==>
              t == Transition(Expired, true, Some(InvalidOperation(CardExpired)))
    ensures current in {Blocked, Expired} ==> !t.saved && t.status == current && t.error.Some?
  {
    StatusTransition(cardId, current, expirationDate, Active, "decline block", [BlockRequested], now)
  }

  /** activateCard: processStatusChange with ActivateTransition's parameters. */
  method ActivateCard(repo: CardRepository, cardId: Uuid, now: YearMonth) returns (r: Result<Card>)
    requires repo.Valid()
    modifies repo, repo.cards.Values
    ensures repo.Valid() && repo.cards == old(repo.cards)
    ensures cardId !in repo.cards ==>
              r == Err(ResourceNotFound("Card", cardId)) && repo.States() == old(repo.States()) && repo.saveLog == old(repo.saveLog)
    ensures cardId in repo.cards ==>
              var before := old(repo.States())[cardId];
              var t := ActivateTransition(cardId, before.status, repo.cards[cardId].expirationDate, now);
              && repo.States() == old(repo.States())[cardId := before.(status := t.status)]
              && repo.saveLog == old(repo.saveLog) + (if t.saved then [cardId] else [])
              && r == (if t.error.None? then Ok(repo.cards[cardId]) else Err(t.error.value))
    // the status this call leaves is the one committed when its writes are kept; with the rollback that a failure
    // triggers as written, the committed status is the one before the call
    ensures cardId in repo.cards ==>
              var before := old(repo.States())[cardId];
              var t := ActivateTransition(cardId, before.status, repo.cards[cardId].expirationDate, now);
              && repo.States()[cardId].status == CommittedStatus(t, before.status)
              && CommittedStatusAsWritten(t, before.status) == (if r.Ok? then repo.States()[cardId].status else before.status)
  {
    r := ProcessStatusChange(repo, cardId, Active, "activate card", [Blocked, Expired], now);
  }

  /** confirmCardBlock: processStatusChange with ConfirmBlockTransition's parameters. */
  method ConfirmCardBlock(repo: CardRepository, cardId: Uuid, now: YearMonth) returns (r: Result<Card>)
    requires repo.Valid()
    modifies repo, repo.cards.Values
    ensures repo.Valid() && repo.cards == old(repo.cards)
    ensures cardId !in repo.cards ==>
              r == Err(ResourceNotFound("Card", cardId)) && repo.States() == old(repo.States()) && repo.saveLog == old(repo.saveLog)
    ensures cardId in repo.cards ==>
              var before := old(repo.States())[cardId];
              var t := ConfirmBlockTransition(cardId, before.status, repo.cards[cardId].expirationDate, now);
              && repo.States() == old(repo.States())[cardId := before.(status := t.status)]
              && repo.saveLog == old(repo.saveLog) + (if t.saved then [cardId] else [])
              && r == (if t.error.None? then Ok(repo.cards[cardId]) else Err(t.error.value))
  {
    r := ProcessStatusChange(repo, cardId, Blocked, "confirm block", [BlockRequested], now);
  }

  /** declineCardBlock: processStatusChange with DeclineBlockTransition's parameters. */
  method DeclineCardBlock(repo: CardRepository, cardId: Uuid, now: YearMonth) returns (r: Result<Card>)
    requires repo.Valid()
    modifies repo, repo.cards.Values
    ensures repo.Valid() && repo.cards == old(repo.cards)
    ensures cardId !in repo.cards ==>
              r == Err(ResourceNotFound("Card", cardId)) && repo.States() == old(repo.States()) && repo.saveLog == old(repo.saveLog)
    ensures cardId in repo.cards ==>
              var before := old(repo.States())[cardId];
              var t := DeclineBlockTransition(cardId, before.status, repo.cards[cardId].expirationDate, now);
              && repo.States() == old(repo.States())[cardId := before.(status := t.status)]
              && repo.saveLog == old(repo.saveLog) + (if t.saved then [cardId] else [])
              && r == (if t.error.None? then Ok(repo.cards[cardId]) else Err(t.error.value))
    // the status this call leaves is the one committed when its writes are kept; with the rollback that a failure
    // triggers as written, the committed status is the one before the call
    ensures cardId in repo.cards ==>
              var before := old(repo.States())[cardId];
              var t := DeclineBlockTransition(cardId, before.status, repo.cards[cardId].expirationDate, now);
              && repo.States()[cardId].status == CommittedStatus(t, before.status)
              && CommittedStatusAsWritten(t, before.status) == (if r.Ok? then repo.States()[cardId].status else before.status)
  {
    r := ProcessStatusChange(repo, cardId, Active, "decline block", [BlockRequested], now);
  }

  /**
   * softDeleteCard: any existing card, soft-deleted already or not, is marked not active and saved; nothing
   * else about it or any other card changes. A missing card is NotFound.
   */
  method SoftDeleteCard(repo: CardRepository, cardId: Uuid) returns (r: Result<()>)
    requires repo.Valid()
    modifies repo, repo.cards.Values
    ensures repo.Valid() && repo.cards == old(repo.cards)
    ensures cardId !in repo.cards ==>
              r == Err(ResourceNotFound("Card", cardId)) && repo.States() == old(repo.States()) && repo.saveLog == old(repo.saveLog)
    ensures cardId in repo.cards ==>
              && r == Ok(())
              && repo.States() == old(repo.States())[cardId := old(repo.States())[cardId].(active := false)]
              && repo.saveLog == old(repo.saveLog) + [cardId]
  {
    var found := CardQueryService.FindByIdOrThrow(repo, cardId);
    if found.Err? {
      return Err(found.error);
    }
    var card := found.value;
    card.active := false;
    repo.Save(card);
    assert repo.cards == old(repo.cards);
    r := Ok(());
  }

  /** updateUserRoles: the user's role set is replaced by the requested one; nothing else changes. */
  method UpdateUserRoles(repo: UserRepository, userId: Uuid, roles: set<Role>) returns (r: Result<User>)
    requires repo.Valid()
    modifies repo, if userId in repo.users then {repo.users[userId]} else {}
    ensures repo.Valid() && repo.users == old(repo.users)
    ensures userId !in repo.users ==> r == Err(ResourceNotFound("User", userId)) && repo.saveLog == old(repo.saveLog)
    ensures userId in repo.users ==>
              var u := repo.users[userId];
              && r == Ok(u) && u.roles == roles
              && u.enabled == old(u.enabled) && u.hasProfile == old(u.hasProfile)
              && repo.saveLog == old(repo.saveLog) + [userId]
  {
    var found := UserQueryService.FindByIdOrThrow(repo, userId);
    if found.Err? {
      return Err(found.error);
    }
    var user := found.value;
    user.roles := roles;
    repo.Save(user);
    r := Ok(user);
  }

  /** lockUserAccount: the user is disabled; nothing else changes. */
  method LockUserAccount(repo: UserRepository, userId: Uuid) returns (r: Result<User>)
    requires repo.Valid()
    modifies repo, if userId in repo.users then {repo.users[userId]} else {}
    ensures repo.Valid() && repo.users == old(repo.users)
    ensures userId !in repo.users ==> r == Err(ResourceNotFound("User", userId)) && repo.saveLog == old(repo.saveLog)
    ensures userId in repo.users ==>
              var u := repo.users[userId];
              && r == Ok(u) && !u.enabled
              && u.roles == old(u.roles) && u.hasProfile == old(u.hasProfile)
              && repo.saveLog == old(repo.saveLog) + [userId]
  {
    var found := UserQueryService.FindByIdOrThrow(repo, userId);
    if found.Err? {
      return Err(found.error);
    }
    var user := found.value;
    user.enabled := false;
    repo.Save(user);
    r := Ok(user);
  }

  /** unlockUserAccount: the user is enabled; nothing else changes. */
  method UnlockUserAccount(repo: UserRepository, userId: Uuid) returns (r: Result<User>)
    requires repo.Valid()
    modifies repo, if userId in repo.users then {repo.users[userId]} else {}
    ensures repo.Valid() && repo.users == old(repo.users)
    ensures userId !in repo.users ==> r == Err(ResourceNotFound("User", userId)) && repo.saveLog == old(repo.saveLog)
    ensures userId in repo.users ==>
              var u := repo.users[userId];
              && r == Ok(u) && u.enabled
              && u.roles == old(u.roles) && u.hasProfile == old(u.hasProfile)
              && repo.saveLog == old(repo.saveLog) + [userId]
  {
    var found := UserQueryService.FindByIdOrThrow(repo, userId);
    if found.Err? {
      return Err(found.error);
    }
    var user := found.value;
    user.enabled := true;
    repo.Save(user);
    r := Ok(user);
  }

  /** updateUserProfile, as far as it is visible: a user without a profile gets one, and the user is saved. */
  method UpdateUserProfile(repo: UserRepository, userId: Uuid) returns (r: Result<User>)
    requires repo.Valid()
    modifies repo, if userId in repo.users then {repo.users[userId]} else {}
    ensures repo.Valid() && repo.users == old(repo.users)
    ensures userId !in repo.users ==> r == Err(ResourceNotFound("User", userId)) && repo.saveLog == old(repo.saveLog)
    ensures userId in repo.users ==>
              var u := repo.users[userId];
              && r == Ok(u) && u.hasProfile
              && u.roles == old(u.roles) && u.enabled == old(u.enabled)
              && repo.saveLog == old(repo.saveLog) + [userId]
  {
    var found := UserQueryService.FindByIdOrThrow(repo, userId);
    if found.Err? {
      return Err(found.error);
    }
    var user := found.value;
    if !user.hasProfile {
      user.hasProfile := true;
    }
    repo.Save(user);
    r := Ok(user);
  }

  /** A page of results: its content and the total number of elements across all pages. */
  datatype Page<T> = Page(content: seq<T>, totalElements: nat)

  /** A user on the page together with the ids of that user's cards. */
  datatype UserDetail = UserDetail(userId: Uuid, cards: set<Uuid>)

  /** groupingBy on the owner's id followed by getOrDefault(ownerId, empty): the fetched cards of one owner. */
  function CardsOfOwner(repo: CardRepository, fetched: set<Uuid>, ownerId: Uuid): (r: set<Uuid>)
    reads repo
    ensures r <= fetched
    ensures forall k :: k in r ==> k in repo.cards && repo.cards[k].ownerId == ownerId
    ensures forall k :: k in fetched && k in repo.cards && repo.cards[k].ownerId == ownerId ==> k in r
  {
    set k | k in fetched && k in repo.cards && repo.cards[k].ownerId == ownerId
  }

  /** The detail of each user on the page, in page order, from the cards one findAllByOwnerIdIn fetched. */
  function GroupedDetails(repo: CardRepository, userIds: seq<Uuid>, fetched: set<Uuid>): (r: seq<UserDetail>)
    reads repo
    ensures |r| == |userIds|
    ensures forall i :: 0 <= i < |r| ==> r[i] == UserDetail(userIds[i], CardsOfOwner(repo, fetched, userIds[i]))
  {
    if |userIds| == 0 then []
    else [UserDetail(userIds[0], CardsOfOwner(repo, fetched, userIds[0]))] + GroupedDetails(repo, userIds[1..], fetched)
  }

  /**
   * findAllUsersWithCards: every user on the page, in the page's order, with all of that user's cards
   * (soft-deleted ones included) — exactly what findAllByOwnerId would give for that user alone — and the
   * page's total. An empty page maps to an empty page.
   */
  function FindAllUsersWithCards(repo: CardRepository, userPage: Page<Uuid>): (r: Page<UserDetail>)
    reads repo
    ensures r.totalElements == userPage.totalElements
    ensures |r.content| == |userPage.content|
    ensures forall i :: 0 <= i < |r.content| ==>
              r.content[i].userId == userPage.content[i] && r.content[i].cards == repo.FindAllByOwnerId(userPage.content[i])
  {
    if |userPage.content| == 0 then Page([], userPage.totalElements)
    else
      var fetched := repo.FindAllByOwnerIdIn(userPage.content);
      var details := GroupedDetails(repo, userPage.content, fetched);
      assert forall i :: 0 <= i < |details| ==> details[i].cards == repo.FindAllByOwnerId(userPage.content[i]) by {
        forall i | 0 <= i < |details|
          ensures details[i].cards == repo.FindAllByOwnerId(userPage.content[i])
        {
          GroupOfListedOwner(repo, userPage.content, userPage.content[i]);
        }
      }
      Page(details, userPage.totalElements)
  }

  /** Grouping the cards fetched for a list of owners gives each listed owner all of their cards. */
  lemma GroupOfListedOwner(repo: CardRepository, ownerIds: seq<Uuid>, ownerId: Uuid)
    requires ownerId in ownerIds
    ensures CardsOfOwner(repo, repo.FindAllByOwnerIdIn(ownerIds), ownerId) == repo.FindAllByOwnerId(ownerId)
  {
  }

  /** Two different users on the page never share a card. */
  lemma {:induction false} DetailsDisjoint(repo: CardRepository, userPage: Page<Uuid>, i: int, j: int)
    requires 0 <= i < |userPage.content| && 0 <= j < |userPage.content|
    requires userPage.content[i] != userPage.content[j]
    ensures var r := FindAllUsersWithCards(repo, userPage);
            r.content[i].cards !! r.content[j].cards
  {
    var r := FindAllUsersWithCards(repo, userPage);
    forall k | k in r.content[i].cards
      ensures k !in r.content[j].cards
    {
      assert repo.cards[k].ownerId == userPage.content[i];
    }
  }
}
