/** service/query/CardQueryService.java: find-or-throw lookups over the card table. They change nothing. */
module CardQueryService {
  import opened Common
  import opened Cards
  import opened Errors
  import opened CardRepositories

  /** findByIdOrThrow: any card with that id, soft-deleted or not (the admin path). */
  function FindByIdOrThrow(repo: CardRepository, cardId: Uuid): (r: Result<Card>)
    reads repo
    ensures r.Ok? <==> cardId in repo.cards
    ensures r.Ok? ==> r.value == repo.cards[cardId]
    ensures r.Err? ==> r.error == ResourceNotFound("Card", cardId)
  {
    match repo.FindById(cardId)
    case Some(c) => Ok(c)
    case None => Err(ResourceNotFound("Card", cardId))
  }

  /** findActiveByIdAndOwnerOrThrow: the card only if the id, the owner and active = true all match. */
  function FindActiveByIdAndOwnerOrThrow(repo: CardRepository, cardId: Uuid, userId: Uuid): (r: Result<Card>)
    reads repo, repo.cards.Values
    ensures r.Ok? <==> cardId in repo.cards && repo.cards[cardId].ownerId == userId && repo.cards[cardId].active
    ensures r.Ok? ==> r.value == repo.cards[cardId]
    ensures r.Err? ==> r.error == ResourceNotFound("Active card for user", cardId)
  {
    match repo.FindByIdAndOwnerIdAndActiveTrue(cardId, userId)
    case Some(c) => Ok(c)
    case None => Err(ResourceNotFound("Active card for user", cardId))
  }

  /** findActiveByIdWithLockOrThrow: the card only if it is active; the owner is not checked here. */
  function FindActiveByIdWithLockOrThrow(repo: CardRepository, cardId: Uuid): (r: Result<Card>)
    reads repo, repo.cards.Values
    ensures r.Ok? <==> cardId in repo.cards && repo.cards[cardId].active
    ensures r.Ok? ==> r.value == repo.cards[cardId]
    ensures r.Err? ==> r.error == ResourceNotFound("Active card", cardId)
  {
    match repo.FindActiveByIdWithLock(cardId)
    case Some(c) => Ok(c)
    case None => Err(ResourceNotFound("Active card", cardId))
  }

  /**
   * The three lookups are successively narrower filters of the same row: the owner lookup succeeds only where
   * the locking lookup does, which succeeds only where the plain lookup does, and all three return the same card.
   */
  lemma LookupsNest(repo: CardRepository, cardId: Uuid, userId: Uuid)
    ensures FindActiveByIdAndOwnerOrThrow(repo, cardId, userId).Ok? ==>
              FindActiveByIdWithLockOrThrow(repo, cardId) == FindActiveByIdAndOwnerOrThrow(repo, cardId, userId)
    ensures FindActiveByIdWithLockOrThrow(repo, cardId).Ok? ==>
              FindByIdOrThrow(repo, cardId) == FindActiveByIdWithLockOrThrow(repo, cardId)
    ensures FindActiveByIdWithLockOrThrow(repo, cardId).Ok? <==>
              FindByIdOrThrow(repo, cardId).Ok? && FindByIdOrThrow(repo, cardId).value.active
  {
  }
}
