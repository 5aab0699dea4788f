/**
 * repository/CardRepository.java: the card table and the derived / JPQL queries over it.
 * The table maps each id to its managed entity; save and saveAll record the write and (re)bind the entity.
 */
module CardRepositories {
  import opened Common
  import opened Cards

  class CardRepository {
    var cards: map<Uuid, Card>
    /** The ids passed to save / saveAll, in call order: the writes issued to the database. */
    var saveLog: seq<Uuid>

    /** Every row is stored under its own id, so two ids never share an entity. */
    ghost predicate Valid()
      reads this
    {
      forall k :: k in cards ==> cards[k].id == k
    }

    constructor ()
      ensures Valid() && cards == map[] && saveLog == []
    {
      cards := map[];
      saveLog := [];
    }

    /** The mutable fields of every row. */
    ghost function States(): (s: map<Uuid, CardState>)
      reads this, cards.Values
      ensures s.Keys == cards.Keys
      ensures forall k :: k in s ==> s[k] == cards[k].State()
    {
      map k | k in cards :: cards[k].State()
    }

    /** No balance is negative. */
    ghost predicate BalancesNonNegative()
      reads this, cards.Values
    {
      forall k :: k in cards ==> cards[k].balance >= 0
    }

    /** No two cards that are not soft-deleted carry the same number. */
    ghost predicate ActiveNumbersUnique()
      reads this, cards.Values
    {
      forall j, k :: j in cards && k in cards && j != k && cards[j].active && cards[k].active ==>
        cards[j].cardNumber != cards[k].cardNumber
    }

    /** JpaRepository.findById: the row with that id, soft-deleted or not. */
    function FindById(id: Uuid): (r: Option<Card>)
      reads this
      ensures r.Some? <==> id in cards
      ensures r.Some? ==> r.value == cards[id]
    {
      if id in cards then Some(cards[id]) else None
    }

    /** findByIdAndOwnerIdAndActiveTrue */
    function FindByIdAndOwnerIdAndActiveTrue(id: Uuid, ownerId: Uuid): (r: Option<Card>)
      reads this, cards.Values
      ensures r.Some? <==> id in cards && cards[id].ownerId == ownerId && cards[id].active
      ensures r.Some? ==> r.value == cards[id]
    {
      if id in cards && cards[id].ownerId == ownerId && cards[id].active then Some(cards[id]) else None
    }

    /** findAllByOwnerIdAndActiveTrue (the paging is left out: the whole result set). */
    function FindAllByOwnerIdAndActiveTrue(ownerId: Uuid): (r: set<Uuid>)
      reads this, cards.Values
      ensures forall k :: k in r <==> k in cards && cards[k].ownerId == ownerId && cards[k].active
    {
      set k | k in cards && cards[k].ownerId == ownerId && cards[k].active
    }

    /** existsByCardNumberAndActiveTrue: soft-deleted cards with the same number do not count. */
    function ExistsByCardNumberAndActiveTrue(cardNumber: string): (b: bool)
      reads this, cards.Values
      ensures b <==> exists k :: k in cards && cards[k].cardNumber == cardNumber && cards[k].active
    {
      exists k :: k in cards && cards[k].cardNumber == cardNumber && cards[k].active
    }

    /** findActiveByIdWithLock: "select c from Card c where c.id = :id and c.active = true" (the lock is left out). */
    function FindActiveByIdWithLock(id: Uuid): (r: Option<Card>)
      reads this, cards.Values
      ensures r.Some? <==> id in cards && cards[id].active
      ensures r.Some? ==> r.value == cards[id]
    {
      if id in cards && cards[id].active then Some(cards[id]) else None
    }

    /** findAllByOwnerId: the owner's cards, soft-deleted ones included. */
    function FindAllByOwnerId(ownerId: Uuid): (r: set<Uuid>)
      reads this
      ensures forall k :: k in r <==> k in cards && cards[k].ownerId == ownerId
    {
      set k | k in cards && cards[k].ownerId == ownerId
    }

    /** findAllByStatus: every card with that status, whatever its soft-delete flag. */
    function FindAllByStatus(status: CardStatus): (r: set<Uuid>)
      reads this, cards.Values
      ensures forall k :: k in r <==> k in cards && cards[k].status == status
    {
      set k | k in cards && cards[k].status == status
    }

    /** findAllByOwnerIdIn: the cards whose owner is one of the listed ids. */
    function FindAllByOwnerIdIn(ownerIds: seq<Uuid>): (r: set<Uuid>)
      reads this
      ensures forall k :: k in r <==> k in cards && cards[k].ownerId in ownerIds
    {
      set k | k in cards && cards[k].ownerId in ownerIds
    }

    /** save: binds the entity under its id (a no-op rebinding for a managed entity) and records the write. */
    method Save(card: Card)
      modifies this
      ensures cards == old(cards)[card.id := card]
      ensures saveLog == old(saveLog) + [card.id]
    {
      cards := cards[card.id := card];
      saveLog := saveLog + [card.id];
    }

    /** saveAll of a two-element list, as the transfer issues it. */
    method SaveAll(first: Card, second: Card)
      modifies this
      ensures cards == old(cards)[first.id := first][second.id := second]
      ensures saveLog == old(saveLog) + [first.id, second.id]
    {
      Save(first);
      Save(second);
    }
  }

  /** The owner's active cards are among the owner's cards; the rest of them are exactly the soft-deleted ones. */
  lemma ActiveCardsAmongOwned(repo: CardRepository, ownerId: Uuid)
    ensures repo.FindAllByOwnerIdAndActiveTrue(ownerId) <= repo.FindAllByOwnerId(ownerId)
    ensures forall k :: k in repo.FindAllByOwnerId(ownerId) - repo.FindAllByOwnerIdAndActiveTrue(ownerId) ==> !repo.cards[k].active
  {
  }

  /** findAllByOwnerIdIn is the union of findAllByOwnerId over the listed owners. */
  lemma OwnerIdInIsUnion(repo: CardRepository, ownerIds: seq<Uuid>, k: Uuid)
    ensures k in repo.FindAllByOwnerIdIn(ownerIds) <==> exists i :: 0 <= i < |ownerIds| && k in repo.FindAllByOwnerId(ownerIds[i])
  {
    if k in repo.FindAllByOwnerIdIn(ownerIds) {
      var i :| 0 <= i < |ownerIds| && ownerIds[i] == repo.cards[k].ownerId;
      assert k in repo.FindAllByOwnerId(ownerIds[i]);
    }
  }

  /** The four status queries split the table: every card is in exactly one of them. */
  lemma StatusQueriesPartition(repo: CardRepository, k: Uuid, s: CardStatus, t: CardStatus)
    requires k in repo.cards
    ensures k in repo.FindAllByStatus(repo.cards[k].status)
    ensures s != t ==> !(k in repo.FindAllByStatus(s) && k in repo.FindAllByStatus(t))
  {
  }

  /** The sum of the balances of a set of rows. */
  ghost function SumBalances(m: map<Uuid, CardState>): int
    decreases |m.Keys|
  {
    if m == map[] then 0
    else
      var k :| k in m;
      m[k].balance + SumBalances(m - {k})
  }

  /** Any row can be taken out of the sum first. */
  lemma {:induction false} SumBalancesRemove(m: map<Uuid, CardState>, k: Uuid)
    requires k in m
    ensures SumBalances(m) == m[k].balance + SumBalances(m - {k})
    decreases |m.Keys|
  {
    var j :| j in m && SumBalances(m) == m[j].balance + SumBalances(m - {j});
    if j != k {
      assert |(m - {j}).Keys| < |m.Keys| by { assert (m - {j}).Keys < m.Keys; }
      assert |(m - {k}).Keys| < |m.Keys| by { assert (m - {k}).Keys < m.Keys; }
      SumBalancesRemove(m - {j}, k);
      SumBalancesRemove(m - {k}, j);
      assert (m - {j}) - {k} == (m - {k}) - {j};
    }
  }

  /** Replacing one row changes the sum by the difference of the two balances. */
  lemma SumBalancesUpdate(m: map<Uuid, CardState>, k: Uuid, s: CardState)
    requires k in m
    ensures SumBalances(m[k := s]) == SumBalances(m) - m[k].balance + s.balance
  {
    SumBalancesRemove(m, k);
    SumBalancesRemove(m[k := s], k);
    assert m[k := s] - {k} == m - {k};
  }

  /** Moving an amount from one row to another keeps the total of all balances. */
  lemma MoveConservesTotal(m: map<Uuid, CardState>, a: Uuid, b: Uuid, amount: int)
    requires a in m && b in m && a != b
    ensures var m1 := m[a := m[a].(balance := m[a].balance - amount)];
            SumBalances(m1[b := m1[b].(balance := m1[b].balance + amount)]) == SumBalances(m)
  {
    var m1 := m[a := m[a].(balance := m[a].balance - amount)];
    SumBalancesUpdate(m, a, m[a].(balance := m[a].balance - amount));
    SumBalancesUpdate(m1, b, m1[b].(balance := m1[b].balance + amount));
  }
}
