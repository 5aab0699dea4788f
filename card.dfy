/** entity/Card.java and entity/enums/CardStatus.java. */
module Cards {
  import opened Common
  import opened YearMonths

  /**
   * The card lifecycle states. CardStatus.java declares only ACTIVE, BLOCKED and EXPIRED, but the
   * services use BLOCK_REQUESTED as well, so all four are modelled.
   */
  datatype CardStatus = Active | BlockRequested | Blocked | Expired

  /** The fields of a card that the services change after creation. */
  datatype CardState = CardState(status: CardStatus, balance: int, active: bool)

  /**
   * A card row as a managed JPA entity. Number, expiration and owner are set once, when an admin creates
   * the card, and never reassigned; status, balance and the soft-delete flag are changed in place.
   * The balance is a count of cents: the column has scale 2, so every stored balance is a whole number
   * of cents.
   */
  class Card {
    const id: Uuid
    const cardNumber: string
    const expirationDate: YearMonth
    const ownerId: Uuid
    var status: CardStatus
    var balance: int
    var active: bool

    /** A new card has balance zero and is not soft-deleted. */
    constructor (id: Uuid, cardNumber: string, expirationDate: YearMonth, ownerId: Uuid, status: CardStatus)
      ensures this.id == id && this.cardNumber == cardNumber
      ensures this.expirationDate == expirationDate && this.ownerId == ownerId
      ensures this.status == status
      ensures balance == 0 && active
    {
      this.id := id;
      this.cardNumber := cardNumber;
      this.expirationDate := expirationDate;
      this.ownerId := ownerId;
      this.status := status;
      balance := 0;
      active := true;
    }

    function State(): (s: CardState)
      reads this
      ensures s.status == status && s.balance == balance && s.active == active
    {
      CardState(status, balance, active)
    }
  }
}
