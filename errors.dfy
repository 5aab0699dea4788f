/** The exception types of the service layer (the classes under exception/) as values. */
module Errors {
  import opened Common
  import opened Cards

  /** Why an InvalidOperationException was thrown. */
  datatype InvalidReason =
    | SameCard                        // a transfer from a card to itself
    | SourceNotActive                 // a transfer from a card whose status is not ACTIVE
    | NotInActiveStatus(current: CardStatus)  // a block request on a card that is not ACTIVE
    | UnexpectedStatus(action: string, cardId: Uuid, current: CardStatus, expected: seq<CardStatus>)
    | CardExpired                     // activation of a card whose expiration month has passed

  datatype Error =
    | ResourceNotFound(resource: string, id: Uuid)
    | DuplicateResource(resource: string, cardNumber: string)
    | UnauthorizedOperation
    | InvalidOperation(reason: InvalidReason)
    | InsufficientFunds(available: int, required: int)

  /** A service call either returns a value or throws one of the errors above. */
  datatype Result<+T> = Ok(value: T) | Err(error: Error)
}
