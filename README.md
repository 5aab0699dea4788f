# Bank cards: a verified model of the card-account core

This project models the domain core of Bank_REST, a Spring service for bank cards. It covers:

- the **card table**, a map from id to mutable `Card` entities, and its derived queries;
- the **find-or-throw lookups** of the query services;
- the **card-status state machine** (`processStatusChange`) and its four callers:
  activate, confirm block and decline block by an administrator, and block request by the owner;
- the **transfer engine** between two cards of the same user;
- the **administrator's mutations**: card creation, soft delete, role replacement, account lock and unlock,
  profile creation, and the grouping of cards by owner;
- the small **pure helpers**: amount normalisation, the card-creation validation constraints, card-number
  masking, and the `YearMonth`/`Date` converter.

Money is exact. A `BigDecimal` is `Decimal(unscaled, scale)`, and `setScale(2, HALF_UP)` is `SetScale2HalfUp`.
Every card balance has scale 2, so balances are integer cents. `YearMonth.now()` is the parameter `now`. The
id the database generates for a new card is the parameter `newId`.

Each service method that changes entities is a Dafny `method` over the `CardRepository` / `UserRepository`
classes. It is proved against a pure function of the old state: `StatusTransition`, `BlockRequestTransition`,
`TransferCheck` or `InitialBalanceCents`. Each repository records the ids passed to `save` in `saveLog`, so
the contracts say which writes an operation issues.

Where the code and its documentation disagree, the model follows the code:

- **No-op comes first.** A status change to the status the card already has returns the card without error,
  even an ACTIVE card past its expiration month.
- **Destination status.** A transfer never looks at the destination card's status.
- **Lapsed source.** A transfer never checks the source card's expiration.
- **Missing enum value.** `CardStatus.java` declares only ACTIVE, BLOCKED and EXPIRED, but the services use
  BLOCK_REQUESTED. The model has all four.
- **Soft delete.** The comment in `Card.java` mentions an `@SQLRestriction`, but none is declared. So
  `findById` and the status changes also see soft-deleted cards.

## Model

| member | source | states |
|---|---|---|
| Money.SetScale2HalfUp | src/main/java/com/example/bankcards/dto/request/TransferRequest.java:27 | The result has scale 2. It has the same value when the scale was at most 2. Otherwise it is the nearest cent, ties away from zero. A non-negative amount stays non-negative and a non-positive one stays non-positive. |
| Money.RoundsHalfUpUnique | src/main/java/com/example/bankcards/dto/request/TransferRequest.java:27 | At most one integer rounds a value half-up, so SetScale2HalfUp's contract determines its result. |
| Money.SetScale2AtScale2 | src/main/java/com/example/bankcards/dto/request/TransferRequest.java:27 | An amount already at scale 2 is unchanged. |
| Money.SetScale2Idempotent | src/main/java/com/example/bankcards/dto/request/TransferRequest.java:27 | Rounding a rounded amount changes nothing. |
| YearMonths.LengthOfMonth | src/main/java/com/example/bankcards/mapper/YearMonthDateConverter.java:16 | Every month has 28 to 31 days, so day 1 always exists. |
| YearMonths.AtDay | src/main/java/com/example/bankcards/mapper/YearMonthDateConverter.java:16 | `atDay` gives a valid date in the same year and month, on the requested day. |
| YearMonths.FromDate | src/main/java/com/example/bankcards/mapper/YearMonthDateConverter.java:24 | `YearMonth.from` keeps the year and the month of a date. |
| YearMonths.IsBeforeTotalOrder | src/main/java/com/example/bankcards/service/impl/CardStatusManager.java:61 | `isBefore` is irreflexive, asymmetric, transitive and total on distinct months. |
| YearMonthDateConverter.ConvertToDatabaseColumn | src/main/java/com/example/bankcards/mapper/YearMonthDateConverter.java:14-18 | The result is null exactly when the input is. Otherwise it is a valid date, day 1 of the same year and month. |
| YearMonthDateConverter.ConvertToEntityAttribute | src/main/java/com/example/bankcards/mapper/YearMonthDateConverter.java:21-26 | The result is null exactly when the input is. Otherwise it has the date's year and month. |
| YearMonthDateConverter.RoundTrip | src/main/java/com/example/bankcards/mapper/YearMonthDateConverter.java:14-26 | Reading back a stored year-month gives it back, null included. |
| YearMonthDateConverter.DayIgnored | src/main/java/com/example/bankcards/mapper/YearMonthDateConverter.java:23-24 | Any two dates in the same month read back as the same year-month. |
| YearMonthDateConverter.ColumnRoundTrip | src/main/java/com/example/bankcards/mapper/YearMonthDateConverter.java:14-26 | Re-storing a read date gives the first of its month. That equals the date exactly when its day is 1. |
| YearMonthDateConverter.ConversionMonotone | src/main/java/com/example/bankcards/mapper/YearMonthDateConverter.java:16 | Stored dates are in the same order as the year-months they store. |
| CardMaskingUtil.MaskCardNumber | src/main/java/com/example/bankcards/util/masking/CardMaskingUtil.java:23-29 | Null maps to null. Otherwise the result has 19 characters: the prefix `**** **** **** ` and then the input's last four characters. |
| CardMaskingUtil.SameSuffixSameMask | src/main/java/com/example/bankcards/util/masking/CardMaskingUtil.java:27-28 | Inputs with the same last four characters mask the same. |
| CardMaskingUtil.EarlierCharactersHidden | src/main/java/com/example/bankcards/util/masking/CardMaskingUtil.java:11 | The first 15 output characters are only `*` and spaces, so nothing before the last four shows. |
| CardMaskingUtil.MaskIdempotent | src/main/java/com/example/bankcards/util/masking/CardMaskingUtil.java:27-28 | Masking a masked number changes nothing. |
| CardMaskingUtil.MaskExample | src/main/java/com/example/bankcards/util/masking/CardMaskingUtil.java:27-28 | "4444555566667777" masks to "**** **** **** 7777". |
| TransferRequests.NewTransferRequest | src/main/java/com/example/bankcards/dto/request/TransferRequest.java:25-29 | The ids are kept. A null amount stays null. A present amount is rounded to scale 2, half-up. |
| TransferRequests.PositiveAfterRounding | src/main/java/com/example/bankcards/dto/request/TransferRequest.java:17-28 | `@Positive` sees the rounded amount. So a request is valid exactly when its amount is at least half a cent: above 0 at scale ≤ 2, and 2·unscaled ≥ 10^(scale−2) otherwise. |
| TransferRequests.ScaleTwoAmountKept | src/main/java/com/example/bankcards/dto/request/TransferRequest.java:27 | 200.50 is kept exactly. |
| CreateCardRequests.SixteenDigitsAreNotBlank | src/main/java/com/example/bankcards/dto/request/CreateCardRequest.java:21-23 | A number that matches `^\d{16}$` is never blank. |
| CreateCardRequests.Violations | src/main/java/com/example/bankcards/dto/request/CreateCardRequest.java:17-30 | A request has no violation exactly when: the owner is present; the number is sixteen ASCII digits; the expiration is strictly after `now`; and the balance is absent or ≥ 0. A null number violates only `@NotBlank`, and a null balance violates nothing. |
| CreateCardRequests.ValidRequestGivesSoundCard | src/main/java/com/example/bankcards/dto/request/CreateCardRequest.java:17-30 | A valid request's number can be masked. Its expiration is not lapsed at `now`, and its rounded balance is not negative. |
| Cards.Card.constructor | src/main/java/com/example/bankcards/entity/Card.java:31-77 | A new card has balance zero and is not soft-deleted. Its id, number, expiration, owner and status are as given. |
| CardRepositories.CardRepository.FindById | src/main/java/com/example/bankcards/repository/CardRepository.java:18 | The row with that id if there is one, soft-deleted or not. |
| CardRepositories.CardRepository.FindByIdAndOwnerIdAndActiveTrue | src/main/java/com/example/bankcards/repository/CardRepository.java:22 | A card is returned exactly when the id and owner match and it is not soft-deleted. |
| CardRepositories.CardRepository.FindAllByOwnerIdAndActiveTrue | src/main/java/com/example/bankcards/repository/CardRepository.java:24 | Exactly the owner's cards that are not soft-deleted. |
| CardRepositories.CardRepository.ExistsByCardNumberAndActiveTrue | src/main/java/com/example/bankcards/repository/CardRepository.java:26 | True exactly when a card that is not soft-deleted has that number. |
| CardRepositories.CardRepository.FindActiveByIdWithLock | src/main/java/com/example/bankcards/repository/CardRepository.java:28-30 | The card with that id, exactly when it is not soft-deleted. |
| CardRepositories.CardRepository.FindAllByOwnerId | src/main/java/com/example/bankcards/repository/CardRepository.java:35 | Exactly the owner's cards, soft-deleted ones included. |
| CardRepositories.CardRepository.FindAllByStatus | src/main/java/com/example/bankcards/repository/CardRepository.java:37 | Exactly the cards with that status, whatever their active flag. |
| CardRepositories.CardRepository.FindAllByOwnerIdIn | src/main/java/com/example/bankcards/repository/CardRepository.java:48 | Exactly the cards whose owner is listed. |
| CardRepositories.CardRepository.Save | src/main/java/com/example/bankcards/repository/CardRepository.java:18 | The entity is bound under its id, and the write is recorded. |
| CardRepositories.CardRepository.SaveAll | src/main/java/com/example/bankcards/repository/CardRepository.java:18 | Both entities are bound, and both writes are recorded in order. |
| CardRepositories.ActiveCardsAmongOwned | src/main/java/com/example/bankcards/repository/CardRepository.java:24-35 | An owner's active cards are among the owner's cards. The others are exactly the soft-deleted ones. |
| CardRepositories.OwnerIdInIsUnion | src/main/java/com/example/bankcards/repository/CardRepository.java:35-48 | `findAllByOwnerIdIn` is the union of `findAllByOwnerId` over the listed owners. |
| CardRepositories.StatusQueriesPartition | src/main/java/com/example/bankcards/repository/CardRepository.java:37 | Every card is in the status query of its own status and in no other. |
| CardRepositories.SumBalancesRemove | src/main/java/com/example/bankcards/service/impl/CardServiceImpl.java:125-128 | The balance total can take out any single row first. |
| CardRepositories.SumBalancesUpdate | src/main/java/com/example/bankcards/service/impl/CardServiceImpl.java:126-127 | Replacing one row changes the total by the difference of its balances. |
| CardRepositories.MoveConservesTotal | src/main/java/com/example/bankcards/service/impl/CardServiceImpl.java:125-128 | A debit of one card and an equal credit of another leave the total of all balances unchanged. |
| CardQueryService.FindByIdOrThrow | src/main/java/com/example/bankcards/service/query/CardQueryService.java:31-34 | The card exactly when the id is in the table, whatever its active flag. Otherwise ResourceNotFound("Card", id). |
| CardQueryService.FindActiveByIdAndOwnerOrThrow | src/main/java/com/example/bankcards/service/query/CardQueryService.java:44-47 | The card exactly when the id and owner match and it is active. Otherwise ResourceNotFound("Active card for user", id). |
| CardQueryService.FindActiveByIdWithLockOrThrow | src/main/java/com/example/bankcards/service/query/CardQueryService.java:56-59 | The card exactly when the id matches and it is active; the owner is not checked. Otherwise ResourceNotFound("Active card", id). |
| CardQueryService.LookupsNest | src/main/java/com/example/bankcards/service/query/CardQueryService.java:31-59 | The owner lookup succeeds only where the locking lookup does, and that only where the plain lookup finds an active card. All of them give the same card. |
| UserQueryService.FindByIdOrThrow | src/main/java/com/example/bankcards/service/query/UserQueryService.java:29-32 | The user exactly when the id is in the table, otherwise ResourceNotFound("User", id). |
| Users.UserRepository.Save | src/main/java/com/example/bankcards/repository/UserRepository.java:18 | The user is bound under its id, and the write is recorded. |
| CardStatusManager.ValidateCurrentStatus | src/main/java/com/example/bankcards/service/impl/CardStatusManager.java:47-58 | No error exactly when the expected list is empty or contains the current status. The error is InvalidOperation, naming the action, the card, the status and the list. |
| CardStatusManager.StatusTransition | src/main/java/com/example/bankcards/service/impl/CardStatusManager.java:23-66 | In order: the target status is a no-op with no save, even when it is not expected. An unexpected status is rejected, unchanged and unsaved. A card saved with an error is exactly an activation of a card strictly past its month: it becomes EXPIRED and fails. Otherwise the target status is set. |
| CardStatusManager.CurrentMonthNotLapsed | src/main/java/com/example/bankcards/service/impl/CardStatusManager.java:61 | A card whose expiration is the current month can still be activated. |
| CardStatusManager.ExpirationIgnoredUnlessActivating | src/main/java/com/example/bankcards/service/impl/CardStatusManager.java:36-38 | With a target other than ACTIVE, the outcome does not depend on the expiration. |
| CardStatusManager.SuccessfulChangeIsIdempotent | src/main/java/com/example/bankcards/service/impl/CardStatusManager.java:29-32 | Repeating a successful change is a no-op. |
| CardStatusManager.EnsureCardIsNotExpired | src/main/java/com/example/bankcards/service/impl/CardStatusManager.java:60-66 | A lapsed card is set to EXPIRED and saved, and an error is returned. Otherwise nothing changes. |
| CardStatusManager.ProcessStatusChange | src/main/java/com/example/bankcards/service/impl/CardStatusManager.java:23-45 | A missing card gives NotFound and no change. Otherwise only that card's status changes, to StatusTransition's status. It is saved exactly when StatusTransition saves, and the result is its error or the card. |
| CardService.BlockRequestTransition | src/main/java/com/example/bankcards/service/impl/CardServiceImpl.java:57-64 | Only an ACTIVE card moves to BLOCK_REQUESTED and is saved. Any other status is rejected with InvalidOperation and left as it was. |
| CardService.RequestCardBlock | src/main/java/com/example/bankcards/service/impl/CardServiceImpl.java:53-68 | A card that is missing, not owned or soft-deleted gives NotFound and no change. Otherwise the card's status and save follow BlockRequestTransition, and no other card changes. |
| CardService.GetMyCardBalance | src/main/java/com/example/bankcards/service/impl/CardServiceImpl.java:72-77 | The balance exactly when the owner lookup would find the card; otherwise ResourceNotFound("Active card", id). It reads only. |
| CardService.ValidateTransfer | src/main/java/com/example/bankcards/service/impl/CardServiceImpl.java:104-120 | It passes exactly when: the cards differ; the user owns both; the source is ACTIVE; and the source balance is at least the amount. Failures are checked in the order same card, ownership, source status, funds. InsufficientFunds carries the balance and the amount. The destination status is not an input. |
| CardService.TransferCheck | src/main/java/com/example/bankcards/service/impl/CardServiceImpl.java:85-120 | A missing or soft-deleted source, then destination, is NotFound before any business check. Two found active cards are judged by ValidateTransfer, so an owned, ACTIVE, funded pair of distinct cards passes and the same-card, ownership, status and funds errors come in that order. Passing implies two distinct, active cards of the user, with an ACTIVE source that has enough funds. |
| CardService.ExecuteTransfer | src/main/java/com/example/bankcards/service/impl/CardServiceImpl.java:125-129 | The source loses the amount and the destination gains it. Status and active flags are kept, and both cards are saved in order. |
| CardService.TransferBetweenMyCards | src/main/java/com/example/bankcards/service/impl/CardServiceImpl.java:81-90 | It fails exactly when TransferCheck does, with the same error and no change or save. Otherwise both balances move by the amount and both cards are saved. The total of all balances is always kept, and non-negative balances stay non-negative. |
| CardService.TransferScenario | src/test/java/com/example/bankcards/controller/CardFlowIntegrationTest.java:109-139 | With cards holding 1000.00 and 500.00, TransferBetweenMyCards of 200.50 succeeds and leaves 799.50 and 700.50; a following 800.00 fails with InsufficientFunds(799.50, 800.00). The table is built by the test setup `CardService.TwoCards`. |
| AdminService.InitialBalanceCents | src/main/java/com/example/bankcards/service/impl/AdminServiceImpl.java:64-71 | A missing balance opens at zero. A present one is kept exactly at scale ≤ 2 and rounded half-up to the cent beyond that. A non-negative request never opens negative. |
| AdminService.InitialBalanceExample | src/main/java/com/example/bankcards/service/impl/AdminServiceImpl.java:71 | An initial balance of 123.45 opens the card with 123.45. |
| AdminService.CreateCard | src/main/java/com/example/bankcards/service/impl/AdminServiceImpl.java:56-75 | A number already on an active card gives DuplicateResource; this is checked before the owner. An unknown owner gives NotFound("User"). On either error nothing is written. Otherwise a fresh card is stored and saved: ACTIVE, active, with the requested number, expiration and owner and the rounded balance. Unique active numbers and non-negative balances are kept. The number must have at least four characters, since the log line masks it before any check. |
| AdminService.ActivateTransition | src/main/java/com/example/bankcards/service/impl/AdminServiceImpl.java:103-108 | ACTIVE from BLOCKED or EXPIRED. An ACTIVE card is a no-op and BLOCK_REQUESTED is rejected. A lapsed card becomes EXPIRED and fails. |
| AdminService.ConfirmBlockTransition | src/main/java/com/example/bankcards/service/impl/AdminServiceImpl.java:112-116 | BLOCKED from BLOCK_REQUESTED. A BLOCKED card is a no-op, and ACTIVE or EXPIRED are rejected unchanged. |
| AdminService.DeclineBlockTransition | src/main/java/com/example/bankcards/service/impl/AdminServiceImpl.java:120-124 | ACTIVE from BLOCK_REQUESTED, or EXPIRED and a failure when lapsed. An ACTIVE card is a no-op, and BLOCKED or EXPIRED are rejected unchanged. |
| AdminService.ActivateCard | src/main/java/com/example/bankcards/service/impl/AdminServiceImpl.java:103-108 | ProcessStatusChange's outcome, with ActivateTransition as the decision. The status it leaves is CommittedStatus; with the rollback a failure triggers as written, the committed status is CommittedStatusAsWritten, the status before the call. |
| AdminService.ConfirmCardBlock | src/main/java/com/example/bankcards/service/impl/AdminServiceImpl.java:112-116 | ProcessStatusChange's outcome, with ConfirmBlockTransition as the decision. |
| AdminService.DeclineCardBlock | src/main/java/com/example/bankcards/service/impl/AdminServiceImpl.java:120-124 | ProcessStatusChange's outcome, with DeclineBlockTransition as the decision. The status it leaves is CommittedStatus; with the rollback a failure triggers as written, the committed status is CommittedStatusAsWritten, the status before the call. |
| AdminService.SoftDeleteCard | src/main/java/com/example/bankcards/service/impl/AdminServiceImpl.java:128-134 | Any existing card, already soft-deleted or not, ends inactive and is saved; nothing else changes. A missing card gives NotFound. |
| AdminService.UpdateUserRoles | src/main/java/com/example/bankcards/service/impl/AdminServiceImpl.java:153-159 | The role set is replaced wholesale, the other fields are kept, and the user is saved. An unknown user gives NotFound. |
| AdminService.LockUserAccount | src/main/java/com/example/bankcards/service/impl/AdminServiceImpl.java:163-168 | The user ends disabled, the other fields are kept, and the user is saved. An unknown user gives NotFound. |
| AdminService.UnlockUserAccount | src/main/java/com/example/bankcards/service/impl/AdminServiceImpl.java:172-177 | The user ends enabled, the other fields are kept, and the user is saved. An unknown user gives NotFound. |
| AdminService.UpdateUserProfile | src/main/java/com/example/bankcards/service/impl/AdminServiceImpl.java:221-236 | The user ends with a profile, roles and the enabled flag are kept, and the user is saved. An unknown user gives NotFound. |
| AdminService.CardsOfOwner | src/main/java/com/example/bankcards/service/impl/AdminServiceImpl.java:206-211 | A group holds exactly the fetched cards of that owner; an owner with none gets the empty group. |
| AdminService.GroupedDetails | src/main/java/com/example/bankcards/service/impl/AdminServiceImpl.java:210-214 | There is one detail per user, in page order, each with that user's group. |
| AdminService.FindAllUsersWithCards | src/main/java/com/example/bankcards/service/impl/AdminServiceImpl.java:192-217 | The page keeps its users, their order and its total. Each user gets exactly `findAllByOwnerId`'s cards for that user, soft-deleted ones included. An empty page stays empty. |
| AdminService.GroupOfListedOwner | src/main/java/com/example/bankcards/service/impl/AdminServiceImpl.java:203-211 | Grouping the cards fetched for a list of owners gives each listed owner all of their cards. |
| AdminService.DetailsDisjoint | src/main/java/com/example/bankcards/service/impl/AdminServiceImpl.java:206-207 | Two different users on the page never share a card. |
| CardLifecycle.StatusAfter | src/main/java/com/example/bankcards/service/impl/AdminServiceImpl.java:101-124 | A successful operation leaves its target status (BLOCK_REQUESTED for a block request, which succeeds only on an ACTIVE card). A failed one leaves the status as it was or EXPIRED. |
| CardLifecycle.EveryStepPermitted | src/main/java/com/example/bankcards/service/impl/AdminServiceImpl.java:101-124 | Every operation stays on the status graph: ACTIVE→BLOCK_REQUESTED; BLOCK_REQUESTED→BLOCKED, ACTIVE or EXPIRED; BLOCKED or EXPIRED→ACTIVE or EXPIRED. |
| CardLifecycle.ApplyOps | src/main/java/com/example/bankcards/service/impl/AdminServiceImpl.java:101-124 | With no operations the status is unchanged. |
| CardLifecycle.LapsedCardNeverReactivated | src/main/java/com/example/bankcards/service/impl/CardStatusManager.java:36-38 | A card past its expiration month that is not ACTIVE is never ACTIVE again, whatever operations follow. |
| CardLifecycle.BlockedStaysInactiveWithoutActivation | src/main/java/com/example/bankcards/service/impl/AdminServiceImpl.java:110-124 | A BLOCKED or EXPIRED card stays BLOCKED or EXPIRED through any operations other than activation. |
| CardStatusManager.CommittedStatusAsWritten | src/main/java/com/example/bankcards/service/impl/AdminServiceImpl.java:101-108 | As written, a failed operation commits the old status and a successful one its new status. |
| CardNumberColumn.Encrypt | src/main/java/com/example/bankcards/util/encryption/CardNumberEncryptor.java:30-55 | The stored value carries the IV it was written with and decrypts to the number; writes with different IVs store different values. |
| CardNumberColumn.DuplicateCheckNeverMatches | src/main/java/com/example/bankcards/service/impl/AdminServiceImpl.java:59-61 | When the query parameter's fresh IV differs from every stored IV, `existsByCardNumberAndActiveTrue` on the encrypted column finds nothing. |
| CardNumberColumn.DuplicateMissedExample | src/main/java/com/example/bankcards/service/impl/AdminServiceImpl.java:59-61 | An active card storing "4444555566667777" is not found by the check as executed. |
| CardNumberColumn.DuplicateCheckDetectsActiveNumber | src/main/java/com/example/bankcards/repository/CardRepository.java:26 | The check on plaintext numbers finds every card that is not soft-deleted. |
| CardLifecycle.RollbackDiscardsExpiryCorrection | src/main/java/com/example/bankcards/service/impl/CardStatusManager.java:60-66 | Activating a lapsed BLOCKED card saves EXPIRED and fails, but as written the database keeps BLOCKED. |
| CardStatusManager.CommittedStatus | src/main/java/com/example/bankcards/service/impl/CardStatusManager.java:60-66 | With the correction kept, a saved status is committed and an unsaved operation keeps the old one. |
| CardLifecycle.ExpiryCorrectionPersists | src/main/java/com/example/bankcards/service/impl/CardStatusManager.java:60-66 | With the correction kept, every operation commits the status StatusAfter computes. Activating or declining a block on a lapsed card leaves it EXPIRED. |

## Left out

- Row locks, `@Transactional` boundaries and lock order: each service call is one atomic step. Only the rollback
  of a failed status change is discussed, under Findings.
- Card-number encryption: the AES cipher is not modelled; `CardNumberColumn` keeps only the fact that each
  stored value starts with its own random IV. The card table compares plaintext numbers in
  `existsByCardNumberAndActiveTrue` (see Findings for the check as executed).
- The column-wide `unique = true` constraint on `card_number` (over every row, on ciphertext) is not modelled;
  `ActiveNumbersUnique` covers only cards that are not soft-deleted.
- Balances are unbounded integers of cents: the `numeric(19,2)` bound of the balance column is not modelled,
  so an overflowing credit is not rejected.
- `existsByCardNumberHash` in `CardRepository.java` names a property the entity lacks, so it is not modelled.
- `findByIdWithLock` returns the same rows as `findById`; the lock is not modelled, so it is not separate.
- Paging: the derived queries return the whole matching set (`set` of card ids), not a `Page`.
  `FindAllUsersWithCards` takes the page's user ids and total as given.
- AdminService.FindAllUsersWithCards: each user's cards are a set of ids, so the order within a user's list
  and the DTO mapping are not modelled.
- AdminService.UpdateUserProfile: the MapStruct partial update of the profile's fields is generated code that is
  not part of this model. Only "create a profile if missing, then save" is modelled.
- Read-only listings (`findAllCards`, `findAllCardsByUserId`, `findCardsByStatus`, `findUserById`,
  `findAllUsers`, `findUserWithDetailsById`) are a query plus a mapper. The derived queries they use are
  modelled; `cardRepository.findAll`, `userRepository.findAll` and `findByIdWithDetails` are not.
- Controllers, the exception handler, response mapping, authentication, tokens, logging and bootstrap data are
  outside the core. Exceptions are the `Error` datatype, with the fields the messages are built from.
- `YearMonth.now()` and the generated UUID of a new card are parameters.
- CardService.TransferBetweenMyCards: the request must carry non-null ids and amount. Bean Validation
  guarantees this before the service runs; the model does not cover the null-pointer failures without it.
- CardMaskingUtil.MaskCardNumber: strings are sequences of Unicode characters, not Java's UTF-16 code units, so
  for a number with characters outside the Basic Multilingual Plane the length and the masked "last four" differ
  from Java's `length()` and `substring` (card numbers that pass validation are sixteen ASCII digits).
- AdminService.CreateCard: the owner id, number and expiration must be present, as the validated request
  guarantees, and the number must have at least four characters (Unicode characters, not UTF-16 code units,
  as for MaskCardNumber): a shorter one makes the log line's masking
  throw `StringIndexOutOfBoundsException` before any check, a failure the model does not represent. The id the
  database generates must not already be in the table.

## Findings

| source | as written | input that shows it | evidently intended | confidence | as-written member | corrected member |
|---|---|---|---|---|---|---|
| src/main/java/com/example/bankcards/service/impl/CardStatusManager.java:60-66 | `ensureCardIsNotExpired` saves EXPIRED and then throws `InvalidOperationException`, a `RuntimeException`. Its callers `activateCard` and `declineCardBlock` are `@Transactional` with the default rollback rules, so the save is rolled back. | A BLOCKED card whose expiration month is before `now`, activated by an administrator: the call fails as expired, but the card stays BLOCKED in the database. | The correction to EXPIRED is persisted even though the operation fails, as the log message "Status updated to EXPIRED" says. | medium, not executed | CardLifecycle.RollbackDiscardsExpiryCorrection | CardLifecycle.ExpiryCorrectionPersists |
| src/main/java/com/example/bankcards/service/impl/AdminServiceImpl.java:59-61 | `existsByCardNumberAndActiveTrue` runs against the encrypted column, and the converter encrypts the query parameter with a fresh random IV (CardNumberEncryptor.java:35-49). The stored value and the parameter then differ in their IV prefix, so the check never finds a duplicate. | An active card with number 4444555566667777 exists; createCard with the same number passes the check and reaches the save. | The check rejects a number already on an active card, comparing plaintext numbers. | medium, not executed | CardNumberColumn.DuplicateCheckNeverMatches | CardNumberColumn.DuplicateCheckDetectsActiveNumber |
