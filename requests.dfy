/** dto/request/TransferRequest.java: the transfer DTO and its normalising canonical constructor. */
module TransferRequests {
  import opened Common
  import opened Money

  datatype TransferRequest = TransferRequest(fromCardId: Option<Uuid>, toCardId: Option<Uuid>, amount: Option<Decimal>)

  /** Every present amount has exactly two fractional digits. */
  predicate IsNormalized(r: TransferRequest)
  {
    r.amount.Some? ==> r.amount.value.scale == 2
  }

  /**
   * The canonical constructor: the ids are kept and a present amount is replaced by its value rounded to
   * two places half up; an absent amount stays absent.
   */
  function NewTransferRequest(fromCardId: Option<Uuid>, toCardId: Option<Uuid>, amount: Option<Decimal>): (r: TransferRequest)
    ensures r.fromCardId == fromCardId && r.toCardId == toCardId
    ensures r.amount.None? <==> amount.None?
    ensures IsNormalized(r)
    ensures amount.Some? && amount.value.scale <= 2 ==> Value(r.amount.value) == Value(amount.value)
    ensures amount.Some? && amount.value.scale > 2 ==>
              RoundsHalfUp(amount.value.unscaled, Pow10(amount.value.scale - 2), r.amount.value.unscaled)
  {
    match amount
    case None => TransferRequest(fromCardId, toCardId, None)
    case Some(a) => TransferRequest(fromCardId, toCardId, Some(SetScale2HalfUp(a)))
  }

  /** Bean Validation of the record: @NotNull on both ids and the amount, @Positive on the amount. */
  predicate IsValid(r: TransferRequest)
  {
    r.fromCardId.Some? && r.toCardId.Some? && r.amount.Some? && r.amount.value.unscaled > 0
  }

  /**
   * Validation sees the rounded amount, so an amount passes @Positive exactly when it is at least half a
   * cent: 0.005 becomes 0.01 and passes, 0.004 becomes 0.00 and is rejected.
   */
  lemma {:induction false} PositiveAfterRounding(fromCardId: Uuid, toCardId: Uuid, d: Decimal)
    ensures IsValid(NewTransferRequest(Some(fromCardId), Some(toCardId), Some(d))) <==>
              if d.scale <= 2 then d.unscaled > 0 else 2 * d.unscaled >= Pow10(d.scale - 2)
  {
    var r := SetScale2HalfUp(d);
    if d.scale <= 2 {
      var k: nat := 2 - d.scale;
      assert r.unscaled == d.unscaled * Pow10(k);
      if d.unscaled > 0 { MulMonotone(d.unscaled, Pow10(k)); }
    } else {
      var p := Pow10(d.scale - 2);
      assert RoundsHalfUp(d.unscaled, p, r.unscaled);
      if 2 * d.unscaled >= p {
        if r.unscaled <= 0 { assert r.unscaled * p <= 0 by { NonPositiveTimes(r.unscaled, p); } }
      } else if d.unscaled >= 0 {
        if r.unscaled >= 1 { MulMonotone(r.unscaled, p); }
      }
    }
  }

  lemma NonPositiveTimes(a: int, p: int)
    requires a <= 0 && p >= 0
    ensures a * p <= 0
  {
  }

  /** The amount of the integration scenario, 200.50, is kept as it is. */
  lemma ScaleTwoAmountKept(fromCardId: Uuid, toCardId: Uuid)
    ensures NewTransferRequest(Some(fromCardId), Some(toCardId), Some(Decimal(20050, 2))).amount == Some(Decimal(20050, 2))
  {
  }
}

/** dto/request/CreateCardRequest.java: the admin's card-creation DTO and its validation constraints. */
module CreateCardRequests {
  import opened Common
  import opened Money
  import opened YearMonths
  import CardMaskingUtil

  datatype CreateCardRequest = CreateCardRequest(
    ownerId: Option<Uuid>,
    cardNumber: Option<string>,
    expirationDate: Option<YearMonth>,
    initialBalance: Option<Decimal>)

  /** One per constraint annotation. */
  datatype Violation =
    | OwnerIdNull                 // @NotNull ownerId
    | CardNumberBlank             // @NotBlank cardNumber
    | CardNumberNotSixteenDigits  // @Pattern("^\\d{16}$") cardNumber
    | ExpirationDateNull          // @NotNull expirationDate
    | ExpirationDateNotInFuture   // @Future expirationDate
    | InitialBalanceNegative      // @DecimalMin("0.0") initialBalance

  /** Java's \d without UNICODE_CHARACTER_CLASS: the ASCII digits only. */
  predicate IsAsciiDigit(c: char)
  {
    '0' <= c <= '9'
  }

  predicate IsSixteenDigits(s: string)
  {
    |s| == 16 && forall i :: 0 <= i < |s| ==> IsAsciiDigit(s[i])
  }

  /** @NotBlank: nothing is left after String.trim(), which strips every character up to U+0020. */
  predicate IsBlank(s: string)
  {
    forall i :: 0 <= i < |s| ==> s[i] <= ' '
  }

  /** @NotBlank adds nothing to @Pattern for a present number: sixteen digits are never blank. */
  lemma SixteenDigitsAreNotBlank(s: Option<string>)
    ensures s.Some? && IsSixteenDigits(s.value) ==> !IsBlank(s.value)
  {
    if s.Some? && IsSixteenDigits(s.value) {
      assert IsAsciiDigit(s.value[0]);
    }
  }

  /**
   * The constraint violations Bean Validation reports; `now` stands for the clock @Future reads.
   * @Pattern, @Future and @DecimalMin accept null; @DecimalMin is inclusive.
   */
  function Violations(req: CreateCardRequest, now: YearMonth): (v: set<Violation>)
    ensures v == {} <==>
              && req.ownerId.Some?
              && req.cardNumber.Some? && IsSixteenDigits(req.cardNumber.value)
              && req.expirationDate.Some? && IsBefore(now, req.expirationDate.value)
              && (req.initialBalance.Some? ==> req.initialBalance.value.unscaled >= 0)
    ensures req.cardNumber.None? ==> CardNumberBlank in v && CardNumberNotSixteenDigits !in v
    ensures req.initialBalance.None? ==> InitialBalanceNegative !in v
  {
    SixteenDigitsAreNotBlank(req.cardNumber);
    (if req.ownerId.None? then {OwnerIdNull} else {})
    + (if req.cardNumber.None? || IsBlank(req.cardNumber.value) then {CardNumberBlank} else {})
    + (if req.cardNumber.Some? && !IsSixteenDigits(req.cardNumber.value) then {CardNumberNotSixteenDigits} else {})
    + (if req.expirationDate.None? then {ExpirationDateNull} else {})
    + (if req.expirationDate.Some? && !IsBefore(now, req.expirationDate.value) then {ExpirationDateNotInFuture} else {})
    + (if req.initialBalance.Some? && req.initialBalance.value.unscaled < 0 then {InitialBalanceNegative} else {})
  }

  /**
   * What a request that passed validation guarantees to the card built from it: a maskable number, an
   * expiration that has not passed (so the card is not expired at creation), and a balance that rounds to a
   * non-negative number of cents.
   */
  lemma ValidRequestGivesSoundCard(req: CreateCardRequest, now: YearMonth)
    requires Violations(req, now) == {}
    ensures CardMaskingUtil.MaskCardNumber(req.cardNumber).Some?
    ensures !IsBefore(req.expirationDate.value, now)
    ensures SetScale2HalfUp(if req.initialBalance.Some? then req.initialBalance.value else Zero).unscaled >= 0
  {
  }
}
