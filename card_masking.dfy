/** util/masking/CardMaskingUtil.java: show only the last four characters of a card number. */
module CardMaskingUtil {
  import opened Common

  const MaskedPrefix: string := "**** **** **** "

  /**
   * maskCardNumber: null gives null; otherwise the fixed prefix followed by the last four characters.
   * The caller supplies at least four characters (the source documents a 16-character input and
   * would throw StringIndexOutOfBoundsException on fewer than four).
   */
  function MaskCardNumber(cardNumber: Option<string>): (r: Option<string>)
    requires cardNumber.Some? ==> |cardNumber.value| >= 4
    ensures r.None? <==> cardNumber.None?
    ensures r.Some? ==> |r.value| == 19
    ensures r.Some? ==> r.value[..15] == MaskedPrefix
    ensures r.Some? ==> r.value[15..] == cardNumber.value[|cardNumber.value| - 4..]
  {
    match cardNumber
    case None => None
    case Some(s) => Some(MaskedPrefix + s[|s| - 4..])
  }

  /** Only the last four characters matter: numbers that share them mask identically. */
  lemma SameSuffixSameMask(a: string, b: string)
    requires |a| >= 4 && |b| >= 4
    requires a[|a| - 4..] == b[|b| - 4..]
    ensures MaskCardNumber(Some(a)) == MaskCardNumber(Some(b))
  {
  }

  /** No character before the last four reaches the output: only mask characters and the suffix appear. */
  lemma EarlierCharactersHidden(s: string, i: int)
    requires |s| >= 4 && 0 <= i < 15
    ensures MaskCardNumber(Some(s)).value[i] in {'*', ' '}
  {
  }

  /** Masking a masked number changes nothing. */
  lemma MaskIdempotent(s: string)
    requires |s| >= 4
    ensures MaskCardNumber(MaskCardNumber(Some(s))) == MaskCardNumber(Some(s))
  {
  }

  /** The number used when a card is created through the admin API. */
  lemma MaskExample()
    ensures MaskCardNumber(Some("4444555566667777")) == Some("**** **** **** 7777")
  {
    var s := "4444555566667777";
    assert s[|s| - 4..] == "7777";
    assert MaskedPrefix + "7777" == "**** **** **** 7777";
  }
}
