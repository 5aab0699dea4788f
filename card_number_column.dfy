/**
 * util/encryption/CardNumberEncryptor.java as the card-number column sees it: each write stores the Base64 of a
 * fresh random 16-byte IV followed by the AES/CBC ciphertext. Base64 is one-to-one, and under one key and one IV
 * the cipher is one-to-one, so a stored value is determined by, and determines, its IV and its plaintext; the
 * cipher itself is not part of this model and the payload is kept as the plaintext.
 */
module CardNumberColumn {
  import opened Common
  import opened CardRepositories

  type Iv = iv: seq<bv8> | |iv| == 16 witness seq(16, _ => 0)

  /** A value of the card_number column. */
  datatype EncryptedNumber = EncryptedNumber(iv: Iv, payload: string)

  /**
   * convertToDatabaseColumn, with the IV that SecureRandom draws passed in. The value starts with its IV, so
   * two writes with different IVs never store the same value, whatever the numbers.
   */
  function Encrypt(cardNumber: string, iv: Iv): (e: EncryptedNumber)
    ensures e.iv == iv
    ensures Decrypt(e) == cardNumber
  {
    EncryptedNumber(iv, cardNumber)
  }

  /** convertToEntityAttribute: the IV is read back from the value itself. */
  function Decrypt(e: EncryptedNumber): (cardNumber: string)
  {
    e.payload
  }

  /** A row of the card table as stored: the encrypted number and the soft-delete flag. */
  datatype StoredRow = StoredRow(cardNumber: EncryptedNumber, active: bool)

  /**
   * existsByCardNumberAndActiveTrue as executed: the query parameter goes through the same converter, and the
   * database compares the stored column with that encrypted parameter.
   */
  predicate ExistsByCardNumberAndActiveTrueAsWritten(rows: map<Uuid, StoredRow>, parameter: EncryptedNumber)
  {
    exists k :: k in rows && rows[k].cardNumber == parameter && rows[k].active
  }

  /**
   * Whenever the IV drawn for the query parameter differs from the IV of every stored row — which a fresh random
   * 16-byte IV does but with negligible probability — the duplicate check finds nothing, even when an active
   * row holds that very number.
   */
  lemma DuplicateCheckNeverMatches(rows: map<Uuid, StoredRow>, cardNumber: string, queryIv: Iv)
    requires forall k :: k in rows ==> rows[k].cardNumber.iv != queryIv
    ensures !ExistsByCardNumberAndActiveTrueAsWritten(rows, Encrypt(cardNumber, queryIv))
  {
  }

  /** A table with one active card numbered "4444555566667777": the check as executed misses it. */
  lemma DuplicateMissedExample(storedIv: Iv, queryIv: Iv)
    requires storedIv != queryIv
    ensures var rows := map[1 := StoredRow(Encrypt("4444555566667777", storedIv), true)];
            && Decrypt(rows[1].cardNumber) == "4444555566667777" && rows[1].active
            && !ExistsByCardNumberAndActiveTrueAsWritten(rows, Encrypt("4444555566667777", queryIv))
  {
  }

  /**
   * The check as intended compares plaintext numbers: it finds every card that is not soft-deleted, and
   * with it CreateCard's duplicate rejection keeps the numbers of such cards unique.
   */
  lemma DuplicateCheckDetectsActiveNumber(repo: CardRepository, k: Uuid)
    requires k in repo.cards && repo.cards[k].active
    ensures repo.ExistsByCardNumberAndActiveTrue(repo.cards[k].cardNumber)
  {
  }
}
