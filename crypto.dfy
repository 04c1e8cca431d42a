/** The password wrapper around CryptoJS.AES: reversible encryption of stored passwords,
    and comparison of a candidate by decrypting the stored value. */
module Crypto {
  import opened Js

  /** The random salt CryptoJS draws for every passphrase-mode encryption. */
  type Salt = nat

  /** CryptoJS.AES, left uninterpreted. Encryption is a function of the plaintext, the passphrase
      and the salt. Decryption either yields a UTF-8 string (possibly garbage after a wrong
      passphrase) or throws (malformed UTF-8), which is None. */
  datatype Aes = Aes(
    encrypt: (string, string, Salt) -> string,
    decrypt: (string, string) -> Option<string>)

  /** The assumption the reversible scheme rests on: decrypting with the same passphrase gives the
      plaintext back, whatever salt was drawn. */
  ghost predicate RoundTrips(aes: Aes)
  {
    forall plain, key, salt :: aes.decrypt(aes.encrypt(plain, key, salt), key) == Some(plain)
  }

  /** encryptPassword: the ciphertext, or null instead of an exception. CryptoJS throws when the
      passphrase (ENCRYPTER_KEY) is undefined; the catch turns that into null. */
  function EncryptPassword(aes: Aes, key: Option<string>, pw: string, salt: Salt): (r: Option<string>)
    ensures r.None? <==> key.None?
    ensures RoundTrips(aes) && r.Some? ==> DecryptPassword(aes, key, r.value) == Some(pw)
  {
    match key
    case None => None
    case Some(k) => Some(aes.encrypt(pw, k, salt))
  }

  /** decryptPassword: the plaintext, or null instead of an exception. */
  function DecryptPassword(aes: Aes, key: Option<string>, encryptedPw: string): (r: Option<string>)
    ensures key.None? ==> r.None?
    ensures RoundTrips(aes) && key.Some? ==>
      forall plain, salt :: encryptedPw == aes.encrypt(plain, key.value, salt) ==> r == Some(plain)
  {
    match key
    case None => None
    case Some(k) => aes.decrypt(encryptedPw, k)
  }

  /** comparePasswords, as the value its promise settles to: it never rejects, and it is true
      exactly when decryption yields the candidate (`pw === decryptedPw`, where a string never
      equals null). */
  function ComparePasswords(aes: Aes, key: Option<string>, pw: string, encryptedPw: string): (r: bool)
    ensures r <==> DecryptPassword(aes, key, encryptedPw) == Some(pw)
  {
    match DecryptPassword(aes, key, encryptedPw)
    case Some(decryptedPw) => pw == decryptedPw
    case None => false
  }

  /** Under the round-trip assumption, a password matches its own ciphertext and nothing else does. */
  lemma CompareOwnCiphertext(aes: Aes, key: Option<string>, p: string, q: string, salt: Salt)
    requires RoundTrips(aes)
    requires key.Some?
    ensures EncryptPassword(aes, key, p, salt).Some?
    ensures ComparePasswords(aes, key, p, EncryptPassword(aes, key, p, salt).value)
    ensures q != p ==> !ComparePasswords(aes, key, q, EncryptPassword(aes, key, p, salt).value)
  {
  }
}
