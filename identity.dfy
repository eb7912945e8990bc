/**
 * Identifiers and the two foreign libraries the backend trusts with them:
 * `jsonwebtoken` (sign a user id into a bearer token, verify a token back
 * into an id, keyed by the process-wide secret) and `bcryptjs` (hash a
 * password with a salt, compare a password against a stored hash).
 *
 * Neither library is modelled: each is a record of function values, and
 * what the application relies on is a soundness predicate that callers
 * assume as a precondition.
 */
module Identity {
  import opened Wrappers

  /** A user's ObjectId; two ids are equal exactly when their string forms are. */
  type UserId = nat

  /** A recipe's ObjectId. */
  type RecipeId = nat

  /** `jwt.sign({ id }, secret)` and `jwt.verify(token, secret).id`, the secret fixed at start-up. */
  datatype Signer = Signer(sign: UserId -> string, verify: string -> Option<UserId>)

  /**
   * What the backend relies on: a signed token verifies to the id it was
   * signed for, and is a single non-empty word (a JWT is three base64url
   * segments joined by dots, so it contains no space).
   */
  ghost predicate SignerSound(signer: Signer) {
    forall id: UserId :: signer.verify(signer.sign(id)) == Some(id) && signer.sign(id) != "" && ' ' !in signer.sign(id)
  }

  /** `bcrypt.hash(password, salt)` and `bcrypt.compare(password, hash)`. */
  datatype Hasher = Hasher(hash: (string, string) -> string, compare: (string, string) -> bool)

  /** The number of bytes a character takes in UTF-8. */
  function Utf8Width(c: char): (w: nat)
    ensures 1 <= w <= 4
  {
    if c as int < 0x80 then 1 else if c as int < 0x800 then 2 else if c as int < 0x10000 then 3 else 4
  }

  /** The length of a string's UTF-8 encoding, the bytes bcrypt reads. */
  function Utf8Length(s: string): (n: nat)
    ensures n >= |s|
  {
    if s == [] then 0 else Utf8Width(s[0]) + Utf8Length(s[1..])
  }

  /**
   * A password bcrypt keys on in full: at most 72 UTF-8 bytes (the rest is
   * ignored) and no NUL character (the key is the password followed by one
   * NUL, repeated, so an embedded NUL lets two passwords share a key).
   */
  predicate WithinBcryptLimit(password: string) {
    '\0' !in password && Utf8Length(password) <= 72
  }

  /**
   * What the backend relies on: a password always matches a hash made from
   * it, and two passwords within bcrypt's limit match each other's hashes
   * only when they are equal.
   */
  ghost predicate HasherSound(hasher: Hasher) {
    && (forall password: string, salt: string :: hasher.compare(password, hasher.hash(password, salt)))
    && (forall password: string, attempt: string, salt: string ::
          WithinBcryptLimit(password) && WithinBcryptLimit(attempt) && hasher.compare(attempt, hasher.hash(password, salt))
          ==> attempt == password)
  }
}
