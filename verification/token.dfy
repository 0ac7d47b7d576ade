/** The access-token payload and the PASETO maker that seals and opens it
    (pkg/services/token). The PASETO v2 "local" construction is kept abstract:
    a maker holds a pair of functions, `seal` and `open`, and the only thing
    the model relies on is that opening under the same key undoes sealing. */
module Token {
  import opened Base

  /** A token id (`uuid.UUID`), abstracted to a number. */
  type Uuid = nat

  /** The errors a token operation can report. `ExpiredToken` and
      `InvalidToken` are the package's own error values; the others stand for
      errors that come from the libraries it calls. */
  datatype TokenError =
    | ExpiredToken
    | InvalidToken
    | IdGenerationFailed        // uuid.NewRandom could not read randomness
    | InvalidKeySize(required: nat) // "invalid token key size, must be exactly %d characters" with the required size
    | EncryptFailed             // the PASETO library could not seal the payload
    | DecryptFailed             // the PASETO library rejected the token (bad format, key or tag)

  datatype Payload = Payload(id: Uuid, userId: ObjectId, issuedAt: Time, expiresAt: Time)

  /** NewPayLoad: a fresh id (None when id generation fails), the user id, the
      clock reading `now` as issue time and `now + duration` as expiry. */
  function NewPayload(tokenId: Option<Uuid>, userId: ObjectId, duration: Duration, now: Time): (r: Result<Payload, TokenError>)
    ensures r.Err? <==> tokenId.None?
    ensures r.Err? ==> r.error == IdGenerationFailed
    ensures r.Ok? ==> r.value.userId == userId && r.value.id == tokenId.value
    ensures r.Ok? ==> r.value.issuedAt == now && r.value.expiresAt - r.value.issuedAt == duration
  {
    match tokenId
    case None => Err(IdGenerationFailed)
    case Some(id) => Ok(Payload(id, userId, now, now + duration))
  }

  /** Payload.Valid: None is Go's nil error. */
  function Valid(p: Payload, now: Time): (err: Option<TokenError>)
    ensures err.Some? <==> now > p.expiresAt
    ensures err.Some? ==> err.value == ExpiredToken
  {
    if now > p.expiresAt then Some(ExpiredToken) else None
  }

  /** Valid can only ever report an expired token, never an invalid one. */
  lemma ValidNeverInvalid(p: Payload, now: Time)
    ensures Valid(p, now) != Some(InvalidToken)
  {
  }

  /** The expiry boundary belongs to the validity period. */
  lemma ValidAtExpiry(p: Payload)
    ensures Valid(p, p.expiresAt) == None
    ensures Valid(p, p.expiresAt + 1) == Some(ExpiredToken)
  {
  }

  /** A payload made with a non-negative duration is valid from its issue
      time up to and including its expiry. */
  lemma FreshPayloadValid(tokenId: Uuid, userId: ObjectId, duration: Duration, now: Time, later: Time)
    requires duration >= 0
    requires now <= later <= now + duration
    ensures NewPayload(Some(tokenId), userId, duration, now).Ok?
    ensures Valid(NewPayload(Some(tokenId), userId, duration, now).value, later) == None
  {
  }

  // ---------------------------------------------------------------------
  // The PASETO maker

  /** chacha20poly1305.KeySize */
  const KeySize: nat := 32

  /** The authenticated encryption the maker delegates to: `seal` may fail
      (None), `open` fails (None) on anything it cannot authenticate. */
  datatype Aead = Aead(seal: (seq<byte>, Payload) -> Option<string>, open: (seq<byte>, string) -> Option<Payload>)

  /** Opening a sealed payload under the key that sealed it gives it back. */
  ghost predicate Authenticated(cipher: Aead) {
    forall key, p :: cipher.seal(key, p).Some? ==> cipher.open(key, cipher.seal(key, p).value) == Some(p)
  }

  datatype PasetoMaker = PasetoMaker(cipher: Aead, symmetricKey: seq<byte>)

  /** NewPasetoMaker: only a key of exactly KeySize bytes is accepted, and it
      is kept as given. */
  function NewPasetoMaker(cipher: Aead, symmetricKey: seq<byte>): (r: Result<PasetoMaker, TokenError>)
    ensures r.Ok? <==> |symmetricKey| == KeySize
    ensures r.Ok? ==> r.value.symmetricKey == symmetricKey && r.value.cipher == cipher
    ensures r.Err? ==> r.error == InvalidKeySize(KeySize)
  {
    if |symmetricKey| != KeySize then Err(InvalidKeySize(KeySize))
    else Ok(PasetoMaker(cipher, symmetricKey))
  }

  /** CreateToken: build a payload, then seal it under the maker's key. A
      failure yields no token (Go returns "" with the error). */
  function CreateToken(maker: PasetoMaker, tokenId: Option<Uuid>, userId: ObjectId, duration: Duration, now: Time): (r: Result<string, TokenError>)
    ensures tokenId.None? ==> r == Err(IdGenerationFailed)
    ensures r.Ok? ==>
              && tokenId.Some?
              && maker.cipher.seal(maker.symmetricKey, Payload(tokenId.value, userId, now, now + duration)) == Some(r.value)
    ensures tokenId.Some? && maker.cipher.seal(maker.symmetricKey, Payload(tokenId.value, userId, now, now + duration)).None?
      ==> r == Err(EncryptFailed)
    ensures tokenId.Some? && maker.cipher.seal(maker.symmetricKey, Payload(tokenId.value, userId, now, now + duration)).Some?
      ==> r == Ok(maker.cipher.seal(maker.symmetricKey, Payload(tokenId.value, userId, now, now + duration)).value)
  {
    match NewPayload(tokenId, userId, duration, now)
    case Err(e) => Err(e)
    case Ok(payload) =>
      match maker.cipher.seal(maker.symmetricKey, payload)
      case None => Err(EncryptFailed)
      case Some(token) => Ok(token)
  }

  /** VerifyToken: open the token first, check expiry second. */
  function VerifyToken(maker: PasetoMaker, token: string, now: Time): (r: Result<Payload, TokenError>)
    ensures maker.cipher.open(maker.symmetricKey, token).None? ==> r == Err(DecryptFailed)
    ensures r.Ok? <==>
      maker.cipher.open(maker.symmetricKey, token).Some? && now <= maker.cipher.open(maker.symmetricKey, token).value.expiresAt
    ensures r.Ok? ==> maker.cipher.open(maker.symmetricKey, token) == Some(r.value)
    ensures r == Err(ExpiredToken) <==>
      maker.cipher.open(maker.symmetricKey, token).Some? && now > maker.cipher.open(maker.symmetricKey, token).value.expiresAt
    ensures r != Err(InvalidToken)
  {
    match maker.cipher.open(maker.symmetricKey, token)
    case None => Err(DecryptFailed)
    case Some(payload) =>
      match Valid(payload, now)
      case Some(e) => Err(e)
      case None => Ok(payload)
  }

  /** Decryption comes first: a token the cipher rejects is reported as a
      decryption failure whatever the clock says. */
  lemma DecryptCheckedBeforeExpiry(maker: PasetoMaker, token: string, now1: Time, now2: Time)
    requires maker.cipher.open(maker.symmetricKey, token).None?
    ensures VerifyToken(maker, token, now1) == VerifyToken(maker, token, now2) == Err(DecryptFailed)
  {
  }

  /** The round trip the package's own test asserts: a freshly created token
      verifies, before its expiry, to a payload carrying the same id, user and
      timestamps. */
  lemma CreateThenVerify(maker: PasetoMaker, tokenId: Option<Uuid>, userId: ObjectId, duration: Duration, issued: Time, now: Time)
    requires Authenticated(maker.cipher)
    requires CreateToken(maker, tokenId, userId, duration, issued).Ok?
    requires now <= issued + duration
    ensures VerifyToken(maker, CreateToken(maker, tokenId, userId, duration, issued).value, now)
         == Ok(Payload(tokenId.value, userId, issued, issued + duration))
  {
    var p := Payload(tokenId.value, userId, issued, issued + duration);
    assert maker.cipher.open(maker.symmetricKey, maker.cipher.seal(maker.symmetricKey, p).value) == Some(p);
  }

  /** The same token, verified after its expiry, fails as expired and never
      as invalid. */
  lemma CreateThenVerifyLate(maker: PasetoMaker, tokenId: Option<Uuid>, userId: ObjectId, duration: Duration, issued: Time, now: Time)
    requires Authenticated(maker.cipher)
    requires CreateToken(maker, tokenId, userId, duration, issued).Ok?
    requires now > issued + duration
    ensures VerifyToken(maker, CreateToken(maker, tokenId, userId, duration, issued).value, now) == Err(ExpiredToken)
  {
    var p := Payload(tokenId.value, userId, issued, issued + duration);
    assert maker.cipher.open(maker.symmetricKey, maker.cipher.seal(maker.symmetricKey, p).value) == Some(p);
  }
}
