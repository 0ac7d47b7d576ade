/** The authentication controller (pkg/controllers/auth.go): issuing the
    access/refresh token pair, the verification-code store and its lookup,
    and the token-record lookup. The two handlers that chain these steps
    (registration and login) are modelled as well. */
module AuthController {
  import opened Base
  import opened Models
  import opened Password
  import opened Store
  import Token
  import RandomGen
  import AuthService

  /** The refresh token's fixed lifetime: 6000 seconds. */
  const RefreshTokenDuration: Duration := 6000 * Second

  /** Length of the verification code sent after registration. */
  const VerificationCodeLength: nat := 6

  datatype AuthTokens = AuthTokens(accessToken: string, refreshToken: string)

  /** `&tokens{}`: what every failure returns. */
  const NoTokens: AuthTokens := AuthTokens("", "")

  datatype ControllerError =
    | TokenFailed(tokenError: Token.TokenError)
    | StoreFailed(dbError: DbError)
    | CacheFailed(cacheError: CacheError)
    | ServiceFailed(authError: AuthService.AuthError)

  /** What ValidateAcc does after looking the code up: answer "not found", or
      hand an email to the account-validation service. */
  datatype Validation = CodeNotFound | ValidateEmail(email: string)

  function AccessRecord(token: string, userId: ObjectId, duration: Duration): TokenRecord {
    TokenRecord(token, userId, "access", duration, false)
  }

  function RefreshRecord(token: string, userId: ObjectId): TokenRecord {
    TokenRecord(token, userId, "refresh", RefreshTokenDuration, false)
  }

  class AuthController {
    const service: AuthService.AuthService
    const maker: Token.PasetoMaker
    const tokens: TokenCollection
    const codes: CodeCache
    const accessTokenDuration: Duration

    constructor (service: AuthService.AuthService, maker: Token.PasetoMaker, tokens: TokenCollection,
                 codes: CodeCache, accessTokenDuration: Duration)
      ensures this.service == service && this.maker == maker && this.tokens == tokens
      ensures this.codes == codes && this.accessTokenDuration == accessTokenDuration
    {
      this.service := service;
      this.maker := maker;
      this.tokens := tokens;
      this.codes := codes;
      this.accessTokenDuration := accessTokenDuration;
    }

    /** generateAuthTokens: create the access token (caller's duration) and
        the refresh token (6000 s), then record them, access first. `accessId`
        and `refreshId` are the token ids drawn for the two payloads (None when
        drawing fails); the insert flags say whether each insert reaches the
        server. A failed second insert leaves the first record in place. */
    method GenerateAuthTokens(userId: ObjectId, duration: Duration, accessId: Option<Token.Uuid>,
                              refreshId: Option<Token.Uuid>, now: Time, accessInsertOk: bool, refreshInsertOk: bool)
      returns (t: AuthTokens, err: Option<ControllerError>)
      modifies tokens
      ensures err.Some? ==> t == NoTokens
      ensures var access := Token.CreateToken(maker, accessId, userId, duration, now);
              var refresh := Token.CreateToken(maker, refreshId, userId, RefreshTokenDuration, now);
        && (access.Err? ==> err == Some(TokenFailed(access.error)) && tokens.records == old(tokens.records))
        && (access.Ok? && refresh.Err? ==> err == Some(TokenFailed(refresh.error)) && tokens.records == old(tokens.records))
        && (access.Ok? && refresh.Ok? && !accessInsertOk ==>
              err == Some(StoreFailed(Unavailable)) && tokens.records == old(tokens.records))
        && (access.Ok? && refresh.Ok? && accessInsertOk && !refreshInsertOk ==>
              && err == Some(StoreFailed(Unavailable))
              && tokens.records == old(tokens.records) + [AccessRecord(access.value, userId, duration)])
        && (access.Ok? && refresh.Ok? && accessInsertOk && refreshInsertOk ==>
              && err == None
              && t == AuthTokens(access.value, refresh.value)
              && tokens.records == old(tokens.records) + [AccessRecord(access.value, userId, duration), RefreshRecord(refresh.value, userId)])
    {
      var access := Token.CreateToken(maker, accessId, userId, duration, now);
      if access.Err? {
        return NoTokens, Some(TokenFailed(access.error));
      }
      var refresh := Token.CreateToken(maker, refreshId, userId, RefreshTokenDuration, now);
      if refresh.Err? {
        return NoTokens, Some(TokenFailed(refresh.error));
      }
      var e := tokens.InsertOne(AccessRecord(access.value, userId, duration), accessInsertOk);
      if e.Some? {
        return NoTokens, Some(StoreFailed(e.value));
      }
      e := tokens.InsertOne(RefreshRecord(refresh.value, userId), refreshInsertOk);
      if e.Some? {
        return NoTokens, Some(StoreFailed(e.value));
      }
      t, err := AuthTokens(access.value, refresh.value), None;
    }

    /** sendVerificationCode: a fresh 6-letter code is mapped to the email
        with TTL 0, i.e. it never expires, and returned. `draws` are the
        random letter indices. */
    method SendVerificationCode(email: string, draws: seq<int>, setOk: bool) returns (code: string, err: Option<ControllerError>)
      requires VerificationCodeLength <= |draws|
      requires forall i :: 0 <= i < |draws| ==> 0 <= draws[i] < |RandomGen.Alphabet|
      modifies codes
      ensures err.None? <==> setOk
      ensures setOk ==>
        && |code| == VerificationCodeLength
        && (forall i :: 0 <= i < |code| ==> code[i] == RandomGen.Alphabet[draws[i]] && 'a' <= code[i] <= 'z')
        && codes.entries == old(codes.entries)[code := CacheEntry(email, 0)]
      ensures !setOk ==> code == "" && err == Some(CacheFailed(CacheUnavailable)) && codes.entries == old(codes.entries)
    {
      var randomCode, _ := RandomGen.RandomStr(VerificationCodeLength, draws);
      var e := codes.Set(randomCode, email, 0, setOk);
      if e.Some? {
        return "", Some(CacheFailed(e.value));
      }
      code, err := randomCode, None;
    }

    /** The lookup of ValidateAcc. Only redis.Nil counts as "not found"; on
        any other cache error go-redis yields "" and the handler goes on to
        validate the empty email. The code is read, never removed. */
    method ValidateAcc(code: string, getOk: bool) returns (r: Validation)
      ensures getOk && code !in codes.entries ==> r == CodeNotFound
      ensures getOk && code in codes.entries ==> r == ValidateEmail(codes.entries[code].value)
      ensures !getOk ==> r == ValidateEmail("")
    {
      var email, e := codes.Get(code, getOk);
      if e == Some(Nil) {
        return CodeNotFound;
      }
      r := ValidateEmail(email);
    }

    /** verifyToken: the first record whose token string is exactly `token`;
        whether the record is blacklisted plays no part. `ok` says whether the
        lookup reaches the server; any lookup error is returned. */
    method VerifyToken(token: string, ok: bool) returns (r: Result<TokenRecord, DbError>)
      ensures !ok ==> r == Err(Unavailable)
      ensures ok ==> (r.Ok? <==> exists i :: 0 <= i < |tokens.records| && tokens.records[i].token == token)
      ensures r.Ok? ==> r.value.token == token && r.value == tokens.records[FindToken(tokens.records, token).value]
      ensures ok && r.Err? ==> r.error == NoDocuments
    {
      if !ok {
        return Err(Unavailable);
      }
      match FindToken(tokens.records, token)
      case None => r := Err(NoDocuments);
      case Some(i) => r := Ok(tokens.records[i]);
    }

    /** The registration handler: create the user, then send the code. A
        code-store failure after the insert leaves the new user stored. */
    method Register(data: AuthService.Registration, id: ObjectId, salt: Salt, bcrypt: Bcrypt, now: Time,
                    lookupOk: bool, insertOk: bool, draws: seq<int>, setOk: bool)
      returns (code: string, err: Option<ControllerError>)
      requires VerificationCodeLength <= |draws|
      requires forall i :: 0 <= i < |draws| ==> 0 <= draws[i] < |RandomGen.Alphabet|
      modifies service.col, codes
      ensures var created := bcrypt.hash(data.password, salt).Some? && !AuthService.DuplicateEmail(old(service.col.docs), data.email, lookupOk) && insertOk;
        && (!created ==>
              && err.Some? && err.value.ServiceFailed? && code == ""
              && service.col.docs == old(service.col.docs) && codes.entries == old(codes.entries))
        && (created ==>
              service.col.docs == old(service.col.docs) + [AuthService.NewUserDocument(data, id, bcrypt.hash(data.password, salt).value, now)])
        && (created && setOk ==>
              && err == None && |code| == VerificationCodeLength
              && codes.entries == old(codes.entries)[code := CacheEntry(data.email, 0)])
        && (created && !setOk ==> err.Some? && code == "" && codes.entries == old(codes.entries))
    {
      var e := service.CreateUser(data, id, salt, bcrypt, now, lookupOk, insertOk);
      if e.Some? {
        return "", Some(ServiceFailed(e.value));
      }
      code, err := SendVerificationCode(data.email, draws, setOk);
    }

    /** The login handler: check the credentials against the stored users,
        then issue and record the token pair for the user found. */
    method LoginUser(email: string, password: string, bcrypt: Bcrypt, lookupOk: bool, accessId: Option<Token.Uuid>,
                     refreshId: Option<Token.Uuid>, now: Time, accessInsertOk: bool, refreshInsertOk: bool)
      returns (t: AuthTokens, err: Option<ControllerError>)
      modifies tokens
      ensures var login := AuthService.Login(service.col.docs, bcrypt, email, password, lookupOk);
        && (login.Err? ==> t == NoTokens && err == Some(ServiceFailed(login.error)) && tokens.records == old(tokens.records))
        && (login.Ok? ==>
              var access := Token.CreateToken(maker, accessId, login.value.id, accessTokenDuration, now);
              var refresh := Token.CreateToken(maker, refreshId, login.value.id, RefreshTokenDuration, now);
              && (err.Some? ==> t == NoTokens)
              && (access.Err? ==> err == Some(TokenFailed(access.error)) && tokens.records == old(tokens.records))
              && (access.Ok? && refresh.Err? ==> err == Some(TokenFailed(refresh.error)) && tokens.records == old(tokens.records))
              && (access.Ok? && refresh.Ok? && !accessInsertOk ==>
                    err == Some(StoreFailed(Unavailable)) && tokens.records == old(tokens.records))
              && (access.Ok? && refresh.Ok? && accessInsertOk && !refreshInsertOk ==>
                    && err == Some(StoreFailed(Unavailable))
                    && tokens.records == old(tokens.records) + [AccessRecord(access.value, login.value.id, accessTokenDuration)])
              && (access.Ok? && refresh.Ok? && accessInsertOk && refreshInsertOk ==>
                    && err == None
                    && t == AuthTokens(access.value, refresh.value)
                    && tokens.records == old(tokens.records) +
                         [AccessRecord(access.value, login.value.id, accessTokenDuration), RefreshRecord(refresh.value, login.value.id)]))
        && (err == None ==>
              && login.Ok? && accessId.Some? && refreshId.Some?
              && tokens.records == old(tokens.records) +
                   [AccessRecord(t.accessToken, login.value.id, accessTokenDuration), RefreshRecord(t.refreshToken, login.value.id)])
        && (err == None && accessId.Some? && refreshId.Some? && Token.Authenticated(maker.cipher) && accessTokenDuration >= 0 ==>
              && Token.VerifyToken(maker, t.accessToken, now) == Ok(Token.Payload(accessId.value, login.value.id, now, now + accessTokenDuration))
              && Token.VerifyToken(maker, t.refreshToken, now) == Ok(Token.Payload(refreshId.value, login.value.id, now, now + RefreshTokenDuration)))
    {
      var login := AuthService.Login(service.col.docs, bcrypt, email, password, lookupOk);
      if login.Err? {
        return NoTokens, Some(ServiceFailed(login.error));
      }
      var user := login.value;
      t, err := GenerateAuthTokens(user.id, accessTokenDuration, accessId, refreshId, now, accessInsertOk, refreshInsertOk);
      if err == None && Token.Authenticated(maker.cipher) && accessTokenDuration >= 0 {
        Token.CreateThenVerify(maker, accessId, user.id, accessTokenDuration, now, now);
        Token.CreateThenVerify(maker, refreshId, user.id, RefreshTokenDuration, now, now);
      }
    }
  }
}
