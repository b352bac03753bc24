/**
 * The authentication and session state machine of `AuthService`
 * (src/app/account/auth/auth.service.ts) as functions of the store: each
 * operation maps the collection before it to its answer, the collection
 * after it and the verification codes it hands to the notification sender.
 * The clock, the random session id and the verification code are parameters.
 */
module AuthSpec {
  import opened Wrappers
  import opened Crypto
  import opened UserEntity
  import opened Jwt
  import opened AccountStore

  /** `SystemConst.VERIFICATION_CODE_EXP`: 30 minutes, in milliseconds. */
  const VERIFICATION_CODE_EXP: int := 30 * 60 * 1000

  /** `HttpStatus` codes the engine attaches to failures. */
  const UNAUTHORIZED: int := 401
  const FORBIDDEN: int := 403

  /** `ResponseConsts` messages of successful operations. */
  datatype Message = VERIFICATION_SENT | OPERATION_SUCCESS

  /** The message of a failure. */
  datatype Kind =
    | USER_EXISTS
    | COULD_NOT_CREATE_USER
    | INVALID_CODE
    | INVALID_CREDENTIALS
    | AccountBlocked
    | INTERNAL_ERROR
    | USER_NOT_FOUND
    | INVALID_INPUT
    | TokenIsUndefined         // 'token is undefined'
    | CouldNotUpdate           // 'Could Not Update'
    | TokensNotMatching        // 'Tokens Not Matching'
    | CodeWrongOrExpired       // 'Code is wrong Or Have Expired'
    | StoreMessage(storeError: StoreError)
    | SignerMessage(text: string)
    | CaughtTypeError          // a TypeError turned into FAIL(e.message)
    | UncaughtTypeError        // a TypeError that rejects the returned promise

  /** The code of a failure: none, an HTTP or signer code, or the store's own. */
  datatype Status = NoStatus | Code(n: int) | StoreCode(err: StoreError)

  datatype Failure = Failure(kind: Kind, status: Status)

  /** `Resp<T>`: `Succeed(body)` or `FAIL(message, code)`. */
  datatype Resp<T> = Succeed(body: T) | Fail(error: Failure)

  function FailWith<T>(k: Kind): Resp<T> { Fail(Failure(k, NoStatus)) }

  /** A verification code handed to `sendVerificationCode`, and where to. */
  datatype Delivery = Delivery(address: Option<string>, code: string)

  /** What an operation answers, the store after it and the codes it sends. */
  datatype Outcome<T> = Outcome(resp: Resp<T>, docs: seq<Account>, sent: seq<Delivery>)

  /** `RegisterUserInput`, as far as this core uses it. */
  datatype RegisterUserInput = RegisterUserInput(
    email: string, password: string, firstName: Option<string>, lastName: Option<string>)

  /** `AuthTokenResponse`. */
  datatype AuthTokenResponse = AuthTokenResponse(authToken: AuthToken, userData: PublicUser)

  /** `UserAndTokne`: the verified claims and the account they name. */
  datatype UserAndToken = UserAndToken(usrToken: Claims, user: PublicUser)

  // ---------------------------------------------------------------- codes

  /** `UTIL_sendCodeAndUpdateHash`: store the code's hash on the record keyed by
      `input.email`, then send the code to `addressedEmail`. */
  function SendCodeAndUpdateHash(docs: seq<Account>, addressedEmail: Option<string>, input: Patch,
                                 code: string, now: int): (o: Outcome<Message>)
    ensures Indexed(docs) ==> Indexed(o.docs)
    ensures o.resp.Fail? ==> o.resp == FailWith(COULD_NOT_CREATE_USER) && o.docs == docs && o.sent == []
    ensures o.resp.Succeed? ==> o.resp.body == VERIFICATION_SENT && o.sent == [Delivery(addressedEmail, code)]
  {
    var w := UpsertOne(docs, ByEmail(input.email),
                       input.(verificationCodeHash := Some(Hash(code)),
                              verificationCodeExpires := Some(now + VERIFICATION_CODE_EXP)));
    if !w.result.ok || (w.result.modifiedCount == 0 && w.result.upsertedCount == 0) then
      Outcome(FailWith(COULD_NOT_CREATE_USER), w.docs, [])
    else
      Outcome(Succeed(VERIFICATION_SENT), w.docs, [Delivery(addressedEmail, code)])
  }

  /** `SERV_registerWithEmailCode`. */
  function RegisterWithEmailCode(docs: seq<Account>, input: RegisterUserInput, code: string, now: int)
    : (o: Outcome<Message>)
    ensures Indexed(docs) ==> Indexed(o.docs)
  {
    var user := FindOne(docs, Where(ByEmail(Some(input.email))));
    if user.Some? && user.value.active then Outcome(FailWith(USER_EXISTS), docs, [])
    else
      SendCodeAndUpdateHash(docs, Some(input.email),
        NoFields.(email := Some(input.email), password := Some(Hash(input.password)),
                  firstName := input.firstName, lastName := input.lastName),
        code, now)
  }

  /** A code is past its expiry time; a missing expiry never is (`undefined < now` is false). */
  predicate Expired(expires: Option<int>, now: int) {
    expires.Some? && expires.value < now
  }

  /** `UTIL_verifyCode`: the record found by the identifier, with its password and
      code hash blanked, when the code is its latest and has not expired. */
  function VerifyCode(docs: seq<Account>, phoneOrEmail: Option<string>, code: string, now: int)
    : (r: Option<Account>)
    ensures r.Some? ==> var u := FindOne(docs, AnyIdentifier(phoneOrEmail));
              && u.Some?
              && r.value == u.value.(verificationCodeHash := "", password := "")
              && VerifyHash(u.value.verificationCodeHash, code)
              && !Expired(u.value.verificationCodeExpires, now)
  {
    match FindOne(docs, AnyIdentifier(phoneOrEmail))
    case None => None
    case Some(userToVerify) =>
      if !VerifyHash(userToVerify.verificationCodeHash, code)
         || Expired(userToVerify.verificationCodeExpires, now)
      then None
      else Some(userToVerify.(verificationCodeHash := "", password := ""))
  }

  /** `SERV_activateAccountByCode`. */
  function ActivateAccountByCode(docs: seq<Account>, phoneOrEmail: string, code: string, now: int)
    : (o: Outcome<PublicUser>)
    ensures Indexed(docs) ==> Indexed(o.docs)
    ensures o.sent == []
  {
    match VerifyCode(docs, Some(phoneOrEmail), code, now)
    case None => Outcome(FailWith(INVALID_CODE), docs, [])
    case Some(verified) =>
      if verified.active then Outcome(FailWith(USER_EXISTS), docs, [])
      else
        var w := FindOneAndUpdate(docs, ByEmail(Some(phoneOrEmail)),
                                  NoFields.(active := Some(true), accountStatus := Some(UN_APPROVED)));
        match w.result
        case StoreFail(e) => Outcome(Fail(Failure(StoreMessage(e), StoreCode(e))), w.docs, [])
        case StoreOk(updated) => Outcome(Succeed(updated), w.docs, [])
  }

  // ---------------------------------------------------------------- tokens

  /** `UTIL_generateAuthToken`: a signed pair whose claims are the payload's, with a
      fresh session id on login and the payload's own on rotation. */
  function GenerateAuthToken(signer: Signer, payload: Claims, update: bool, randomSessionId: string,
                             now: int): (t: AuthToken)
    ensures t.sessionId == (if update then payload.sessionId else randomSessionId)
    ensures t.accessToken == signer.signAccess(payload.(sessionId := t.sessionId), now)
    ensures t.refreshToken == signer.signRefresh(payload.(sessionId := t.sessionId), now)
  {
    var newPayload := Claims(payload.id, if update then payload.sessionId else randomSessionId,
                             payload.role, payload.accountStatus);
    var accessToken := signer.signAccess(newPayload, now);
    AuthToken(accessToken, signer.signRefresh(newPayload, now), newPayload.sessionId,
              signer.expiryOf(accessToken))
  }

  /** `updateHashedToken`: bind the refresh token to the record with this id. */
  function UpdateHashedToken(docs: seq<Account>, id: Id, refreshToken: string): (w: Written<bool>)
    ensures Indexed(docs) ==> Indexed(w.docs)
    ensures w.result ==> FirstMatch(docs, Where(ById(id))).Some?
    ensures w.result ==> var i := FirstMatch(docs, Where(ById(id))).value;
              && w.docs == docs[i := docs[i].(hashedRefreshToken := Hash(refreshToken))]
  {
    var w := UpsertOne(docs, ById(id), NoFields.(hashedRefreshToken := Some(Hash(refreshToken))));
    Written(w.result.ok && w.result.modifiedCount > 0, w.docs)
  }

  /** `SERV_login`. */
  function Login(docs: seq<Account>, signer: Signer, info: string, password: string,
                 randomSessionId: string, now: int): (o: Outcome<AuthTokenResponse>)
    ensures Indexed(docs) ==> Indexed(o.docs)
    ensures o.sent == []
  {
    match FindOne(docs, ActiveIdentifier(info))
    case None => Outcome(FailWith(INVALID_CREDENTIALS), docs, [])
    case Some(userToLogin) =>
      if !VerifyHash(userToLogin.password, password) then Outcome(FailWith(INVALID_CREDENTIALS), docs, [])
      else if userToLogin.accountStatus == Some(BLOCKED) then Outcome(FailWith(AccountBlocked), docs, [])
      else
        var loginAuthToken := GenerateAuthToken(
          signer, Claims(userToLogin.id, "", userToLogin.role, userToLogin.accountStatus),
          false, randomSessionId, now);
        var w := UpdateHashedToken(docs, userToLogin.id, loginAuthToken.refreshToken);
        if !w.result then Outcome(FailWith(INTERNAL_ERROR), w.docs, [])
        else Outcome(Succeed(AuthTokenResponse(loginAuthToken, Public(userToLogin))), w.docs, [])
  }

  /** `UTIL_getUserFromRefreshToken`; `None` is its `null` for an empty token. */
  function GetUserFromRefreshToken(docs: seq<Account>, signer: Signer, refreshToken: Option<string>)
    : (r: Option<Resp<UserAndToken>>)
    ensures r.None? <==> !Truthy(refreshToken)
    ensures r.Some? && r.value.Succeed? ==>
              && signer.verifyRefresh(refreshToken.value) == Verified(r.value.body.usrToken)
              && var u := FindOne(docs, Where(ById(r.value.body.usrToken.id)));
              && u.Some? && r.value.body.user == Public(u.value)
              && u.value.hashedRefreshToken == Hash(refreshToken.value)
  {
    if !Truthy(refreshToken) then None
    else
      match signer.verifyRefresh(refreshToken.value)
      case Rejected(message, code) => Some(Fail(Failure(SignerMessage(message), Code(code))))
      case Verified(decoded) =>
        match FindOne(docs, Where(ById(decoded.id)))
        case None => Some(FailWith(USER_NOT_FOUND))
        case Some(user) =>
          if !VerifyHash(user.hashedRefreshToken, refreshToken.value)
          then Some(Fail(Failure(TokensNotMatching, Code(UNAUTHORIZED))))
          else Some(Succeed(UserAndToken(decoded, Public(user))))
  }

  /** `SERV_logOut`; `None` is an `undefined` token. */
  function LogOut(docs: seq<Account>, signer: Signer, token: Option<string>): (o: Outcome<bool>)
    ensures Indexed(docs) ==> Indexed(o.docs)
    ensures o.sent == []
    ensures o.resp.Fail? ==> o.docs == docs && o.resp.error.status == NoStatus
  {
    if token.None? then Outcome(FailWith(TokenIsUndefined), docs, [])
    else
      match GetUserFromRefreshToken(docs, signer, token)
      case None => Outcome(FailWith(CaughtTypeError), docs, [])
      case Some(Fail(f)) => Outcome(FailWith(f.kind), docs, [])
      case Some(Succeed(user)) =>
        var w := UpsertOne(docs, ById(user.user.id), NoFields.(hashedRefreshToken := Some("")));
        if !w.result.ok || w.result.modifiedCount < 1 then Outcome(FailWith(CouldNotUpdate), w.docs, [])
        else Outcome(Succeed(true), w.docs, [])
  }

  /** `SERV_resetTokens`: rotate the refresh token of a session. */
  function ResetTokens(docs: seq<Account>, signer: Signer, resetToken: Option<string>,
                       randomSessionId: string, now: int): (o: Outcome<AuthTokenResponse>)
    ensures Indexed(docs) ==> Indexed(o.docs)
    ensures o.sent == []
  {
    match GetUserFromRefreshToken(docs, signer, resetToken)
    case None => Outcome(FailWith(UncaughtTypeError), docs, [])
    case Some(Fail(f)) => Outcome(Fail(f), docs, [])
    case Some(Succeed(user)) =>
      var refreshAuthToken := GenerateAuthToken(signer, user.usrToken, true, randomSessionId, now);
      var w := UpdateHashedToken(docs, user.user.id, refreshAuthToken.refreshToken);
      if !w.result then Outcome(FailWith(INTERNAL_ERROR), w.docs, [])
      else Outcome(Succeed(AuthTokenResponse(refreshAuthToken, user.user)), w.docs, [])
  }

  // ---------------------------------------------------------------- password reset

  /** `SERV_sendResetCode`. */
  function SendResetCode(docs: seq<Account>, email: string, code: string, now: int): (o: Outcome<Message>)
    ensures Indexed(docs) ==> Indexed(o.docs)
  {
    if FindOne(docs, Where(ByActiveEmail(email))).None? then
      Outcome(Fail(Failure(USER_NOT_FOUND, StoreCode(NotFound))), docs, [])
    else
      SendCodeAndUpdateHash(docs, Some(email), NoFields.(email := Some(email)), code, now)
  }

  /** `SERV_resetPassword`. */
  function ResetPassword(docs: seq<Account>, email: string, code: string, newPassword: string, now: int)
    : (o: Outcome<Message>)
    ensures Indexed(docs) ==> Indexed(o.docs)
    ensures o.sent == []
  {
    if VerifyCode(docs, Some(email), code, now).None? then Outcome(FailWith(CodeWrongOrExpired), docs, [])
    else
      var w := FindOneAndUpdate(docs, ByEmail(Some(email)),
                                NoFields.(password := Some(Hash(newPassword)), hashedRefreshToken := Some("")));
      match w.result
      case StoreFail(e) => Outcome(Fail(Failure(StoreMessage(e), StoreCode(e))), w.docs, [])
      case StoreOk(_) => Outcome(Succeed(OPERATION_SUCCESS), w.docs, [])
  }

  // ---------------------------------------------------------------- email change

  /** `SERV_requestEmailChange`. */
  function RequestEmailChange(docs: seq<Account>, id: Id, newEmail: string, code: string, now: int)
    : (o: Outcome<Message>)
    ensures Indexed(docs) ==> Indexed(o.docs)
  {
    if FindOne(docs, Where(ByActiveEmail(newEmail))).Some? then Outcome(FailWith(USER_EXISTS), docs, [])
    else
      match FindOne(docs, Where(ById(id)))
      case None => Outcome(FailWith(USER_NOT_FOUND), docs, [])
      case Some(usr) =>
        if Public(usr).email == Some(newEmail) then Outcome(FailWith(INVALID_INPUT), docs, [])
        else
          SendCodeAndUpdateHash(docs, Some(newEmail),
                                NoFields.(newEmail := Some(newEmail), email := Public(usr).email), code, now)
  }

  /** `SERV_verifyUpdateEmail`. */
  function VerifyUpdateEmail(docs: seq<Account>, id: Id, code: string, password: string, now: int)
    : (o: Outcome<Message>)
    ensures Indexed(docs) ==> Indexed(o.docs)
    ensures o.sent == []
  {
    match FindOne(docs, Where(ById(id)))
    case None => Outcome(FailWith(USER_NOT_FOUND), docs, [])
    case Some(user) =>
      if VerifyCode(docs, user.email, code, now).None? then Outcome(FailWith(CodeWrongOrExpired), docs, [])
      else if !VerifyHash(user.password, password) then
        Outcome(Fail(Failure(INVALID_CREDENTIALS, Code(FORBIDDEN))), docs, [])
      else
        var w := FindOneAndUpdate(docs, ById(user.id), NoFields.(email := user.newEmail, newEmail := Some("")));
        if w.result.StoreFail? then Outcome(FailWith(INTERNAL_ERROR), w.docs, [])
        else Outcome(Succeed(OPERATION_SUCCESS), w.docs, [])
  }

  // ---------------------------------------------------------------- access tokens

  /** `getUserFromToken`: the account an access token names, read by default. */
  function GetUserFromToken(docs: seq<Account>, signer: Signer, token: Option<string>): (r: Option<PublicUser>)
    ensures r.Some? ==> Truthy(token) && signer.verifyAccess(token.value).Some?
                        && var decoded := signer.verifyAccess(token.value).value;
                        && decoded.id != ""
                        && FindOne(docs, Where(ById(decoded.id))).Some?
                        && r.value == Public(FindOne(docs, Where(ById(decoded.id))).value)
    ensures (&& Truthy(token) && signer.verifyAccess(token.value).Some?
             && signer.verifyAccess(token.value).value.id != ""
             && FindOne(docs, Where(ById(signer.verifyAccess(token.value).value.id))).Some?) ==> r.Some?
  {
    if !Truthy(token) then None
    else
      match signer.verifyAccess(token.value)
      case None => None
      case Some(decoded) =>
        if decoded.id == "" then None
        else
          match FindOne(docs, Where(ById(decoded.id)))
          case None => None
          case Some(realUser) => Some(Public(realUser))
  }
}
