/**
 * `AuthService` as the object it is: it holds the users service, the
 * verification (mail/SMS) service and the token signer, and each routine
 * makes its calls on them one after the other. Every method is proved to
 * leave the collaborators exactly as the matching `AuthSpec` function says.
 */
module Auth {
  import opened Wrappers
  import opened Crypto
  import opened UserEntity
  import opened Jwt
  import opened AccountStore
  import opened AuthSpec

  /** `VerificationService`: the codes sent so far, in order. */
  class VerificationService {
    var sent: seq<Delivery>

    constructor ()
      ensures sent == []
    {
      sent := [];
    }

    /** `sendVerificationCode(address, code)`. */
    method SendVerificationCode(address: Option<string>, code: string)
      modifies this
      ensures sent == old(sent) + [Delivery(address, code)]
    {
      sent := sent + [Delivery(address, code)];
    }
  }

  class AuthService {
    const users: UserService
    const verification: VerificationService
    const signer: Signer

    ghost predicate Valid() reads this, users {
      users.Valid()
    }

    constructor (users: UserService, verification: VerificationService, signer: Signer)
      requires users.Valid()
      ensures Valid()
      ensures this.users == users && this.verification == verification && this.signer == signer
    {
      this.users := users;
      this.verification := verification;
      this.signer := signer;
    }

    /** A users-service lookup, as the store's first match. */
    method Lookup(q: Query) returns (r: Option<Account>)
      ensures r == FindOne(users.docs, q)
    {
      r := users.Find(q);
      FoundIsFindOne(users.docs, q, r);
    }

    /** `UTIL_sendCodeAndUpdateHash`; `code` is the code the routine issues. */
    method SendCodeAndUpdateHash(addressedEmail: Option<string>, input: Patch, code: string, now: int) returns (r: Resp<Message>)
      requires Valid()
      modifies users, verification
      ensures Valid()
      ensures var o := AuthSpec.SendCodeAndUpdateHash(old(users.docs), addressedEmail, input, code, now);
              r == o.resp && users.docs == o.docs && verification.sent == old(verification.sent) + o.sent
    {
      var codeHash := Hash(code);
      var usr := users.Upsert(ByEmail(input.email),
                              input.(verificationCodeHash := Some(codeHash),
                                     verificationCodeExpires := Some(now + VERIFICATION_CODE_EXP)));
      if !usr.ok || (usr.modifiedCount == 0 && usr.upsertedCount == 0) {
        return FailWith(COULD_NOT_CREATE_USER);
      }
      verification.SendVerificationCode(addressedEmail, code);
      r := Succeed(VERIFICATION_SENT);
    }

    /** `SERV_registerWithEmailCode`. */
    method RegisterWithEmailCode(input: RegisterUserInput, code: string, now: int) returns (r: Resp<Message>)
      requires Valid()
      modifies users, verification
      ensures Valid()
      ensures var o := AuthSpec.RegisterWithEmailCode(old(users.docs), input, code, now);
              r == o.resp && users.docs == o.docs && verification.sent == old(verification.sent) + o.sent
    {
      var user := Lookup(Where(ByEmail(Some(input.email))));
      if user.Some? && user.value.active {
        return FailWith(USER_EXISTS);
      }
      var hashed := input.(password := Hash(input.password));
      r := SendCodeAndUpdateHash(Some(input.email),
                                 NoFields.(email := Some(hashed.email), password := Some(hashed.password),
                                           firstName := hashed.firstName, lastName := hashed.lastName),
                                 code, now);
    }

    /** `UTIL_verifyCode`. */
    method VerifyCode(phoneOrEmail: Option<string>, code: string, now: int) returns (r: Option<Account>)
      ensures r == AuthSpec.VerifyCode(users.docs, phoneOrEmail, code, now)
    {
      var userToVerify := Lookup(AnyIdentifier(phoneOrEmail));
      if userToVerify.None? {
        return None;
      }
      var u := userToVerify.value;
      if !VerifyHash(u.verificationCodeHash, code) || Expired(u.verificationCodeExpires, now) {
        return None;
      }
      u := u.(verificationCodeHash := "");
      u := u.(password := "");
      r := Some(u);
    }

    /** `SERV_activateAccountByCode`. */
    method ActivateAccountByCode(phoneOrEmail: string, code: string, now: int) returns (r: Resp<PublicUser>)
      requires Valid()
      modifies users
      ensures Valid()
      ensures var o := AuthSpec.ActivateAccountByCode(old(users.docs), phoneOrEmail, code, now);
              r == o.resp && users.docs == o.docs
    {
      var verifyToActivate := VerifyCode(Some(phoneOrEmail), code, now);
      if verifyToActivate.None? {
        return FailWith(INVALID_CODE);
      }
      if verifyToActivate.value.active {
        return FailWith(USER_EXISTS);
      }
      var updatedUser := users.FindAndUpdate(ByEmail(Some(phoneOrEmail)),
                                             NoFields.(active := Some(true), accountStatus := Some(UN_APPROVED)));
      if updatedUser.StoreFail? {
        return Fail(Failure(StoreMessage(updatedUser.error), StoreCode(updatedUser.error)));
      }
      r := Succeed(updatedUser.body);
    }

    /** `updateHashedToken`. */
    method UpdateHashedToken(id: Id, refreshToken: string) returns (updated: bool)
      requires Valid()
      modifies users
      ensures Valid()
      ensures var w := AuthSpec.UpdateHashedToken(old(users.docs), id, refreshToken);
              updated == w.result && users.docs == w.docs
    {
      var hashedRefreshToken := Hash(refreshToken);
      var usr := users.Upsert(ById(id), NoFields.(hashedRefreshToken := Some(hashedRefreshToken)));
      if !usr.ok {
        return false;
      }
      updated := usr.modifiedCount > 0;
    }

    /** `SERV_login`; `randomSessionId` is what `randomCode` draws. */
    method Login(info: string, password: string, randomSessionId: string, now: int)
      returns (r: Resp<AuthTokenResponse>)
      requires Valid()
      modifies users
      ensures Valid()
      ensures var o := AuthSpec.Login(old(users.docs), signer, info, password, randomSessionId, now);
              r == o.resp && users.docs == o.docs
    {
      var userToLogin := Lookup(ActiveIdentifier(info));
      if userToLogin.None? {
        return FailWith(INVALID_CREDENTIALS);
      }
      var u := userToLogin.value;
      if !VerifyHash(u.password, password) {
        return FailWith(INVALID_CREDENTIALS);
      }
      if u.accountStatus == Some(BLOCKED) {
        return FailWith(AccountBlocked);
      }
      var pickedUser := Public(u);
      var loginAuthToken := GenerateAuthToken(signer, Claims(u.id, "", u.role, u.accountStatus),
                                              false, randomSessionId, now);
      var loginUpdate := UpdateHashedToken(u.id, loginAuthToken.refreshToken);
      if !loginUpdate {
        return FailWith(INTERNAL_ERROR);
      }
      r := Succeed(AuthTokenResponse(loginAuthToken, pickedUser));
    }

    /** `UTIL_getUserFromRefreshToken`; `None` is its `null`. */
    method GetUserFromRefreshToken(refreshToken: Option<string>) returns (r: Option<Resp<UserAndToken>>)
      ensures r == AuthSpec.GetUserFromRefreshToken(users.docs, signer, refreshToken)
    {
      if !Truthy(refreshToken) {
        return None;
      }
      var decoded := signer.verifyRefresh(refreshToken.value);
      if decoded.Rejected? {
        return Some(Fail(Failure(SignerMessage(decoded.message), Code(decoded.code))));
      }
      var user := Lookup(Where(ById(decoded.claims.id)));
      if user.None? {
        return Some(FailWith(USER_NOT_FOUND));
      }
      var pickedUser := Public(user.value);
      var isRefreshTokenMatching := VerifyHash(user.value.hashedRefreshToken, refreshToken.value);
      if !isRefreshTokenMatching {
        return Some(Fail(Failure(TokensNotMatching, Code(UNAUTHORIZED))));
      }
      r := Some(Succeed(UserAndToken(decoded.claims, pickedUser)));
    }

    /** `SERV_logOut`. */
    method LogOut(token: Option<string>) returns (r: Resp<bool>)
      requires Valid()
      modifies users
      ensures Valid()
      ensures var o := AuthSpec.LogOut(old(users.docs), signer, token);
              r == o.resp && users.docs == o.docs
    {
      if token.None? {
        return FailWith(TokenIsUndefined);
      }
      var user := GetUserFromRefreshToken(token);
      if user.None? {
        // reading `.ok` of `null` throws inside the `try`
        return FailWith(CaughtTypeError);
      }
      if user.value.Fail? {
        return FailWith(user.value.error.kind);
      }
      var userRes := users.Upsert(ById(user.value.body.user.id), NoFields.(hashedRefreshToken := Some("")));
      if !userRes.ok || userRes.modifiedCount < 1 {
        return FailWith(CouldNotUpdate);
      }
      r := Succeed(true);
    }

    /** `SERV_resetTokens`. */
    method ResetTokens(resetToken: Option<string>, randomSessionId: string, now: int)
      returns (r: Resp<AuthTokenResponse>)
      requires Valid()
      modifies users
      ensures Valid()
      ensures var o := AuthSpec.ResetTokens(old(users.docs), signer, resetToken, randomSessionId, now);
              r == o.resp && users.docs == o.docs
    {
      var user := GetUserFromRefreshToken(resetToken);
      if user.None? {
        // reading `.ok` of `null`, with no `try` around it
        return FailWith(UncaughtTypeError);
      }
      if user.value.Fail? {
        return Fail(user.value.error);
      }
      var refreshAuthToken := GenerateAuthToken(signer, user.value.body.usrToken, true, randomSessionId, now);
      var refreshUpdated := UpdateHashedToken(user.value.body.user.id, refreshAuthToken.refreshToken);
      if !refreshUpdated {
        return FailWith(INTERNAL_ERROR);
      }
      r := Succeed(AuthTokenResponse(refreshAuthToken, user.value.body.user));
    }

    /** `SERV_sendResetCode`. */
    method SendResetCode(email: string, code: string, now: int) returns (r: Resp<Message>)
      requires Valid()
      modifies users, verification
      ensures Valid()
      ensures var o := AuthSpec.SendResetCode(old(users.docs), email, code, now);
              r == o.resp && users.docs == o.docs && verification.sent == old(verification.sent) + o.sent
    {
      var user := Lookup(Where(ByActiveEmail(email)));
      if user.None? {
        return Fail(Failure(USER_NOT_FOUND, StoreCode(NotFound)));
      }
      r := SendCodeAndUpdateHash(Some(email), NoFields.(email := Some(email)), code, now);
    }

    /** `SERV_resetPassword`. */
    method ResetPassword(email: string, code: string, newPassword: string, now: int) returns (r: Resp<Message>)
      requires Valid()
      modifies users
      ensures Valid()
      ensures var o := AuthSpec.ResetPassword(old(users.docs), email, code, newPassword, now);
              r == o.resp && users.docs == o.docs
    {
      var verifyToResetPwd := VerifyCode(Some(email), code, now);
      if verifyToResetPwd.None? {
        return FailWith(CodeWrongOrExpired);
      }
      var hashedPwd := Hash(newPassword);
      var usr := users.FindAndUpdate(ByEmail(Some(email)),
                                     NoFields.(password := Some(hashedPwd), hashedRefreshToken := Some("")));
      if usr.StoreFail? {
        return Fail(Failure(StoreMessage(usr.error), StoreCode(usr.error)));
      }
      r := Succeed(OPERATION_SUCCESS);
    }

    /** `SERV_requestEmailChange`. */
    method RequestEmailChange(id: Id, newEmail: string, code: string, now: int) returns (r: Resp<Message>)
      requires Valid()
      modifies users, verification
      ensures Valid()
      ensures var o := AuthSpec.RequestEmailChange(old(users.docs), id, newEmail, code, now);
              r == o.resp && users.docs == o.docs && verification.sent == old(verification.sent) + o.sent
    {
      var user := Lookup(Where(ByActiveEmail(newEmail)));
      if user.Some? {
        return FailWith(USER_EXISTS);
      }
      var usr := Lookup(Where(ById(id)));
      if usr.None? {
        return FailWith(USER_NOT_FOUND);
      }
      var body := Public(usr.value);
      if body.email == Some(newEmail) {
        return FailWith(INVALID_INPUT);
      }
      r := SendCodeAndUpdateHash(Some(newEmail), NoFields.(newEmail := Some(newEmail), email := body.email), code, now);
    }

    /** `SERV_verifyUpdateEmail`. */
    method VerifyUpdateEmail(id: Id, code: string, password: string, now: int) returns (r: Resp<Message>)
      requires Valid()
      modifies users
      ensures Valid()
      ensures var o := AuthSpec.VerifyUpdateEmail(old(users.docs), id, code, password, now);
              r == o.resp && users.docs == o.docs
    {
      var user := Lookup(Where(ById(id)));
      if user.None? {
        return FailWith(USER_NOT_FOUND);
      }
      var verifyToUpdateEmail := VerifyCode(user.value.email, code, now);
      if verifyToUpdateEmail.None? {
        return FailWith(CodeWrongOrExpired);
      }
      if !VerifyHash(user.value.password, password) {
        return Fail(Failure(INVALID_CREDENTIALS, Code(FORBIDDEN)));
      }
      var usr := users.FindAndUpdate(ById(user.value.id),
                                     NoFields.(email := user.value.newEmail, newEmail := Some("")));
      if usr.StoreFail? {
        return FailWith(INTERNAL_ERROR);
      }
      r := Succeed(OPERATION_SUCCESS);
    }

    /** `getUserFromToken`. */
    method GetUserFromToken(token: Option<string>) returns (r: Option<PublicUser>)
      ensures r == AuthSpec.GetUserFromToken(users.docs, signer, token)
    {
      if !Truthy(token) {
        return None;
      }
      var decoded := signer.verifyAccess(token.value);
      if decoded.None? || decoded.value.id == "" {
        return None;
      }
      var realUser := Lookup(Where(ById(decoded.value.id)));
      if realUser.None? {
        return None;
      }
      r := Some(Public(realUser.value));
    }
  }
}
