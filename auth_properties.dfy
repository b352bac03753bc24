/**
 * What the state machine guarantees, stated over `AuthSpec`'s functions:
 * precedence of the checks, "latest code wins", expiry, session ids across
 * rotation, and revocation of refresh tokens by logout, rotation and
 * password reset.
 */
module AuthProperties {
  import opened Wrappers
  import opened Crypto
  import opened UserEntity
  import opened Jwt
  import opened AccountStore
  import opened AuthSpec

  // ------------------------------------------------------------ code issuance

  /** The fields a code issuance writes. */
  function IssuePatch(input: Patch, code: string, now: int): Patch {
    input.(verificationCodeHash := Some(Hash(code)),
           verificationCodeExpires := Some(now + VERIFICATION_CODE_EXP))
  }

  /**
   * After a successful issuance the record that `input.email` selects holds
   * every field `input` gives (applying the issuance again changes nothing), the hash of this code and an expiry 30 minutes on;
   * no other record changes and no record is lost.
   */
  lemma {:induction false} IssuanceOverwrites(docs: seq<Account>, addressedEmail: Option<string>, input: Patch,
                                              code: string, now: int)
    requires SendCodeAndUpdateHash(docs, addressedEmail, input, code, now).resp.Succeed?
    ensures var o := SendCodeAndUpdateHash(docs, addressedEmail, input, code, now);
            var k := FirstMatch(o.docs, Where(ByEmail(input.email)));
            && k.Some?
            && Apply(o.docs[k.value], IssuePatch(input, code, now)) == o.docs[k.value]
            && o.docs[k.value].verificationCodeHash == Hash(code)
            && o.docs[k.value].verificationCodeExpires == Some(now + VERIFICATION_CODE_EXP)
            && |docs| <= |o.docs| <= |docs| + 1
            && (forall j :: 0 <= j < |docs| && j != k.value ==> o.docs[j] == docs[j])
            && (k.value < |docs| ==> o.docs == docs[k.value := Apply(docs[k.value], IssuePatch(input, code, now))])
  {
    var q := Where(ByEmail(input.email));
    var p := IssuePatch(input, code, now);
    var w := UpsertOne(docs, ByEmail(input.email), p);
    match FirstMatch(docs, q)
    case Some(i) =>
      FirstMatchAfterWrite(docs, q, i, Apply(docs[i], p));
    case None =>
      FirstMatchAt(w.docs, q, |docs|);
  }

  /** Issuance leaves every phone number where it was; a record it inserts has none. */
  lemma IssuanceKeepsPhones(docs: seq<Account>, addressedEmail: Option<string>, input: Patch,
                            code: string, now: int)
    ensures var o := SendCodeAndUpdateHash(docs, addressedEmail, input, code, now);
            && |docs| <= |o.docs|
            && (forall j :: 0 <= j < |o.docs| ==> o.docs[j].phone == (if j < |docs| then docs[j].phone else None))
  {
  }

  /**
   * Issuance fails (COULD_NOT_CREATE_USER) exactly when the store refuses
   * the write for a unique index: every admitted write is counted, as an
   * update or as an insert. What delivery answers plays no part.
   */
  lemma IssuanceFailsOnlyOnConflict(docs: seq<Account>, addressedEmail: Option<string>, input: Patch,
                                    code: string, now: int)
    ensures var w := UpsertOne(docs, ByEmail(input.email), IssuePatch(input, code, now));
            SendCodeAndUpdateHash(docs, addressedEmail, input, code, now).resp.Fail? <==> !w.result.ok
  {
  }

  /**
   * Latest code wins: once a code is issued for an address that no account
   * uses as its phone, every other code fails, and the issued one holds up to
   * and including its expiry instant.
   */
  lemma LatestCodeWins(docs: seq<Account>, addressedEmail: Option<string>, input: Patch,
                       code: string, now: int, earlier: string, t: int)
    requires input.email.Some?
    requires forall j :: 0 <= j < |docs| ==> docs[j].phone != input.email
    requires SendCodeAndUpdateHash(docs, addressedEmail, input, code, now).resp.Succeed?
    requires earlier != code
    ensures var o := SendCodeAndUpdateHash(docs, addressedEmail, input, code, now);
            && VerifyCode(o.docs, input.email, earlier, t).None?
            && (VerifyCode(o.docs, input.email, code, t).Some? <==> t <= now + VERIFICATION_CODE_EXP)
  {
    var o := SendCodeAndUpdateHash(docs, addressedEmail, input, code, now);
    IssuanceOverwrites(docs, addressedEmail, input, code, now);
    IssuanceKeepsPhones(docs, addressedEmail, input, code, now);
    FirstMatchAgrees(o.docs, AnyIdentifier(input.email), Where(ByEmail(input.email)));
    VerifyHashExactlyPreimage(code, earlier);
  }

  // ------------------------------------------------------------ registration

  /** Registration is refused exactly when an active account already has the email. */
  lemma RegisterRefusesOnlyActiveDuplicates(docs: seq<Account>, input: RegisterUserInput, code: string, now: int)
    ensures var user := FindOne(docs, Where(ByEmail(Some(input.email))));
            (RegisterWithEmailCode(docs, input, code, now).resp == FailWith(USER_EXISTS))
            <==> (user.Some? && user.value.active)
  {
  }

  /**
   * A registration that goes through (also for an inactive duplicate, which
   * is re-issued a code) leaves the account of that email with the hashed
   * password, the names given, and this code; the code is sent to the email.
   */
  lemma RegisterIssuesCode(docs: seq<Account>, input: RegisterUserInput, code: string, now: int)
    requires RegisterWithEmailCode(docs, input, code, now).resp.Succeed?
    ensures var o := RegisterWithEmailCode(docs, input, code, now);
            var k := FirstMatch(o.docs, Where(ByEmail(Some(input.email))));
            && k.Some?
            && o.docs[k.value].password == Hash(input.password)
            && o.docs[k.value].verificationCodeHash == Hash(code)
            && o.docs[k.value].verificationCodeExpires == Some(now + VERIFICATION_CODE_EXP)
            && (input.firstName.Some? ==> o.docs[k.value].firstName == input.firstName)
            && (input.lastName.Some? ==> o.docs[k.value].lastName == input.lastName)
            && o.sent == [Delivery(Some(input.email), code)]
  {
    IssuanceOverwrites(docs, Some(input.email),
      NoFields.(email := Some(input.email), password := Some(Hash(input.password)),
                firstName := input.firstName, lastName := input.lastName), code, now);
  }

  /**
   * Registering an address nobody uses appends one new inactive account
   * with the default role USER, the hashed password and this code.
   */
  lemma RegisterNewAddress(docs: seq<Account>, input: RegisterUserInput, code: string, now: int)
    requires Indexed(docs)
    requires forall j :: 0 <= j < |docs| ==> docs[j].email != Some(input.email)
    ensures RegisterWithEmailCode(docs, input, code, now) ==
              Outcome(Succeed(VERIFICATION_SENT),
                      docs + [Account(FreshId(docs), Some(input.email), None, None, input.firstName,
                                      input.lastName, None, USER, None, false, Hash(input.password), "",
                                      Hash(code), Some(now + VERIFICATION_CODE_EXP), None)],
                      [Delivery(Some(input.email), code)])
  {
    assert FirstMatch(docs, Where(ByEmail(Some(input.email)))).None?;
  }

  // ------------------------------------------------------------ verification and activation

  /**
   * The code check fails exactly when no account has the identifier, the
   * code is not the latest one issued, or its expiry is strictly past; a
   * code is still good at its expiry instant.
   */
  lemma VerifyCodeExactly(docs: seq<Account>, phoneOrEmail: Option<string>, code: string, now: int)
    ensures var u := FindOne(docs, AnyIdentifier(phoneOrEmail));
            VerifyCode(docs, phoneOrEmail, code, now).None? <==>
              (u.None? || !VerifyHash(u.value.verificationCodeHash, code)
               || (u.value.verificationCodeExpires.Some? && u.value.verificationCodeExpires.value < now))
    ensures var u := FindOne(docs, AnyIdentifier(phoneOrEmail));
            (u.Some? && VerifyHash(u.value.verificationCodeHash, code) && u.value.verificationCodeExpires == Some(now))
            ==> VerifyCode(docs, phoneOrEmail, code, now).Some?
  {
  }

  /** A successful code check leaves the store as it was: the code stays redeemable. */
  lemma ActivationKeepsCodeRedeemable(docs: seq<Account>, phoneOrEmail: string, code: string, now: int)
    requires ActivateAccountByCode(docs, phoneOrEmail, code, now).resp.Succeed?
    ensures VerifyCode(ActivateAccountByCode(docs, phoneOrEmail, code, now).docs, Some(phoneOrEmail), code, now).Some?
  {
    var p := NoFields.(active := Some(true), accountStatus := Some(UN_APPROVED));
    var k := FirstMatch(docs, Where(ByEmail(Some(phoneOrEmail)))).value;
    FirstMatchAfterWrite(docs, AnyIdentifier(Some(phoneOrEmail)), k, Apply(docs[k], p));
  }

  /**
   * Activation answers INVALID_CODE exactly when the code check fails, and
   * USER_EXISTS exactly when it passes on an active account. When it succeeds
   * the only change is `active` and `accountStatus` on the record that has
   * the identifier as its email.
   */
  lemma ActivationOutcomes(docs: seq<Account>, phoneOrEmail: string, code: string, now: int)
    ensures var o := ActivateAccountByCode(docs, phoneOrEmail, code, now);
            var v := VerifyCode(docs, Some(phoneOrEmail), code, now);
            && (o.resp == FailWith(INVALID_CODE) <==> v.None?)
            && (o.resp == FailWith(USER_EXISTS) <==> v.Some? && v.value.active)
            && (o.resp.Succeed? ==>
                  var k := FirstMatch(docs, Where(ByEmail(Some(phoneOrEmail))));
                  && v.Some? && !v.value.active && k.Some?
                  && o.docs == docs[k.value := docs[k.value].(active := true, accountStatus := Some(UN_APPROVED))]
                  && o.resp.body == Public(o.docs[k.value]))
  {
  }

  /**
   * The update after the code check always goes by email: an account
   * verified through its phone number, when no account has that string as
   * email, is not activated and the store's not-found error comes back.
   */
  lemma ActivationByPhoneIsNotApplied(docs: seq<Account>, phone: string, code: string, now: int)
    requires VerifyCode(docs, Some(phone), code, now).Some?
    requires !VerifyCode(docs, Some(phone), code, now).value.active
    requires forall j :: 0 <= j < |docs| ==> docs[j].email != Some(phone)
    ensures ActivateAccountByCode(docs, phone, code, now) ==
              Outcome(Fail(Failure(StoreMessage(NotFound), StoreCode(NotFound))), docs, [])
  {
    assert FirstMatch(docs, Where(ByEmail(Some(phone)))).None?;
  }

  // ------------------------------------------------------------ login

  /**
   * Login's checks in order: no active account, then a wrong password, both
   * INVALID_CREDENTIALS, and only then a blocked account; none of them
   * touches the store. So a blocked account with a wrong password gets
   * INVALID_CREDENTIALS.
   */
  lemma LoginPrecedence(docs: seq<Account>, signer: Signer, info: string, password: string,
                        randomSessionId: string, now: int)
    ensures var o := Login(docs, signer, info, password, randomSessionId, now);
            var u := FindOne(docs, ActiveIdentifier(info));
            && (u.None? ==> o == Outcome(FailWith(INVALID_CREDENTIALS), docs, []))
            && (u.Some? && !VerifyHash(u.value.password, password) ==>
                  o == Outcome(FailWith(INVALID_CREDENTIALS), docs, []))
            && (u.Some? && VerifyHash(u.value.password, password) && u.value.accountStatus == Some(BLOCKED) ==>
                  o == Outcome(FailWith(AccountBlocked), docs, []))
            && (o.resp.Succeed? ==> u.Some? && u.value.active && VerifyHash(u.value.password, password)
                                    && u.value.accountStatus != Some(BLOCKED))
  {
  }

  /**
   * Past its three checks a login always succeeds (the store's indexes
   * holding): the token write only touches a secret field, so it is admitted
   * and counted, and the INTERNAL_ERROR branch is unreachable.
   */
  lemma LoginSucceedsAfterChecks(docs: seq<Account>, signer: Signer, info: string, password: string,
                                 randomSessionId: string, now: int)
    requires Indexed(docs)
    requires FindOne(docs, ActiveIdentifier(info)).Some?
    requires VerifyHash(FindOne(docs, ActiveIdentifier(info)).value.password, password)
    requires FindOne(docs, ActiveIdentifier(info)).value.accountStatus != Some(BLOCKED)
    ensures Login(docs, signer, info, password, randomSessionId, now).resp.Succeed?
  {
    var u := FindOne(docs, ActiveIdentifier(info)).value;
    var k := FirstMatch(docs, ActiveIdentifier(info)).value;
    forall j | 0 <= j < k ensures !Matches(docs[j], Where(ById(u.id))) {
      assert Compatible(docs[j], docs[k]);
    }
    FirstMatchAt(docs, Where(ById(u.id)), k);
    var t := GenerateAuthToken(signer, Claims(u.id, "", u.role, u.accountStatus), false, randomSessionId, now);
    SameKeysAdmitted(docs, k, Apply(docs[k], NoFields.(hashedRefreshToken := Some(Hash(t.refreshToken)))));
  }

  /**
   * A successful login returns a pair for a fresh session of that account,
   * its public projection, and binds the refresh token: the stored hash is
   * the token's, and the token (when the signer verifies what it signs)
   * validates to the claims it was issued with.
   */
  lemma LoginBindsRefreshToken(docs: seq<Account>, signer: Signer, info: string, password: string,
                               randomSessionId: string, now: int)
    requires Login(docs, signer, info, password, randomSessionId, now).resp.Succeed?
    ensures var o := Login(docs, signer, info, password, randomSessionId, now);
            var u := FindOne(docs, ActiveIdentifier(info)).value;
            var body := o.resp.body;
            var k := FirstMatch(o.docs, Where(ById(u.id)));
            && body.userData == Public(u)
            && body.authToken.sessionId == randomSessionId
            && k.Some? && o.docs[k.value].hashedRefreshToken == Hash(body.authToken.refreshToken)
            && (RefreshRoundTrips(signer) && body.authToken.refreshToken != "" ==>
                  GetUserFromRefreshToken(o.docs, signer, Some(body.authToken.refreshToken))
                  == Some(Succeed(UserAndToken(Claims(u.id, randomSessionId, u.role, u.accountStatus),
                                               Public(o.docs[k.value])))))
  {
    var o := Login(docs, signer, info, password, randomSessionId, now);
    var u := FindOne(docs, ActiveIdentifier(info)).value;
    var i := FirstMatch(docs, Where(ById(u.id))).value;
    FirstMatchAfterWrite(docs, Where(ById(u.id)), i,
                         docs[i].(hashedRefreshToken := Hash(o.resp.body.authToken.refreshToken)));
  }

  /** Login changes nothing in the store but the hash bound to the account. */
  lemma LoginRebindsOnlyTheHash(docs: seq<Account>, signer: Signer, info: string, password: string,
                                randomSessionId: string, now: int)
    requires Login(docs, signer, info, password, randomSessionId, now).resp.Succeed?
    ensures var o := Login(docs, signer, info, password, randomSessionId, now);
            var i := FirstMatch(docs, Where(ById(FindOne(docs, ActiveIdentifier(info)).value.id)));
            && i.Some?
            && o.docs == docs[i.value := docs[i.value].(hashedRefreshToken := Hash(o.resp.body.authToken.refreshToken))]
  {
  }

  // ------------------------------------------------------------ refresh tokens

  /** The refresh token validates against the store. */
  predicate Accepted(docs: seq<Account>, signer: Signer, token: string) {
    var r := GetUserFromRefreshToken(docs, signer, Some(token));
    r.Some? && r.value.Succeed?
  }

  /**
   * Refresh-token validation: an empty token gives `null`; a signer error
   * comes back with its own code; then an unknown account, then a token that
   * is not the one whose hash is stored (UNAUTHORIZED).
   */
  lemma RefreshValidationOutcomes(docs: seq<Account>, signer: Signer, token: string)
    ensures GetUserFromRefreshToken(docs, signer, Some("")) == None
    ensures GetUserFromRefreshToken(docs, signer, None) == None
    ensures token != "" && signer.verifyRefresh(token).Rejected? ==>
              GetUserFromRefreshToken(docs, signer, Some(token))
              == Some(Fail(Failure(SignerMessage(signer.verifyRefresh(token).message),
                                   Code(signer.verifyRefresh(token).code))))
    ensures token != "" && signer.verifyRefresh(token).Verified? ==>
              var u := FindOne(docs, Where(ById(signer.verifyRefresh(token).claims.id)));
              && (u.None? ==> GetUserFromRefreshToken(docs, signer, Some(token)) == Some(FailWith(USER_NOT_FOUND)))
              && (u.Some? && u.value.hashedRefreshToken != Hash(token) ==>
                    GetUserFromRefreshToken(docs, signer, Some(token))
                    == Some(Fail(Failure(TokensNotMatching, Code(UNAUTHORIZED)))))
  {
  }

  /** At most one refresh token per account validates: the one whose hash is stored. */
  lemma SingleSession(docs: seq<Account>, signer: Signer, t1: string, t2: string)
    requires Accepted(docs, signer, t1) && Accepted(docs, signer, t2)
    requires GetUserFromRefreshToken(docs, signer, Some(t1)).value.body.usrToken.id
          == GetUserFromRefreshToken(docs, signer, Some(t2)).value.body.usrToken.id
    ensures t1 == t2
  {
    HashInjective(t1, t2);
  }

  /**
   * Rotation keeps the session: the new pair carries the session id of the
   * presented token (whatever random id was drawn), the new refresh token
   * validates to the very same claims, and the presented one, if different,
   * is rejected from then on.
   */
  lemma RotationKeepsSessionAndRevokes(docs: seq<Account>, signer: Signer, t1: string,
                                       randomSessionId: string, now: int)
    requires ResetTokens(docs, signer, Some(t1), randomSessionId, now).resp.Succeed?
    ensures var o := ResetTokens(docs, signer, Some(t1), randomSessionId, now);
            var claims := signer.verifyRefresh(t1).claims;
            var t2 := o.resp.body.authToken.refreshToken;
            && signer.verifyRefresh(t1).Verified?
            && o.resp.body.authToken.sessionId == claims.sessionId
            && t2 == signer.signRefresh(claims, now)
            && (t1 != t2 ==> GetUserFromRefreshToken(o.docs, signer, Some(t1))
                              == Some(Fail(Failure(TokensNotMatching, Code(UNAUTHORIZED)))))
            && (RefreshRoundTrips(signer) && t2 != "" ==>
                  Accepted(o.docs, signer, t2)
                  && GetUserFromRefreshToken(o.docs, signer, Some(t2)).value.body.usrToken == claims)
  {
    var claims := signer.verifyRefresh(t1).claims;
    var o := ResetTokens(docs, signer, Some(t1), randomSessionId, now);
    var t2 := o.resp.body.authToken.refreshToken;
    var i := FirstMatch(docs, Where(ById(claims.id))).value;
    assert claims.(sessionId := claims.sessionId) == claims;
    FirstMatchAfterWrite(docs, Where(ById(claims.id)), i, docs[i].(hashedRefreshToken := Hash(t2)));
    if t1 != t2 {
      VerifyHashExactlyPreimage(t2, t1);
    }
  }

  /** Rotation changes nothing in the store but the hash bound to the account. */
  lemma RotationRebindsOnlyTheHash(docs: seq<Account>, signer: Signer, t1: string,
                                   randomSessionId: string, now: int)
    requires ResetTokens(docs, signer, Some(t1), randomSessionId, now).resp.Succeed?
    ensures var o := ResetTokens(docs, signer, Some(t1), randomSessionId, now);
            var i := FirstMatch(docs, Where(ById(signer.verifyRefresh(t1).claims.id)));
            && i.Some?
            && o.docs == docs[i.value := docs[i.value].(hashedRefreshToken := Hash(o.resp.body.authToken.refreshToken))]
  {
  }

  /** Rotating an accepted token always goes through (the store's indexes holding). */
  lemma RotationOfLiveSessionSucceeds(docs: seq<Account>, signer: Signer, t1: string,
                                      randomSessionId: string, now: int)
    requires Indexed(docs)
    requires Accepted(docs, signer, t1)
    ensures ResetTokens(docs, signer, Some(t1), randomSessionId, now).resp.Succeed?
  {
    var claims := signer.verifyRefresh(t1).claims;
    var i := FirstMatch(docs, Where(ById(claims.id))).value;
    var t := GenerateAuthToken(signer, claims, true, randomSessionId, now);
    SameKeysAdmitted(docs, i, Apply(docs[i], NoFields.(hashedRefreshToken := Some(Hash(t.refreshToken)))));
  }

  /**
   * After a logout stores "", every refresh token of that account is
   * rejected, however valid its signature.
   */
  lemma LogOutRevokesEveryToken(docs: seq<Account>, signer: Signer, token: string, t: string)
    requires LogOut(docs, signer, Some(token)).resp.Succeed?
    requires t != "" && signer.verifyRefresh(t).Verified?
    requires signer.verifyRefresh(t).claims.id == signer.verifyRefresh(token).claims.id
    ensures GetUserFromRefreshToken(LogOut(docs, signer, Some(token)).docs, signer, Some(t))
            == Some(Fail(Failure(TokensNotMatching, Code(UNAUTHORIZED))))
  {
    var id := signer.verifyRefresh(token).claims.id;
    var i := FirstMatch(docs, Where(ById(id))).value;
    FirstMatchAfterWrite(docs, Where(ById(id)), i, docs[i].(hashedRefreshToken := ""));
    EmptyDigestAcceptsNothing(t);
  }

  /**
   * Logging out never fails once the token is accepted (the store's indexes
   * holding): the 'Could Not Update' branch is unreachable then.
   */
  lemma LogOutOfLiveSessionSucceeds(docs: seq<Account>, signer: Signer, token: string)
    requires Indexed(docs)
    requires Accepted(docs, signer, token)
    ensures LogOut(docs, signer, Some(token)).resp == Succeed(true)
  {
    var id := signer.verifyRefresh(token).claims.id;
    var i := FirstMatch(docs, Where(ById(id))).value;
    SameKeysAdmitted(docs, i, Apply(docs[i], NoFields.(hashedRefreshToken := Some(""))));
  }

  /** Logout changes nothing in the store but the account's refresh hash, which becomes "". */
  lemma LogOutClearsOnlyTheHash(docs: seq<Account>, signer: Signer, token: string)
    requires LogOut(docs, signer, Some(token)).resp.Succeed?
    ensures var i := FirstMatch(docs, Where(ById(signer.verifyRefresh(token).claims.id)));
            && i.Some?
            && LogOut(docs, signer, Some(token)).docs == docs[i.value := docs[i.value].(hashedRefreshToken := "")]
  {
  }

  /** What logout answers when it does not get to the store. */
  lemma LogOutRejections(docs: seq<Account>, signer: Signer)
    ensures LogOut(docs, signer, None) == Outcome(FailWith(TokenIsUndefined), docs, [])
    ensures LogOut(docs, signer, Some("")) == Outcome(FailWith(CaughtTypeError), docs, [])
    ensures ResetTokens(docs, signer, None, "", 0).resp == FailWith(UncaughtTypeError)
  {
  }

  /**
   * Logout only revokes the refresh token: access tokens keep resolving to
   * the same account afterwards.
   */
  lemma LogOutKeepsAccessTokens(docs: seq<Account>, signer: Signer, token: string, accessToken: Option<string>)
    requires LogOut(docs, signer, Some(token)).resp.Succeed?
    ensures GetUserFromToken(LogOut(docs, signer, Some(token)).docs, signer, accessToken)
            == GetUserFromToken(docs, signer, accessToken)
  {
    var o := LogOut(docs, signer, Some(token));
    var id := signer.verifyRefresh(token).claims.id;
    var i := FirstMatch(docs, Where(ById(id))).value;
    var a := docs[i].(hashedRefreshToken := "");
    assert o.docs == docs[i := a];
    if Truthy(accessToken) && signer.verifyAccess(accessToken.value).Some? {
      var decoded := signer.verifyAccess(accessToken.value).value;
      FirstMatchAfterWrite(docs, Where(ById(decoded.id)), i, a);
      var m := FirstMatch(docs, Where(ById(decoded.id)));
      if m.Some? {
        assert Public(o.docs[m.value]) == Public(docs[m.value]);
      }
    }
  }

  // ------------------------------------------------------------ password reset

  /** A reset code is only issued for an active account with that email. */
  lemma SendResetCodeNeedsActiveAccount(docs: seq<Account>, email: string, code: string, now: int)
    ensures var o := SendResetCode(docs, email, code, now);
            && (FindOne(docs, Where(ByActiveEmail(email))).None? <==>
                  o.resp == Fail(Failure(USER_NOT_FOUND, StoreCode(NotFound))))
            && (o.resp.Fail? ==> o.docs == docs && o.sent == [])
  {
  }

  /**
   * A successful reset writes the new password's hash and clears the
   * session on the record of that email; every refresh token of that
   * account is rejected afterwards. A failed code check changes nothing.
   */
  lemma PasswordResetRevokesSessions(docs: seq<Account>, email: string, code: string, newPassword: string,
                                     now: int, signer: Signer, t: string)
    requires Indexed(docs)
    ensures var o := ResetPassword(docs, email, code, newPassword, now);
            VerifyCode(docs, Some(email), code, now).None? ==> o == Outcome(FailWith(CodeWrongOrExpired), docs, [])
    ensures var o := ResetPassword(docs, email, code, newPassword, now);
            var k := FirstMatch(docs, Where(ByEmail(Some(email))));
            o.resp.Succeed? ==>
              && k.Some?
              && o.docs == docs[k.value := docs[k.value].(password := Hash(newPassword), hashedRefreshToken := "")]
              && (t != "" && signer.verifyRefresh(t).Verified? && signer.verifyRefresh(t).claims.id == docs[k.value].id
                  ==> GetUserFromRefreshToken(o.docs, signer, Some(t))
                      == Some(Fail(Failure(TokensNotMatching, Code(UNAUTHORIZED)))))
  {
    var o := ResetPassword(docs, email, code, newPassword, now);
    var k := FirstMatch(docs, Where(ByEmail(Some(email))));
    if o.resp.Succeed? {
      var i := k.value;
      var a := docs[i].(password := Hash(newPassword), hashedRefreshToken := "");
      forall j | 0 <= j < i ensures !Matches(o.docs[j], Where(ById(docs[i].id))) {
        assert Compatible(docs[j], docs[i]);
      }
      FirstMatchAt(o.docs, Where(ById(docs[i].id)), i);
      EmptyDigestAcceptsNothing(t);
    }
  }

  // ------------------------------------------------------------ email change

  /**
   * The checks of an email-change request in order: an active owner of the
   * new address (nothing is sent, nothing stored), an unknown id, the same
   * address again. When it goes through, the record keyed by the CURRENT
   * email gets the pending address and the code, and the code goes to the
   * NEW address.
   */
  lemma RequestEmailChangeOutcomes(docs: seq<Account>, id: Id, newEmail: string, code: string, now: int)
    ensures var o := RequestEmailChange(docs, id, newEmail, code, now);
            var owner := FindOne(docs, Where(ByActiveEmail(newEmail)));
            var usr := FindOne(docs, Where(ById(id)));
            && (owner.Some? ==> o == Outcome(FailWith(USER_EXISTS), docs, []))
            && (owner.None? && usr.None? ==> o == Outcome(FailWith(USER_NOT_FOUND), docs, []))
            && (owner.None? && usr.Some? && usr.value.email == Some(newEmail) ==>
                  o == Outcome(FailWith(INVALID_INPUT), docs, []))
            && (o.resp.Succeed? ==>
                  var k := FirstMatch(o.docs, Where(ByEmail(usr.value.email)));
                  && owner.None? && usr.Some? && usr.value.email != Some(newEmail)
                  && o.sent == [Delivery(Some(newEmail), code)]
                  && k.Some?
                  && o.docs[k.value].newEmail == Some(newEmail)
                  && o.docs[k.value].verificationCodeHash == Hash(code))
  {
    var o := RequestEmailChange(docs, id, newEmail, code, now);
    var usr := FindOne(docs, Where(ById(id)));
    if o.resp.Succeed? {
      IssuanceOverwrites(docs, Some(newEmail),
                         NoFields.(newEmail := Some(newEmail), email := usr.value.email), code, now);
    }
  }

  /**
   * Confirming an email change: a failed code check, then a wrong password
   * (INVALID_CREDENTIALS with FORBIDDEN); on success the pending address
   * becomes the email and the pending field is "".
   */
  lemma VerifyUpdateEmailOutcomes(docs: seq<Account>, id: Id, code: string, password: string, now: int)
    ensures var o := VerifyUpdateEmail(docs, id, code, password, now);
            var user := FindOne(docs, Where(ById(id)));
            && (user.None? ==> o == Outcome(FailWith(USER_NOT_FOUND), docs, []))
            && (user.Some? && VerifyCode(docs, user.value.email, code, now).None? ==>
                  o == Outcome(FailWith(CodeWrongOrExpired), docs, []))
            && (user.Some? && VerifyCode(docs, user.value.email, code, now).Some?
                && !VerifyHash(user.value.password, password) ==>
                  o == Outcome(Fail(Failure(INVALID_CREDENTIALS, Code(FORBIDDEN))), docs, []))
            && (o.resp.Succeed? ==>
                  var k := FirstMatch(docs, Where(ById(id))).value;
                  && user.Some? && VerifyHash(user.value.password, password)
                  && o.docs == docs[k := docs[k].(email := if user.value.newEmail.Some? then user.value.newEmail
                                                          else user.value.email,
                                                  newEmail := Some(""))])
  {
    var user := FindOne(docs, Where(ById(id)));
    if user.Some? {
      var k := FirstMatch(docs, Where(ById(id))).value;
      FirstMatchAt(docs, Where(ById(user.value.id)), k);
    }
  }

  /**
   * The request only rules out an ACTIVE owner of the new address: when an
   * inactive account holds it by confirmation time, the unique index refuses
   * the write and the confirmation fails with INTERNAL_ERROR, changing nothing.
   */
  lemma EmailTakenAtConfirmation(docs: seq<Account>, id: Id, code: string, password: string, now: int, j: nat)
    requires FindOne(docs, Where(ById(id))).Some?
    requires var user := FindOne(docs, Where(ById(id))).value;
             && VerifyCode(docs, user.email, code, now).Some?
             && VerifyHash(user.password, password)
             && user.newEmail.Some?
             && j < |docs| && docs[j].id != user.id && docs[j].email == user.newEmail
    ensures VerifyUpdateEmail(docs, id, code, password, now) == Outcome(FailWith(INTERNAL_ERROR), docs, [])
  {
    var user := FindOne(docs, Where(ById(id))).value;
    var k := FirstMatch(docs, Where(ById(id))).value;
    FirstMatchAt(docs, Where(ById(user.id)), k);
    var a := Apply(docs[k], NoFields.(email := user.newEmail, newEmail := Some("")));
    assert !Compatible(docs[j], a);
  }

  /** An email held by one record and by no phone is looked up to that record. */
  lemma OwnEmailFindsRecord(docs: seq<Account>, k: nat)
    requires Indexed(docs) && k < |docs| && docs[k].email.Some?
    requires forall j :: 0 <= j < |docs| ==> docs[j].phone != docs[k].email
    ensures FirstMatch(docs, AnyIdentifier(docs[k].email)) == Some(k)
  {
    forall j | 0 <= j < k ensures !Matches(docs[j], AnyIdentifier(docs[k].email)) {
      assert Compatible(docs[j], docs[k]);
    }
    FirstMatchAt(docs, AnyIdentifier(docs[k].email), k);
  }

  /** A record may take the email "" when no other record has it. */
  lemma BlankEmailAdmitted(docs: seq<Account>, k: nat, b: Account)
    requires Indexed(docs) && k < |docs|
    requires b.id == docs[k].id && b.phone == docs[k].phone && b.userName == docs[k].userName
    requires b.email == Some("")
    requires forall j :: 0 <= j < |docs| && j != k ==> docs[j].email != Some("")
    ensures Admits(docs, k, b)
  {
    forall j | 0 <= j < |docs| && j != k ensures Compatible(docs[j], b) {
      assert Compatible(docs[j], docs[k]);
    }
  }

  /**
   * A confirmation on a record whose pending address is "" and whose code and
   * password still pass writes "" into its email.
   */
  lemma ConfirmationWithNoPendingAddress(docs: seq<Account>, id: Id, code: string, password: string, now: int,
                                         k: nat)
    requires Indexed(docs) && FirstMatch(docs, Where(ById(id))) == Some(k)
    requires docs[k].email.Some? && docs[k].newEmail == Some("")
    requires VerifyHash(docs[k].verificationCodeHash, code) && !Expired(docs[k].verificationCodeExpires, now)
    requires VerifyHash(docs[k].password, password)
    requires forall j :: 0 <= j < |docs| ==> docs[j].phone != docs[k].email
    requires forall j :: 0 <= j < |docs| && j != k ==> docs[j].email != Some("")
    ensures VerifyUpdateEmail(docs, id, code, password, now)
            == Outcome(Succeed(OPERATION_SUCCESS), docs[k := docs[k].(email := Some(""))], [])
  {
    OwnEmailFindsRecord(docs, k);
    var b := Apply(docs[k], NoFields.(email := Some(""), newEmail := Some("")));
    assert b == docs[k].(email := Some(""));
    BlankEmailAdmitted(docs, k, b);
  }

  /** A successful confirmation checked the code on the record it then wrote. */
  lemma ConfirmationReadsOwnRecord(docs: seq<Account>, id: Id, code: string, password: string, now: int)
    requires Indexed(docs)
    requires VerifyUpdateEmail(docs, id, code, password, now).resp.Succeed?
    requires var u := FindOne(docs, Where(ById(id))).value;
             u.email.Some? && u.newEmail.Some? && forall j :: 0 <= j < |docs| ==> docs[j].phone != u.email
    ensures var u := FindOne(docs, Where(ById(id))).value;
            var k := FirstMatch(docs, Where(ById(id))).value;
            && VerifyUpdateEmail(docs, id, code, password, now).docs
               == docs[k := u.(email := u.newEmail, newEmail := Some(""))]
            && VerifyHash(u.verificationCodeHash, code) && !Expired(u.verificationCodeExpires, now)
            && VerifyHash(u.password, password)
  {
    var k := FirstMatch(docs, Where(ById(id))).value;
    VerifyUpdateEmailOutcomes(docs, id, code, password, now);
    OwnEmailFindsRecord(docs, k);
  }

  /**
   * The code survives a confirmation, so the same confirmation can be replayed:
   * the second run finds the record under its new email, passes the same code
   * and password, and copies the now-empty pending address into `email`.
   */
  lemma ReplayedConfirmationBlanksEmail(docs: seq<Account>, id: Id, code: string, password: string, now: int)
    requires Indexed(docs)
    requires VerifyUpdateEmail(docs, id, code, password, now).resp.Succeed?
    requires var u := FindOne(docs, Where(ById(id))).value;
             && u.email.Some? && u.newEmail.Some?
             && forall j :: 0 <= j < |docs| ==>
                  docs[j].phone != u.email && docs[j].phone != u.newEmail && docs[j].email != Some("")
    ensures var o1 := VerifyUpdateEmail(docs, id, code, password, now);
            var o2 := VerifyUpdateEmail(o1.docs, id, code, password, now);
            var k := FirstMatch(docs, Where(ById(id))).value;
            && o1.docs[k].email == FindOne(docs, Where(ById(id))).value.newEmail
            && o2 == Outcome(Succeed(OPERATION_SUCCESS), o1.docs[k := o1.docs[k].(email := Some(""))], [])
  {
    var u := FindOne(docs, Where(ById(id))).value;
    var k := FirstMatch(docs, Where(ById(id))).value;
    var d1 := VerifyUpdateEmail(docs, id, code, password, now).docs;
    var a := u.(email := u.newEmail, newEmail := Some(""));
    ConfirmationReadsOwnRecord(docs, id, code, password, now);
    assert d1 == docs[k := a];
    FirstMatchAfterWrite(docs, Where(ById(id)), k, a);
    assert Indexed(d1);
    forall j | 0 <= j < |d1| ensures d1[j].phone != a.email && (j != k ==> d1[j].email != Some("")) {
      assert d1[j].phone == docs[j].phone;
    }
    ConfirmationWithNoPendingAddress(d1, id, code, password, now, k);
  }

  // ------------------------------------------------------------ a whole session

  /** The signer never issues an empty refresh token. */
  ghost predicate NonEmptyRefresh(signer: Signer) {
    forall c, t :: signer.signRefresh(c, t) != ""
  }

  /** The refresh token a token response carries ("" for a failure). */
  function RefreshOf(r: Resp<AuthTokenResponse>): string {
    if r.Succeed? then r.body.authToken.refreshToken else ""
  }

  /** Tokens signed at different instants differ, whatever the claims. */
  ghost predicate FreshAcrossTimes(signer: Signer) {
    forall c, t, t' :: t != t' ==> signer.signRefresh(c, t) != signer.signRefresh(c, t')
  }

  /**
   * Register, activate with a wrong code and then the right one, log in,
   * rotate later, present the pre-rotation token again, log out, and rotate
   * the logged-out token: every step gets the answer stated below, and the
   * session id drawn at login survives the rotation.
   */
  lemma {:induction false} SessionScenario(docs: seq<Account>, signer: Signer, email: string, password: string,
                                           code: string, wrong: string, sessionId: string, otherSessionId: string,
                                           now: int, later: int)
    requires Indexed(docs)
    requires forall j :: 0 <= j < |docs| ==> docs[j].email != Some(email) && docs[j].phone != Some(email)
    requires wrong != code && now != later
    requires RefreshRoundTrips(signer) && NonEmptyRefresh(signer) && FreshAcrossTimes(signer)
    ensures var o1 := RegisterWithEmailCode(docs, RegisterUserInput(email, password, None, None), code, now);
            && o1.resp == Succeed(VERIFICATION_SENT)
            && |o1.docs| == |docs| + 1 && !o1.docs[|docs|].active
            && ActivateAccountByCode(o1.docs, email, wrong, now).resp == FailWith(INVALID_CODE)
    ensures var o1 := RegisterWithEmailCode(docs, RegisterUserInput(email, password, None, None), code, now);
            var o3 := ActivateAccountByCode(o1.docs, email, code, now);
            var o4 := Login(o3.docs, signer, email, password, sessionId, now);
            var o5 := ResetTokens(o4.docs, signer, Some(RefreshOf(o4.resp)), otherSessionId, later);
            var stale := ResetTokens(o5.docs, signer, Some(RefreshOf(o4.resp)), otherSessionId, later);
            var o6 := LogOut(o5.docs, signer, Some(RefreshOf(o5.resp)));
            var o7 := ResetTokens(o6.docs, signer, Some(RefreshOf(o5.resp)), otherSessionId, later);
            && o3.resp.Succeed? && |o3.docs| == |docs| + 1 && o3.docs[|docs|].active
            && o4.resp.Succeed? && o4.resp.body.authToken.sessionId == sessionId
            && o5.resp.Succeed? && o5.resp.body.authToken.sessionId == sessionId
            && RefreshOf(o5.resp) != RefreshOf(o4.resp)
            && stale.resp == Fail(Failure(TokensNotMatching, Code(UNAUTHORIZED)))
            && o6.resp == Succeed(true)
            && o7.resp == Fail(Failure(TokensNotMatching, Code(UNAUTHORIZED)))
  {
    var input := RegisterUserInput(email, password, None, None);
    RegisterNewAddress(docs, input, code, now);
    var o1 := RegisterWithEmailCode(docs, input, code, now);
    var n := |docs|;
    FirstMatchAt(o1.docs, AnyIdentifier(Some(email)), n);
    FirstMatchAt(o1.docs, Where(ByEmail(Some(email))), n);
    VerifyHashExactlyPreimage(code, wrong);
    var p := NoFields.(active := Some(true), accountStatus := Some(UN_APPROVED));
    SameKeysAdmitted(o1.docs, n, Apply(o1.docs[n], p));

    var o3 := ActivateAccountByCode(o1.docs, email, code, now);
    FirstMatchAt(o3.docs, ActiveIdentifier(email), n);
    LoginSucceedsAfterChecks(o3.docs, signer, email, password, sessionId, now);
    var o4 := Login(o3.docs, signer, email, password, sessionId, now);
    LoginBindsRefreshToken(o3.docs, signer, email, password, sessionId, now);

    var r1 := RefreshOf(o4.resp);
    RotationOfLiveSessionSucceeds(o4.docs, signer, r1, otherSessionId, later);
    RotationKeepsSessionAndRevokes(o4.docs, signer, r1, otherSessionId, later);
    var o5 := ResetTokens(o4.docs, signer, Some(r1), otherSessionId, later);
    var claims := signer.verifyRefresh(r1).claims;
    assert r1 == signer.signRefresh(claims, now);
    assert RefreshOf(o5.resp) == signer.signRefresh(claims, later);

    var r2 := RefreshOf(o5.resp);
    LogOutOfLiveSessionSucceeds(o5.docs, signer, r2);
    LogOutRevokesEveryToken(o5.docs, signer, r2, r2);
  }
}
