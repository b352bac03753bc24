# Authentication state machine — a Dafny model

This project models the account-authentication core of a NestJS/Mongoose
back end. It covers `AuthService` in `src/app/account/auth/auth.service.ts`
and the `User` record it works on, declared in
`src/app/account/users/entities/user.entity.ts`.

`AuthService` takes accounts through their life cycle:

- registration with an emailed verification code;
- code check and activation;
- login, which issues an access/refresh token pair for a new session;
- refresh-token rotation within the session, and logout;
- password reset by code;
- a two-step email change;
- the lookup behind access tokens.

Every routine reads and writes a few fields of one account record, in a fixed
order, and each check fails with its own error.

## Layout

| file | module | what it holds |
|---|---|---|
| `wrappers.dfy` | `Wrappers` | `Option`, JavaScript's `undefined` as `None` |
| `crypto.dfy` | `Crypto` | `Hash`/`VerifyHash`, standing in for `CryptoService` |
| `user_entity.dfy` | `UserEntity` | the account record, its defaults, the public projection, `toJSON`, the `setDefaultFullName` hook (class `UserDocument`) |
| `jwt.dfy` | `Jwt` | token claims and the signer as an oracle |
| `account_store.dfy` | `AccountStore` | the accounts collection with MongoDB semantics (first match, upsert, unique sparse indexes) and class `UserService` |
| `auth_spec.dfy` | `AuthSpec` | one function per routine: the answer, the collection afterwards, the codes sent |
| `auth_service.dfy` | `Auth` | classes `AuthService` and `VerificationService`: the routines as methods, step by step, each proved equal to its `AuthSpec` function |
| `auth_properties.dfy` | `AuthProperties` | the guarantees, as lemmas over `AuthSpec` |

### How the model works

**The store.** The collection is a sequence of records in natural order.
Every lookup and update acts on the first record that matches. This matters
because `anyUserExists` matches email *or* phone, while the updates match by
email. `_id` is unique, and `email`, `phone` and `userName` are unique when
present (`Indexed`). A write that would break an index fails and changes
nothing. Every routine keeps `Indexed`.

**`upsertOne`.**
- It updates the first match. When nothing matches, it inserts a record
  holding the filter's equalities: on the filter's `_id`, or on a fresh id
  when the filter has none.
- The schema has `timestamps: true`, so every admitted update also stamps
  `updatedAt`. An admitted update therefore always counts as modified, and an
  insert counts as upserted.

**`undefined`.** A key holding `undefined` drops out of a filter (it matches
everything) and out of an update (the field is left as it is). The model
writes both as `None`.

**Hashing and signing.**
- Hashing is an injective function whose digests are never empty
  (`"$" + s`). The proofs use no other fact about it.
- The signer is a value made of five functions: sign access, sign refresh,
  expiry of, verify refresh, verify access. That the refresh side accepts
  what it signs (`RefreshRoundTrips`) is a premise of the lemmas that need it.

**Parameters.** The clock (`now`), the random session id and the issued code
are parameters.

### Behaviour of the code worth knowing

- **Codes are not single-use.** Only the returned copy of the record has its
  code hash and password blanked. The stored code stays valid until it expires
  (`ActivationKeepsCodeRedeemable`).
- **Activation always updates by `email`.** An account verified through its
  phone number is not activated. The caller gets the store's not-found error
  (`ActivationByPhoneIsNotApplied`).
- **An empty refresh token gives `null`, not a failure.**
  - `SERV_logOut` reads `.ok` of that `null` inside its `try`. The resulting
    TypeError becomes a failure (`CaughtTypeError`).
  - `SERV_resetTokens` has no `try`, so the same TypeError escapes
    (`UncaughtTypeError`).
- **Code storage and delivery use different addresses.** The code's hash is
  stored on the record keyed by `input.email`. The code itself goes to
  `addressedEmail`. An email change therefore stamps the current record and
  mails the new address.
- **The email-change request only rules out an ACTIVE owner of the new
  address.** If an inactive account holds that address at confirmation time,
  the unique index refuses the write, and the confirmation answers
  INTERNAL_ERROR (`EmailTakenAtConfirmation`).
- **An email-change confirmation can be replayed.** It leaves the code in
  place and sets `newEmail` to `''`. The same code and password therefore pass
  a second time, now under the new email, and the second run writes `''` into
  `email` (`ReplayedConfirmationBlanksEmail`).
- **A lookup by email or phone finds the first record whose email or phone
  equals the identifier.** "Latest code wins" for an address therefore holds
  when no account uses that string as its phone number
  (`LatestCodeWins`'s premise).

## Model

| member | source | states |
|---|---|---|
| `Crypto.Hash` | src/app/account/auth/auth.service.ts:69 | a stored hash is never empty |
| `Crypto.HashInjective` | src/app/account/auth/auth.service.ts:300-305 | equal hashes mean equal inputs, so only the hashed value passes a comparison |
| `Crypto.VerifyHashExactlyPreimage` | src/app/account/auth/auth.service.ts:145-150 | a stored hash of `s` accepts a presented value exactly when it is `s` |
| `Crypto.EmptyDigestAcceptsNothing` | src/app/account/auth/auth.service.ts:248-251 | a cleared hash (`''`) accepts no value at all |
| `UserEntity.NewAccount` | src/app/account/users/entities/user.entity.ts:77-82 | a new document has role USER and no other field set (in particular not active) |
| `UserEntity.Public` | src/app/account/users/entities/user.entity.ts:92-102 | a default read carries every field except password, hashedRefreshToken, verificationCodeHash and verificationCodeExpires |
| `UserEntity.PublicIgnoresSecrets` | src/app/account/auth/auth.service.ts:172-177 | changing the four secret fields never changes what is returned as user data |
| `UserEntity.PublicKeepsEverythingElse` | src/app/account/auth/auth.service.ts:293-298 | the projection loses nothing but the four secrets: equal projections mean records equal up to secrets |
| `UserEntity.ToJson` | src/app/account/users/entities/user.entity.ts:16-19 | the JSON form mirrors `_id` into `id` and keeps every public field |
| `UserEntity.WithDefaultFullName` | src/app/account/users/entities/user.entity.ts:169-173 | only `fullName` can change; it becomes `firstName + ' ' + lastName` exactly when firstName is non-empty and fullName is unset, and otherwise the record is left as it is |
| `UserEntity.DefaultFullNameIdempotent` | src/app/account/users/entities/user.entity.ts:171-173 | running the hook again changes nothing, because an existing fullName is never overwritten |
| `UserEntity.UserDocument.SetDefaultFullName` | src/app/account/users/entities/user.entity.ts:159-178 | the pre-save hook updates the document in place to `WithDefaultFullName` of its old value |
| `UserEntity.UserDocument.Json` | src/app/account/users/entities/user.entity.ts:161-163 | the document's JSON has `id` equal to its `_id`, with its public fields |
| `AccountStore.FirstMatch` | src/app/account/auth/auth.service.ts:45-48 | a lookup hits the first record that matches, with no match before it, and finds nothing only when no record matches |
| `AccountStore.SameKeysAdmitted` | src/app/account/users/entities/user.entity.ts:36-46 | a write that keeps `_id`, email, phone and userName never breaks the unique sparse indexes |
| `AccountStore.Apply` | src/app/account/auth/auth.service.ts:88-95 | `$set` semantics: each field the patch gives takes the given value, every other field keeps its value; `_id`, phone, userName, fullName and role are never written |
| `AccountStore.UpsertOne` | src/app/account/auth/auth.service.ts:88-97 | updates the first match or inserts a seeded record; a refused write changes nothing; modified and upserted counts as MongoDB reports them under timestamps; unique indexes kept |
| `AccountStore.FindOneAndUpdate` | src/app/account/auth/auth.service.ts:123-130 | updates the first match and returns it as updated and read by default; no match gives not-found; an index conflict is reported and changes nothing |
| `AccountStore.FindOne` | src/app/account/auth/auth.service.ts:139-140 | the record returned is the first match, found exactly when some record matches |
| `AccountStore.UserService.Upsert` | src/app/account/auth/auth.service.ts:231-236 | the collection becomes what `UpsertOne` gives and the answer is its counts |
| `AccountStore.UserService.FindAndUpdate` | src/app/account/auth/auth.service.ts:335-341 | the collection becomes what `FindOneAndUpdate` gives and the answer is its result |
| `AccountStore.UserService.Find` | src/app/account/auth/auth.service.ts:163-165 | the answer matches, with no match before it, and is absent only when nothing matches |
| `AuthSpec.SendCodeAndUpdateHash` | src/app/account/auth/auth.service.ts:79-106 | a failure is COULD_NOT_CREATE_USER with nothing stored and nothing sent; a success sends exactly this code to `addressedEmail`; unique indexes kept |
| `AuthSpec.RegisterWithEmailCode` | src/app/account/auth/auth.service.ts:44-73 | registration keeps the unique indexes |
| `AuthSpec.VerifyCode` | src/app/account/auth/auth.service.ts:138-157 | a passed check returns the record the identifier finds, with password and code hash blanked, whose code hash accepts the code and whose expiry is not past |
| `AuthSpec.ActivateAccountByCode` | src/app/account/auth/auth.service.ts:114-133 | activation sends nothing and keeps the unique indexes |
| `AuthSpec.GenerateAuthToken` | src/app/account/auth/auth.service.ts:196-222 | the session id is the fresh one on login and the payload's on rotation; both tokens are signed over the payload's `_id`, role and accountStatus with that session id |
| `AuthSpec.UpdateHashedToken` | src/app/account/auth/auth.service.ts:228-239 | true only when a record has that `_id`, and then exactly that record's hashedRefreshToken has become the token's hash |
| `AuthSpec.Login` | src/app/account/auth/auth.service.ts:162-191 | login sends nothing and keeps the unique indexes |
| `AuthSpec.GetUserFromRefreshToken` | src/app/account/auth/auth.service.ts:283-307 | `null` exactly for an empty token; on success the signer verified the token to the returned claims, the account with that `_id` exists and is returned read by default, and its stored hash is the token's |
| `AuthSpec.LogOut` | src/app/account/auth/auth.service.ts:242-256 | a failure changes nothing and carries no status code; nothing is sent; unique indexes kept |
| `AuthSpec.ResetTokens` | src/app/account/auth/auth.service.ts:261-279 | rotation sends nothing and keeps the unique indexes |
| `AuthSpec.SendResetCode` | src/app/account/auth/auth.service.ts:312-325 | a reset-code request keeps the unique indexes |
| `AuthSpec.ResetPassword` | src/app/account/auth/auth.service.ts:328-346 | a reset sends nothing and keeps the unique indexes |
| `AuthSpec.RequestEmailChange` | src/app/account/auth/auth.service.ts:351-370 | an email-change request keeps the unique indexes |
| `AuthSpec.VerifyUpdateEmail` | src/app/account/auth/auth.service.ts:373-392 | a confirmation sends nothing and keeps the unique indexes |
| `AuthSpec.GetUserFromToken` | src/app/account/auth/auth.service.ts:396-405 | an answer comes exactly when a non-empty access token verifies to claims whose `_id` is non-empty and names an existing account, and it is that account read by default |
| `AuthProperties.IssuanceOverwrites` | src/app/account/auth/auth.service.ts:88-95 | after an issuance the record selected by `input.email` holds every field given, the hash of this code and an expiry 30 minutes on; no other record changes |
| `AuthProperties.IssuanceKeepsPhones` | src/app/account/auth/auth.service.ts:88-95 | issuing a code never changes a phone number; an inserted record has none |
| `AuthProperties.IssuanceFailsOnlyOnConflict` | src/app/account/auth/auth.service.ts:97-106 | COULD_NOT_CREATE_USER exactly when the store refuses the write; what delivery answers does not matter |
| `AuthProperties.LatestCodeWins` | src/app/account/auth/auth.service.ts:138-157 | after an issuance every other code fails, and this one holds exactly up to and including its expiry instant |
| `AuthProperties.RegisterRefusesOnlyActiveDuplicates` | src/app/account/auth/auth.service.ts:46-56 | USER_EXISTS exactly when the first account with that email is active, so an inactive duplicate is re-issued a code |
| `AuthProperties.RegisterIssuesCode` | src/app/account/auth/auth.service.ts:69-70 | after registration the record of that email has `Hash(password)`, the names given, this code and its expiry, and the code went to that email |
| `AuthProperties.RegisterNewAddress` | src/app/account/auth/auth.service.ts:44-73 | an unused address gets one appended inactive account with role USER, the hashed password and this code |
| `AuthProperties.VerifyCodeExactly` | src/app/account/auth/auth.service.ts:140-152 | the code check fails exactly for an unknown identifier, a hash mismatch or an expiry strictly before now; a code is good at its expiry instant |
| `AuthProperties.ActivationKeepsCodeRedeemable` | src/app/account/auth/auth.service.ts:154-156 | after activation the same code still passes the check |
| `AuthProperties.ActivationOutcomes` | src/app/account/auth/auth.service.ts:114-133 | INVALID_CODE exactly when the check fails; USER_EXISTS exactly when it passes on an active account; on success the only change is active and UN_APPROVED on the record with that email, and that record is returned |
| `AuthProperties.ActivationByPhoneIsNotApplied` | src/app/account/auth/auth.service.ts:122-130 | a phone-verified account that no record has as email is not activated, the store's not-found error comes back, and nothing changes |
| `AuthProperties.LoginPrecedence` | src/app/account/auth/auth.service.ts:162-170 | no active account, then a wrong password give INVALID_CREDENTIALS, and only then BLOCKED gives AccountBlocked, none touching the store; success implies all three checks passed |
| `AuthProperties.LoginSucceedsAfterChecks` | src/app/account/auth/auth.service.ts:179-190 | once the three checks pass, login succeeds: the token write is always admitted and counted |
| `AuthProperties.LoginBindsRefreshToken` | src/app/account/auth/auth.service.ts:172-190 | a login returns the account's public fields and the drawn session id, stores the hash of the returned refresh token, and that token then validates to the issued claims |
| `AuthProperties.LoginRebindsOnlyTheHash` | src/app/account/auth/auth.service.ts:186-188 | a successful login changes nothing in the store but the hashedRefreshToken of the account it found, which becomes the returned refresh token's hash |
| `AuthProperties.RefreshValidationOutcomes` | src/app/account/auth/auth.service.ts:283-305 | an empty token gives `null`; a signer error is passed on with its code; an unknown account gives USER_NOT_FOUND; a token that is not the stored one gives Tokens Not Matching / UNAUTHORIZED |
| `AuthProperties.SingleSession` | src/app/account/auth/auth.service.ts:300-305 | two refresh tokens that both validate for the same account are the same token |
| `AuthProperties.RotationKeepsSessionAndRevokes` | src/app/account/auth/auth.service.ts:261-279 | rotation keeps the presented token's session id, signs the new token over the same claims, rejects the old token if it differs, and accepts the new one |
| `AuthProperties.RotationRebindsOnlyTheHash` | src/app/account/auth/auth.service.ts:273-277 | a successful rotation changes nothing in the store but the hashedRefreshToken of the token's account, which becomes the new refresh token's hash |
| `AuthProperties.RotationOfLiveSessionSucceeds` | src/app/account/auth/auth.service.ts:266-278 | rotating an accepted token always succeeds |
| `AuthProperties.LogOutRevokesEveryToken` | src/app/account/auth/auth.service.ts:247-251 | after logout every refresh token naming that account fails UNAUTHORIZED, however valid its signature |
| `AuthProperties.LogOutOfLiveSessionSucceeds` | src/app/account/auth/auth.service.ts:245-252 | logging out an accepted token always succeeds; 'Could Not Update' is unreachable then |
| `AuthProperties.LogOutClearsOnlyTheHash` | src/app/account/auth/auth.service.ts:247-252 | a successful logout changes nothing in the store but the hashedRefreshToken of the token's account, which becomes `''` |
| `AuthProperties.LogOutRejections` | src/app/account/auth/auth.service.ts:243-246 | an undefined token gives 'token is undefined'; an empty token gives the caught TypeError; rotation on an undefined token gives the uncaught TypeError |
| `AuthProperties.LogOutKeepsAccessTokens` | src/app/account/auth/auth.service.ts:396-404 | after logout every access token still resolves to the same account as before |
| `AuthProperties.SendResetCodeNeedsActiveAccount` | src/app/account/auth/auth.service.ts:312-321 | USER_NOT_FOUND exactly when no active account has that email; a failure stores and sends nothing |
| `AuthProperties.PasswordResetRevokesSessions` | src/app/account/auth/auth.service.ts:328-342 | a failed code check changes nothing; a reset writes `Hash(newPassword)` and `''` on exactly the record of that email, after which every refresh token of that account fails |
| `AuthProperties.RequestEmailChangeOutcomes` | src/app/account/auth/auth.service.ts:351-370 | the checks run in order (active owner of the new address, unknown id, same address), none sending a code; on success the code goes to the new address, and the record of the current email holds the pending address and the code |
| `AuthProperties.VerifyUpdateEmailOutcomes` | src/app/account/auth/auth.service.ts:373-392 | the checks run in order (unknown id, code against the current email, password giving INVALID_CREDENTIALS / FORBIDDEN); on success only email becomes the pending address and newEmail becomes '' |
| `AuthProperties.EmailTakenAtConfirmation` | src/app/account/auth/auth.service.ts:385-390 | when another account holds the pending address, confirmation fails with INTERNAL_ERROR and changes nothing |
| `AuthProperties.ConfirmationWithNoPendingAddress` | src/app/account/auth/auth.service.ts:379-388 | a confirmation whose code and password pass on a record with pending address `''` succeeds and writes `''` into that record's email, changing nothing else |
| `AuthProperties.ReplayedConfirmationBlanksEmail` | src/app/account/auth/auth.service.ts:373-392 | the first confirmation moves the pending address into `email`; replaying it with the same code and password then succeeds too and sets `email` to `''` |
| `AuthProperties.SessionScenario` | src/app/account/auth/auth.service.ts:44-279 | register, wrong code, right code, login, rotate at a later instant, present the pre-rotation token, logout, rotate again: each step gets the answer stated, the login session id survives rotation, and both the pre-rotation token and the logged-out token fail UNAUTHORIZED |
| `Auth.VerificationService.SendVerificationCode` | src/app/account/auth/auth.service.ts:104 | a delivery is appended to what was sent, in order |
| `Auth.AuthService.Lookup` | src/app/account/auth/auth.service.ts:45-48 | a users-service lookup answers the store's first match |
| `Auth.AuthService.SendCodeAndUpdateHash` | src/app/account/auth/auth.service.ts:79-106 | the collection, answer and deliveries become what `AuthSpec.SendCodeAndUpdateHash` says, and the unique indexes still hold |
| `Auth.AuthService.RegisterWithEmailCode` | src/app/account/auth/auth.service.ts:44-73 | as `AuthSpec.RegisterWithEmailCode`, including the code sent |
| `Auth.AuthService.VerifyCode` | src/app/account/auth/auth.service.ts:138-157 | answers `AuthSpec.VerifyCode` of the current collection and changes nothing |
| `Auth.AuthService.ActivateAccountByCode` | src/app/account/auth/auth.service.ts:114-133 | as `AuthSpec.ActivateAccountByCode` |
| `Auth.AuthService.UpdateHashedToken` | src/app/account/auth/auth.service.ts:228-239 | as `AuthSpec.UpdateHashedToken` |
| `Auth.AuthService.Login` | src/app/account/auth/auth.service.ts:162-191 | as `AuthSpec.Login` |
| `Auth.AuthService.GetUserFromRefreshToken` | src/app/account/auth/auth.service.ts:283-307 | answers `AuthSpec.GetUserFromRefreshToken` of the current collection and changes nothing |
| `Auth.AuthService.LogOut` | src/app/account/auth/auth.service.ts:242-256 | as `AuthSpec.LogOut` |
| `Auth.AuthService.ResetTokens` | src/app/account/auth/auth.service.ts:261-279 | as `AuthSpec.ResetTokens` |
| `Auth.AuthService.SendResetCode` | src/app/account/auth/auth.service.ts:312-325 | as `AuthSpec.SendResetCode`, including the code sent |
| `Auth.AuthService.ResetPassword` | src/app/account/auth/auth.service.ts:328-346 | as `AuthSpec.ResetPassword` |
| `Auth.AuthService.RequestEmailChange` | src/app/account/auth/auth.service.ts:351-370 | as `AuthSpec.RequestEmailChange`, including the code sent |
| `Auth.AuthService.VerifyUpdateEmail` | src/app/account/auth/auth.service.ts:373-392 | as `AuthSpec.VerifyUpdateEmail` |
| `Auth.AuthService.GetUserFromToken` | src/app/account/auth/auth.service.ts:396-405 | answers `AuthSpec.GetUserFromToken` of the current collection and changes nothing |

## Left out

- Framework plumbing is not modelled: NestJS injection, the Mongoose, Swagger and class-transformer decorators, and class-validator annotations. Only their effect on the data is: the role default, the `select: false` secrets, the unique sparse indexes and the `toJSON` id mirror.
- `newEmail`'s class-transformer `@Exclude()` is not modelled, because it acts only when class-transformer serialises the object. A default store read still returns the field.
- `CryptoService` is not part of this model. `createHash` and `verifyHash` become an injective `Hash`, and `randomCode` becomes the `randomSessionId` parameter. No real hashing is modelled.
- It is assumed that `verifyHash` rejects any value against an empty stored hash. A missing secret is read as `''`.
- `CustomJwtService` and `getExpiryDate` are not part of this model. The signer's five functions are parameters, and signatures and expiry decoding are not modelled.
- `VerificationService.sendVerificationCode` is I/O. It is modelled as an append to `VerificationService.sent`, and its answer is ignored, as the source ignores it.
- The hard-coded code `'0000'` at auth.service.ts:81 is not baked in: the code is a parameter of every routine that issues one.
- `Date.now()` becomes the `now` parameter.
- `logTrace` is not modelled.
- The `catch` blocks are not modelled, because no modelled step throws except the `null` case of an empty refresh token. That case is modelled as `CaughtTypeError` / `UncaughtTypeError`.
- `if (!loginAuthToken)` is not modelled: token generation always yields a pair here.
- `UserService` is not part of this model. Its calls are assumed to have MongoDB semantics:
  - `findOneWithPwd`, `findOne` and `findById` return the first match;
  - `anyUserExists` matches email or phone;
  - `activeUserExists` matches an active record by email or phone;
  - `findOneAndUpdate` and `updateById` return the updated record read by default;
  - an unknown id reads as "not found".
- The values of `createdAt` and `updatedAt` are not stored. Only their effect is modelled: every admitted update counts as modified.
- `emailRegex`, the text index, and the profile fields unrelated to authentication (`likedBooks` … `donatedCount`, `avatar`, `gender`, `idImage`, `team`, `department`, `bio`, `phoneInfo`) are not modelled.
- `RoleType` values other than USER are collapsed into ADMIN, because only the default matters here.
- `RegisterUserInput` is modelled with four fields only: email, password, firstName and lastName. The spread `{...input}` in `UTIL_sendCodeAndUpdateHash` writes every field the DTO carries, so any further field is not written by the model. That includes a `phone` or `userName` the DTO might carry, so a unique-index conflict on those keys at registration is not modelled.
- The other DTOs are modelled only through the fields this core reads.
- A JavaScript `null` token is not distinguished from `''`: both are falsy, and the model has `None` (undefined) and `""`.
- Concurrency is not modelled: each routine runs atomically against the collection, so races between concurrent upserts are out of scope.
- The collection is a sequence in natural order rather than a map keyed by id, because which record a lookup finds depends on that order.
- LatestCodeWins: assumes that no account has the address as its phone number. Such an account could be found first by the email-or-phone lookup, and then "latest code wins" fails for that identifier.
- LogOutRevokesEveryToken: speaks of non-empty tokens only, because an empty token never reaches the hash comparison: it gives `null`.
- PasswordResetRevokesSessions: speaks of non-empty tokens only, for the same reason.
