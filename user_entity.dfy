/**
 * The account record (`User` in src/app/account/users/entities/user.entity.ts):
 * the fields the authentication core reads and writes, their schema defaults,
 * which of them are secret (`select: false`), the `toJSON` id mirror and the
 * `setDefaultFullName` pre-save hook.
 */
module UserEntity {
  import opened Wrappers

  /** A record's `_id` (an ObjectId, written out as a string). */
  type Id = string

  /** `RoleType`; only its default, USER, matters to this core. */
  datatype Role = USER | ADMIN

  /** `ACCOUNT_STATUS`. */
  datatype AccountStatus = UN_APPROVED | APPROVED | BLOCKED

  /**
   * A stored account. `None` is a field the document does not have
   * (`undefined`); a missing `active` reads as false. The four secret fields
   * hold "" when the document has no value for them.
   */
  datatype Account = Account(
    id: Id,
    email: Option<string>,
    phone: Option<string>,
    userName: Option<string>,
    firstName: Option<string>,
    lastName: Option<string>,
    fullName: Option<string>,
    role: Role,
    accountStatus: Option<AccountStatus>,
    active: bool,
    password: string,
    hashedRefreshToken: string,
    verificationCodeHash: string,
    verificationCodeExpires: Option<int>,
    newEmail: Option<string>)

  /** A fresh document with the schema's defaults: only `role` has one (USER). */
  function NewAccount(id: Id): (a: Account)
    ensures a.id == id && a.role == USER && !a.active
    ensures a.email.None? && a.phone.None? && a.userName.None? && a.accountStatus.None?
    ensures a.firstName.None? && a.lastName.None? && a.fullName.None?
    ensures a.password == "" && a.hashedRefreshToken == "" && a.verificationCodeHash == ""
    ensures a.verificationCodeExpires.None? && a.newEmail.None?
  {
    Account(id, None, None, None, None, None, None, USER, None, false, "", "", "", None, None)
  }

  /**
   * An account as the outside sees it: what a default read returns (the four
   * `select: false` fields are not selected) and what `removeKeys` leaves of a
   * full record (it drops the same four keys).
   */
  datatype PublicUser = PublicUser(
    id: Id,
    email: Option<string>,
    phone: Option<string>,
    userName: Option<string>,
    firstName: Option<string>,
    lastName: Option<string>,
    fullName: Option<string>,
    role: Role,
    accountStatus: Option<AccountStatus>,
    active: bool,
    newEmail: Option<string>)

  function Public(a: Account): (p: PublicUser)
    ensures p.id == a.id && p.email == a.email && p.phone == a.phone && p.userName == a.userName
    ensures p.firstName == a.firstName && p.lastName == a.lastName && p.fullName == a.fullName
    ensures p.role == a.role && p.accountStatus == a.accountStatus && p.active == a.active
    ensures p.newEmail == a.newEmail
  {
    PublicUser(a.id, a.email, a.phone, a.userName, a.firstName, a.lastName, a.fullName,
               a.role, a.accountStatus, a.active, a.newEmail)
  }

  /** The secrets never reach the projection: changing them changes nothing outside. */
  lemma PublicIgnoresSecrets(a: Account, password: string, hashedRefreshToken: string,
                             verificationCodeHash: string, verificationCodeExpires: Option<int>)
    ensures Public(a.(password := password, hashedRefreshToken := hashedRefreshToken,
                      verificationCodeHash := verificationCodeHash,
                      verificationCodeExpires := verificationCodeExpires)) == Public(a)
  {
  }

  /** Everything but the secrets is visible: equal projections mean equal records up to secrets. */
  lemma PublicKeepsEverythingElse(a: Account, b: Account)
    requires Public(a) == Public(b)
    ensures b == a.(password := b.password, hashedRefreshToken := b.hashedRefreshToken,
                    verificationCodeHash := b.verificationCodeHash,
                    verificationCodeExpires := b.verificationCodeExpires)
  {
    assert Public(a).id == a.id && Public(b).id == b.id;
  }

  /** The JSON form of a document: the schema's `toJSON` transform adds `id`, a copy of `_id`. */
  datatype UserJson = UserJson(fields: PublicUser, id: Id)

  function ToJson(p: PublicUser): (j: UserJson)
    ensures j.id == j.fields.id && j.fields == p
  {
    UserJson(p, p.id)
  }

  /** JavaScript truthiness of an optional string: present and not "". */
  predicate Truthy(s: Option<string>) {
    s.Some? && s.value != ""
  }

  /** `'' + x` for an optional string: an absent value prints as "undefined". */
  function JsString(s: Option<string>): string {
    match s
    case Some(v) => v
    case None => "undefined"
  }

  /** The pre-save hook's effect on a record. */
  function WithDefaultFullName(a: Account): (r: Account)
    ensures r == a.(fullName := r.fullName)
    ensures Truthy(a.firstName) && !Truthy(a.fullName) ==>
              r.fullName == Some(a.firstName.value + " " + JsString(a.lastName))
    ensures !Truthy(a.firstName) || Truthy(a.fullName) ==> r == a
  {
    if Truthy(a.firstName) && !Truthy(a.fullName) then
      a.(fullName := Some(a.firstName.value + " " + JsString(a.lastName)))
    else
      a
  }

  /** Running the hook twice is running it once: a defaulted fullName is truthy. */
  lemma DefaultFullNameIdempotent(a: Account)
    ensures WithDefaultFullName(WithDefaultFullName(a)) == WithDefaultFullName(a)
  {
  }

  /** A document being saved (`UserDocument`): the hook updates it in place. */
  class UserDocument {
    var user: Account

    constructor (user: Account)
      ensures this.user == user
    {
      this.user := user;
    }

    /** `setDefaultFullName`, run before every `save`. */
    method SetDefaultFullName()
      modifies this
      ensures user == WithDefaultFullName(old(user))
    {
      if Truthy(user.firstName) && !Truthy(user.fullName) {
        user := user.(fullName := Some(user.firstName.value + " " + JsString(user.lastName)));
      }
    }

    /** `toJSON` of the document as it is read by default. */
    function Json(): (j: UserJson)
      reads this
      ensures j.id == user.id && j.fields == Public(user)
    {
      ToJson(Public(user))
    }
  }
}
