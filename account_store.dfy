/**
 * The account store the engine talks to (`UserService` over a MongoDB
 * collection; its code is not part of this model). The collection is a
 * sequence in natural order: a lookup returns the first record that matches,
 * and an update acts on that record. The unique indexes of the schema (the
 * `_id`, and `email`, `phone` and `userName` wherever present) are enforced:
 * a write that would break one fails and changes nothing.
 */
module AccountStore {
  import opened Wrappers
  import opened UserEntity

  /** An equality filter; a key that is `undefined` places no condition. */
  datatype Filter = Filter(id: Option<Id>, email: Option<string>, active: Option<bool>)

  function ById(id: Id): Filter { Filter(Some(id), None, None) }
  function ByEmail(email: Option<string>): Filter { Filter(None, email, None) }
  function ByActiveEmail(email: string): Filter { Filter(None, Some(email), Some(true)) }

  /** What a lookup searches for. */
  datatype Query =
    | Where(filter: Filter)
      /** `anyUserExists`: a record whose email or phone is the identifier. */
    | AnyIdentifier(x: Option<string>)
      /** `activeUserExists`: an active record whose email or phone is the identifier. */
    | ActiveIdentifier(info: string)

  predicate Matches(a: Account, q: Query) {
    match q
    case Where(f) =>
      && (f.id.None? || a.id == f.id.value)
      && (f.email.None? || a.email == f.email)
      && (f.active.None? || a.active == f.active.value)
    case AnyIdentifier(x) => x.None? || a.email == x || a.phone == x
    case ActiveIdentifier(info) => a.active && (a.email == Some(info) || a.phone == Some(info))
  }

  /** The position of the first record that matches, in natural order. */
  function FirstMatch(docs: seq<Account>, q: Query): (r: Option<nat>)
    ensures r.Some? ==> r.value < |docs| && Matches(docs[r.value], q)
    ensures r.Some? ==> forall j :: 0 <= j < r.value ==> !Matches(docs[j], q)
    ensures r.None? ==> forall j :: 0 <= j < |docs| ==> !Matches(docs[j], q)
  {
    if docs == [] then None
    else if Matches(docs[0], q) then Some(0)
    else
      match FirstMatch(docs[1..], q)
      case None => None
      case Some(k) => Some(k + 1)
  }

  /** The first match is the record that matches with no match before it. */
  lemma FirstMatchAt(docs: seq<Account>, q: Query, i: nat)
    requires i < |docs| && Matches(docs[i], q)
    requires forall j :: 0 <= j < i ==> !Matches(docs[j], q)
    ensures FirstMatch(docs, q) == Some(i)
  {
  }

  /** Two queries that agree on every record find the same first record. */
  lemma {:induction false} FirstMatchAgrees(docs: seq<Account>, q: Query, q': Query)
    requires forall j :: 0 <= j < |docs| ==> Matches(docs[j], q) == Matches(docs[j], q')
    ensures FirstMatch(docs, q) == FirstMatch(docs, q')
  {
    if docs != [] && !Matches(docs[0], q) {
      FirstMatchAgrees(docs[1..], q, q');
    }
  }

  /** A write that keeps every record's match status keeps the first match. */
  lemma FirstMatchAfterWrite(docs: seq<Account>, q: Query, i: nat, a: Account)
    requires i < |docs| && Matches(a, q) == Matches(docs[i], q)
    ensures FirstMatch(docs[i := a], q) == FirstMatch(docs, q)
  {
    if FirstMatch(docs, q).Some? {
      FirstMatchAt(docs[i := a], q, FirstMatch(docs, q).value);
    }
  }

  /** `$set`: the fields a write assigns (an `undefined` value assigns nothing). */
  datatype Patch = Patch(
    email: Option<string>,
    firstName: Option<string>,
    lastName: Option<string>,
    password: Option<string>,
    hashedRefreshToken: Option<string>,
    verificationCodeHash: Option<string>,
    verificationCodeExpires: Option<int>,
    newEmail: Option<string>,
    active: Option<bool>,
    accountStatus: Option<AccountStatus>)

  const NoFields: Patch := Patch(None, None, None, None, None, None, None, None, None, None)

  /** Sets a field when the patch gives it. */
  function Set<T>(current: T, given: Option<T>): T {
    given.GetOr(current)
  }

  function SetOpt<T>(current: Option<T>, given: Option<T>): Option<T> {
    if given.Some? then given else current
  }

  function Apply(a: Account, p: Patch): (b: Account)
    ensures b.id == a.id && b.phone == a.phone && b.userName == a.userName
    ensures b.fullName == a.fullName && b.role == a.role
    ensures b.email == (if p.email.Some? then p.email else a.email)
    ensures b.firstName == (if p.firstName.Some? then p.firstName else a.firstName)
    ensures b.lastName == (if p.lastName.Some? then p.lastName else a.lastName)
    ensures b.password == (if p.password.Some? then p.password.value else a.password)
    ensures b.hashedRefreshToken == (if p.hashedRefreshToken.Some? then p.hashedRefreshToken.value
                                     else a.hashedRefreshToken)
    ensures b.verificationCodeHash == (if p.verificationCodeHash.Some? then p.verificationCodeHash.value
                                       else a.verificationCodeHash)
    ensures b.verificationCodeExpires == (if p.verificationCodeExpires.Some? then p.verificationCodeExpires
                                          else a.verificationCodeExpires)
    ensures b.newEmail == (if p.newEmail.Some? then p.newEmail else a.newEmail)
    ensures b.active == (if p.active.Some? then p.active.value else a.active)
    ensures b.accountStatus == (if p.accountStatus.Some? then p.accountStatus else a.accountStatus)
    ensures p == NoFields ==> b == a
  {
    a.(email := SetOpt(a.email, p.email),
       firstName := SetOpt(a.firstName, p.firstName),
       lastName := SetOpt(a.lastName, p.lastName),
       password := Set(a.password, p.password),
       hashedRefreshToken := Set(a.hashedRefreshToken, p.hashedRefreshToken),
       verificationCodeHash := Set(a.verificationCodeHash, p.verificationCodeHash),
       verificationCodeExpires := SetOpt(a.verificationCodeExpires, p.verificationCodeExpires),
       newEmail := SetOpt(a.newEmail, p.newEmail),
       active := Set(a.active, p.active),
       accountStatus := SetOpt(a.accountStatus, p.accountStatus))
  }

  /** Two optional keys that a sparse unique index lets coexist. */
  predicate Distinct(x: Option<string>, y: Option<string>) {
    x.None? || y.None? || x != y
  }

  /** Two records that the unique indexes let coexist. */
  predicate Compatible(a: Account, b: Account) {
    a.id != b.id && Distinct(a.email, b.email) && Distinct(a.phone, b.phone) && Distinct(a.userName, b.userName)
  }

  /** The unique indexes hold. */
  predicate Indexed(docs: seq<Account>) {
    forall i, j :: 0 <= i < |docs| && 0 <= j < |docs| && i != j ==> Compatible(docs[i], docs[j])
  }

  /** Putting `a` at position `i` (`|docs|`: appending it) keeps the unique indexes. */
  predicate Admits(docs: seq<Account>, i: nat, a: Account) {
    forall j :: 0 <= j < |docs| && j != i ==> Compatible(docs[j], a)
  }

  lemma WriteKeepsIndexed(docs: seq<Account>, i: nat, a: Account)
    requires i < |docs| && Admits(docs, i, a)
    ensures Indexed(docs) ==> Indexed(docs[i := a])
  {
  }

  lemma AppendKeepsIndexed(docs: seq<Account>, a: Account)
    requires Admits(docs, |docs|, a)
    ensures Indexed(docs) ==> Indexed(docs + [a])
  {
  }

  /** A write that keeps a record's keys never conflicts with the others. */
  lemma SameKeysAdmitted(docs: seq<Account>, i: nat, a: Account)
    requires Indexed(docs) && i < |docs|
    requires a.id == docs[i].id && a.email == docs[i].email
    requires a.phone == docs[i].phone && a.userName == docs[i].userName
    ensures Admits(docs, i, a)
  {
    forall j | 0 <= j < |docs| && j != i ensures Compatible(docs[j], a) {
      assert Compatible(docs[j], docs[i]);
    }
  }

  /** A bound on the length of every id in the store. */
  function MaxIdLength(docs: seq<Account>): (n: nat)
    ensures forall j :: 0 <= j < |docs| ==> |docs[j].id| <= n
  {
    if docs == [] then 0
    else
      var rest := MaxIdLength(docs[1..]);
      if |docs[0].id| > rest then |docs[0].id| else rest
  }

  /** The id the driver gives a new record: longer than any id in use, so unused. */
  function FreshId(docs: seq<Account>): (id: Id)
    ensures forall j :: 0 <= j < |docs| ==> docs[j].id != id
  {
    seq(MaxIdLength(docs) + 1, _ => 'o')
  }

  /** The record an upsert inserts: the filter's equalities on a fresh document. */
  function Seed(f: Filter, newId: Id): (a: Account)
    ensures a.id == f.id.GetOr(newId) && a.email == f.email && a.active == f.active.GetOr(false)
    ensures a.phone.None? && a.userName.None? && a.role == USER
  {
    NewAccount(f.id.GetOr(newId)).(email := f.email, active := f.active.GetOr(false))
  }

  /** The outcome of a write together with the collection after it. */
  datatype Written<T> = Written(result: T, docs: seq<Account>)

  /** `upsertOne`'s answer. */
  datatype UpsertResult = UpsertResult(ok: bool, modifiedCount: nat, upsertedCount: nat)

  /**
   * `upsertOne(filter, patch)`: `updateOne` with `upsert`. The first record
   * that matches is updated; since the schema keeps timestamps, the update
   * also stamps `updatedAt`, so an admitted update always counts as modified.
   * When none matches, the seeded record is inserted.
   */
  function UpsertOne(docs: seq<Account>, f: Filter, p: Patch): (w: Written<UpsertResult>)
    ensures Indexed(docs) ==> Indexed(w.docs)
    ensures !w.result.ok ==> w.docs == docs && w.result.modifiedCount == 0 && w.result.upsertedCount == 0
    ensures FirstMatch(docs, Where(f)).Some? ==>
              var i := FirstMatch(docs, Where(f)).value;
              && w.result.upsertedCount == 0
              && (w.result.ok <==> Admits(docs, i, Apply(docs[i], p)))
              && (w.result.ok ==> w.docs == docs[i := Apply(docs[i], p)])
              && w.result.modifiedCount == (if w.result.ok then 1 else 0)
    ensures FirstMatch(docs, Where(f)).None? ==>
              var a := Apply(Seed(f, FreshId(docs)), p);
              && w.result.modifiedCount == 0
              && (w.result.ok <==> Admits(docs, |docs|, a))
              && (w.result.ok ==> w.docs == docs + [a] && w.result.upsertedCount == 1)
  {
    match FirstMatch(docs, Where(f))
    case Some(i) =>
      var a := Apply(docs[i], p);
      if !Admits(docs, i, a) then Written(UpsertResult(false, 0, 0), docs)
      else
        WriteKeepsIndexed(docs, i, a);
        Written(UpsertResult(true, 1, 0), docs[i := a])
    case None =>
      var a := Apply(Seed(f, FreshId(docs)), p);
      if !Admits(docs, |docs|, a) then Written(UpsertResult(false, 0, 0), docs)
      else
        AppendKeepsIndexed(docs, a);
        Written(UpsertResult(true, 0, 1), docs + [a])
  }

  /** Why the store refused a request. */
  datatype StoreError = NotFound | DuplicateKey

  datatype StoreResult<T> = StoreOk(body: T) | StoreFail(error: StoreError)

  /**
   * `findOneAndUpdate(filter, patch)` (and `updateById`, its special case by
   * `_id`): updates the first record that matches and returns it as updated,
   * read by default; it fails when nothing matches or the write breaks an index.
   */
  function FindOneAndUpdate(docs: seq<Account>, f: Filter, p: Patch): (w: Written<StoreResult<PublicUser>>)
    ensures Indexed(docs) ==> Indexed(w.docs)
    ensures w.result.StoreFail? ==> w.docs == docs
    ensures FirstMatch(docs, Where(f)).None? ==> w.result == StoreFail(NotFound)
    ensures FirstMatch(docs, Where(f)).Some? ==>
              var i := FirstMatch(docs, Where(f)).value;
              if Admits(docs, i, Apply(docs[i], p))
              then w.docs == docs[i := Apply(docs[i], p)] && w.result == StoreOk(Public(Apply(docs[i], p)))
              else w.result == StoreFail(DuplicateKey)
  {
    match FirstMatch(docs, Where(f))
    case None => Written(StoreFail(NotFound), docs)
    case Some(i) =>
      var a := Apply(docs[i], p);
      if !Admits(docs, i, a) then Written(StoreFail(DuplicateKey), docs)
      else
        WriteKeepsIndexed(docs, i, a);
        Written(StoreOk(Public(a)), docs[i := a])
  }

  /** A lookup: the first record that matches, with its secrets (`findOneWithPwd`). */
  function FindOne(docs: seq<Account>, q: Query): (r: Option<Account>)
    ensures r.Some? <==> FirstMatch(docs, q).Some?
    ensures r.Some? ==> r.value == docs[FirstMatch(docs, q).value] && Matches(r.value, q)
  {
    match FirstMatch(docs, q)
    case None => None
    case Some(i) => Some(docs[i])
  }

  /** What `UserService.Find` promises pins its answer down to `FindOne`'s. */
  lemma FoundIsFindOne(docs: seq<Account>, q: Query, r: Option<Account>)
    requires r.None? <==> forall j :: 0 <= j < |docs| ==> !Matches(docs[j], q)
    requires r.Some? ==> exists i :: 0 <= i < |docs| && docs[i] == r.value && Matches(docs[i], q)
                                     && forall j :: 0 <= j < i ==> !Matches(docs[j], q)
    ensures r == FindOne(docs, q)
  {
    if r.Some? {
      var i :| 0 <= i < |docs| && docs[i] == r.value && Matches(docs[i], q)
               && forall j :: 0 <= j < i ==> !Matches(docs[j], q);
      FirstMatchAt(docs, q, i);
    }
  }

  /**
   * The accounts collection behind `UserService`: the calls the
   * authentication routines make on it, each one a step on `docs`.
   */
  class UserService {
    var docs: seq<Account>

    ghost predicate Valid() reads this {
      Indexed(docs)
    }

    constructor (initial: seq<Account>)
      requires Indexed(initial)
      ensures Valid() && docs == initial
    {
      docs := initial;
    }

    /** `upsertOne`. */
    method Upsert(f: Filter, p: Patch) returns (r: UpsertResult)
      requires Valid()
      modifies this
      ensures Valid()
      ensures r == UpsertOne(old(docs), f, p).result && docs == UpsertOne(old(docs), f, p).docs
    {
      var w := UpsertOne(docs, f, p);
      docs := w.docs;
      r := w.result;
    }

    /** `findOneAndUpdate` and `updateById`. */
    method FindAndUpdate(f: Filter, p: Patch) returns (r: StoreResult<PublicUser>)
      requires Valid()
      modifies this
      ensures Valid()
      ensures r == FindOneAndUpdate(old(docs), f, p).result && docs == FindOneAndUpdate(old(docs), f, p).docs
    {
      var w := FindOneAndUpdate(docs, f, p);
      docs := w.docs;
      r := w.result;
    }

    /** `findOneWithPwd`, `findOne`, `findById`, `anyUserExists`, `activeUserExists`. */
    method Find(q: Query) returns (r: Option<Account>)
      ensures r.None? <==> forall j :: 0 <= j < |docs| ==> !Matches(docs[j], q)
      ensures r.Some? ==> exists i :: 0 <= i < |docs| && docs[i] == r.value && Matches(docs[i], q)
                                      && forall j :: 0 <= j < i ==> !Matches(docs[j], q)
    {
      r := FindOne(docs, q);
    }
  }
}
