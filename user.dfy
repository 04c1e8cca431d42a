/** The `user` collection: the schema's write constraints (required paths, defaults, timestamps),
    the unique index on email, and the collection itself as a class keyed by email. */
module UserModel {
  import opened Js

  /** A timestamp, as supplied by the clock. */
  type Time = int

  /** A stored account document. */
  datatype User = User(
    id: nat,
    email: string,
    firstName: string,
    lastName: string,
    password: string,
    isAdmin: bool,
    authType: string,
    agreedOnTerms: bool,
    createdAt: Time,
    updatedAt: Time)

  /** The object handed to `new User(...)`, key by key, as the caller wrote it. The schema reads only
      the paths it declares; any other key is dropped (strict mode). */
  type Draft = map<string, JsValue>

  /** A schema path after casting: not set, set to a value of the path's type, or a cast failure. */
  datatype Path<T> = Unset | Set(value: T) | CastError

  /** A `String` path of a draft. */
  function StringPath(d: Draft, key: string): Path<string>
  {
    if key !in d then Unset
    else match d[key]
      case Undefined => Unset
      case Null => Unset
      case Str(s) => Set(s)
      case _ => CastError
  }

  /** A `Boolean` path of a draft. */
  function BoolPath(d: Draft, key: string): Path<bool>
  {
    if key !in d then Unset
    else match d[key]
      case Undefined => Unset
      case Null => Unset
      case Bool(b) => Set(b)
      case _ => CastError
  }

  /** `required: true` on a String path is met by a non-empty string only. */
  predicate RequiredString(d: Draft, key: string)
  {
    StringPath(d, key).Set? && StringPath(d, key).value != ""
  }

  /** `required: true` on a Boolean path is met by either boolean. */
  predicate RequiredBool(d: Draft, key: string)
  {
    BoolPath(d, key).Set?
  }

  /** What validation demands of a draft before it is written. */
  predicate Admissible(d: Draft)
  {
    && RequiredString(d, "email")
    && RequiredString(d, "firstName")
    && RequiredString(d, "lastName")
    && RequiredString(d, "password")
    && RequiredBool(d, "agreedOnTerms")
    && !BoolPath(d, "isAdmin").CastError?
    && !StringPath(d, "authType").CastError?
  }

  /** What every stored document satisfies because validation let it through. */
  predicate Conforms(u: User)
  {
    u.email != "" && u.firstName != "" && u.lastName != "" && u.password != ""
  }

  /** The document a draft becomes: validated, defaults applied, stamped with `now`. */
  function Build(d: Draft, id: nat, now: Time): (r: Option<User>)
    ensures r.Some? <==> Admissible(d)
    ensures r.Some? ==> Conforms(r.value) && r.value.id == id
    ensures r.Some? ==>
      && StringPath(d, "email") == Set(r.value.email)
      && StringPath(d, "firstName") == Set(r.value.firstName)
      && StringPath(d, "lastName") == Set(r.value.lastName)
      && StringPath(d, "password") == Set(r.value.password)
      && BoolPath(d, "agreedOnTerms") == Set(r.value.agreedOnTerms)
    ensures r.Some? ==> r.value.isAdmin == (BoolPath(d, "isAdmin") == Set(true))
    ensures r.Some? ==> r.value.authType == (if StringPath(d, "authType").Set? then StringPath(d, "authType").value else "local")
    ensures r.Some? ==> r.value.createdAt == now && r.value.updatedAt == now
  {
    if !Admissible(d) then None
    else
      var isAdmin := match BoolPath(d, "isAdmin") { case Set(b) => b case _ => false };
      var authType := match StringPath(d, "authType") { case Set(t) => t case _ => "local" };
      Some(User(
        id,
        StringPath(d, "email").value,
        StringPath(d, "firstName").value,
        StringPath(d, "lastName").value,
        StringPath(d, "password").value,
        isAdmin,
        authType,
        BoolPath(d, "agreedOnTerms").value,
        now,
        now))
  }

  /** The contents of the collection. */
  datatype Db = Db(users: map<string, User>, nextId: nat)

  /** The collection's invariant: documents are keyed by their email (so no two share one, which is
      what the unique index guarantees), each passed validation, and ids are distinct and below the
      next one to be handed out. */
  ghost predicate WellFormed(db: Db)
  {
    && (forall e :: e in db.users ==> db.users[e].email == e && Conforms(db.users[e]) && db.users[e].id < db.nextId)
    && (forall e1, e2 :: e1 in db.users && e2 in db.users && e1 != e2 ==> db.users[e1].id != db.users[e2].id)
  }

  /** How `save()` ends: the stored document, or the error it rejects with. */
  datatype SaveOutcome = Saved(doc: User) | ValidationError | DuplicateKey | DriverError

  /** `save()` of a new document: validation, then the unique index on email, then the driver,
      which may fail on its own (`driverFails`). */
  function Insert(db: Db, d: Draft, now: Time, driverFails: bool): (r: (Db, SaveOutcome))
    ensures WellFormed(db) ==> WellFormed(r.0)
    ensures !Admissible(d) ==> r.1 == ValidationError
    ensures Admissible(d) && StringPath(d, "email").value in db.users ==> r.1 == DuplicateKey
    ensures r.1.Saved? <==> Admissible(d) && StringPath(d, "email").value !in db.users && !driverFails
    ensures r.1.Saved? ==>
      && Build(d, db.nextId, now) == Some(r.1.doc)
      && r.0 == Db(db.users[r.1.doc.email := r.1.doc], db.nextId + 1)
    ensures !r.1.Saved? ==> r.0 == db
  {
    match Build(d, db.nextId, now)
    case None => (db, ValidationError)
    case Some(doc) =>
      if doc.email in db.users then (db, DuplicateKey)
      else if driverFails then (db, DriverError)
      else (Db(db.users[doc.email := doc], db.nextId + 1), Saved(doc))
  }

  /** The `user` collection, updated in place by `save()`. */
  class UserCollection {
    var users: map<string, User>
    var nextId: nat

    /** The current contents, as a value. */
    function Snapshot(): (db: Db)
      reads this
    {
      Db(users, nextId)
    }

    ghost predicate Valid()
      reads this
    {
      WellFormed(Snapshot())
    }

    constructor ()
      ensures Valid()
      ensures users == map[]
    {
      users := map[];
      nextId := 0;
    }

    /** `new User(d).save()`. */
    method Save(d: Draft, now: Time, driverFails: bool) returns (outcome: SaveOutcome)
      requires Valid()
      modifies this
      ensures Valid()
      ensures (Snapshot(), outcome) == Insert(old(Snapshot()), d, now, driverFails)
    {
      var built := Build(d, nextId, now);
      if built.None? {
        return ValidationError;
      }
      var doc := built.value;
      if doc.email in users {
        return DuplicateKey;
      }
      if driverFails {
        return DriverError;
      }
      users := users[doc.email := doc];
      nextId := nextId + 1;
      return Saved(doc);
    }
  }
}
