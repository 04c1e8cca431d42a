/** The account service: registration, password login and Google login over the `user`
    collection. Pure functions give each operation's result and resulting collection; the methods
    run the same steps against a UserCollection and are proved to agree with them. */
module AuthService {
  import opened Js
  import opened Crypto
  import opened UserModel

  const EmailInUse := "Email is already in use"
  const UnexpectedError := "Unexpected error occurred"
  const RegisterSucceeded := "Successful register"
  const LoginSucceeded := "Login successful"
  const InvalidCredentials := "Invalid Credentials"
  const GoogleAuthType := "google"
  const TokenLifetime := "3d"

  /** What a request depends on besides its body: the CryptoJS oracle and its passphrase
      (ENCRYPTER_KEY), the signing secret (JWT_KEY), the salt CryptoJS draws, and the clock. */
  datatype Env = Env(aes: Aes, encrypterKey: Option<string>, jwtKey: Option<string>, salt: Salt, now: Time)

  /** Which of a request's database calls fail in the driver: the first lookup, the insert, and the
      lookup `loginUser` makes on its own. */
  datatype DbFaults = DbFaults(lookup: bool, save: bool, relookup: bool)

  /** The registration body; the client sends the names as `first_name` and `last_name`. */
  datatype RegisterForm = RegisterForm(email: string, firstName: string, lastName: string, password: string)

  /** What `loginUser` destructures from its argument: a login body, or a stored document. */
  datatype Credentials = Credentials(email: string, password: string)

  /** The verified ID-token payload; `name` is absent when the token carries no profile. */
  datatype Payload = Payload(email: string, name: Option<string>)

  /** The claims `jwt.sign` is given. */
  datatype Claims = Claims(email: string, isAdmin: bool)

  /** A signed access token: its claims, its lifetime and the secret it was signed with. */
  datatype AccessToken = AccessToken(claims: Claims, expiresIn: string, secret: string)

  /** A stored document without its password, with the access token added. */
  datatype UserView = UserView(
    id: nat,
    email: string,
    firstName: string,
    lastName: string,
    isAdmin: bool,
    authType: string,
    agreedOnTerms: bool,
    createdAt: Time,
    updatedAt: Time,
    accessToken: AccessToken)

  /** `{ msg, newUser }`. */
  datatype RegisterResult = RegisterResult(msg: string, newUser: Option<User>)

  /** `{ user, msg, success }`; `success` is undefined (None) on the unexpected-error path. */
  datatype LoginResult = LoginResult(user: Option<UserView>, msg: string, success: Option<bool>)

  /** jsonwebtoken's `sign`: it throws when the secret is missing or empty. */
  function Sign(claims: Claims, secret: Option<string>, expiresIn: string): (t: Option<AccessToken>)
    ensures t.Some? <==> secret.Some? && secret.value != ""
    ensures t.Some? ==> t.value.claims == claims && t.value.expiresIn == expiresIn
  {
    if secret.Some? && secret.value != "" then Some(AccessToken(claims, expiresIn, secret.value)) else None
  }

  /** `const { password, ...others } = user._doc; { ...others, accessToken }`. */
  function WithoutPassword(u: User, accessToken: AccessToken): (v: UserView)
    ensures v.id == u.id && v.email == u.email && v.firstName == u.firstName && v.lastName == u.lastName
    ensures v.isAdmin == u.isAdmin && v.authType == u.authType && v.agreedOnTerms == u.agreedOnTerms
    ensures v.createdAt == u.createdAt && v.updatedAt == u.updatedAt && v.accessToken == accessToken
  {
    UserView(u.id, u.email, u.firstName, u.lastName, u.isAdmin, u.authType, u.agreedOnTerms,
             u.createdAt, u.updatedAt, accessToken)
  }

  /** findUser: a driver failure is swallowed and looks exactly like "no such user". */
  function FindUser(db: Db, email: string, driverFails: bool): (r: Option<User>)
    ensures r.Some? <==> !driverFails && email in db.users
    ensures r.Some? ==> r.value == db.users[email]
  {
    if !driverFails && email in db.users then Some(db.users[email]) else None
  }

  /** What `createUser` settles to: the saved document, or null whatever the rejection was. */
  function Created(outcome: SaveOutcome): (saved: Option<User>)
  {
    if outcome.Saved? then Some(outcome.doc) else None
  }

  /** createUser: `save()`, with every rejection swallowed into null. */
  method CreateUser(store: UserCollection, userData: Draft, now: Time, driverFails: bool) returns (saved: Option<User>)
    requires store.Valid()
    modifies store
    ensures store.Valid()
    ensures (store.Snapshot(), saved) == (Insert(old(store.Snapshot()), userData, now, driverFails).0,
                                          Created(Insert(old(store.Snapshot()), userData, now, driverFails).1))
  {
    var outcome := store.Save(userData, now, driverFails);
    saved := Created(outcome);
  }

  /** loginUser. Destructuring a null argument throws before the `try`. The password comparison is
      not awaited: `passwordIsValid` is a pending promise, which is truthy, so the wrong-password
      branch is never taken. Only `jwt.sign` can throw inside the `try`. */
  function LoginUser(db: Db, env: Env, userData: Option<Credentials>, lookupFails: bool): (r: Completion<LoginResult>)
    ensures userData.None? <==> r.Threw?
    ensures userData.Some? && FindUser(db, userData.value.email, lookupFails).None? ==>
      r == Returned(LoginResult(None, InvalidCredentials, Some(false)))
    ensures r.Returned? && r.value.success == Some(false) ==>
      r.value.user.None? && FindUser(db, userData.value.email, lookupFails).None?
    ensures r.Returned? && r.value.success == Some(true) ==>
      && FindUser(db, userData.value.email, lookupFails).Some?
      && var u := db.users[userData.value.email];
      && r.value.user.Some?
      && r.value.user.value == WithoutPassword(u, r.value.user.value.accessToken)
      && r.value.user.value.accessToken.claims == Claims(u.email, u.isAdmin)
      && r.value.user.value.accessToken.expiresIn == TokenLifetime
      && r.value.msg == LoginSucceeded
    ensures r.Returned? && r.value.success.None? ==>
      r.value == LoginResult(None, UnexpectedError, None) && (env.jwtKey.None? || env.jwtKey.value == "")
    ensures userData.Some? && FindUser(db, userData.value.email, lookupFails).Some? && env.jwtKey.Some? && env.jwtKey.value != "" ==>
      r.Returned? && r.value.success == Some(true)
    ensures userData.Some? && FindUser(db, userData.value.email, lookupFails).Some? ==>
      var u := db.users[userData.value.email];
      var token := Sign(Claims(u.email, u.isAdmin), env.jwtKey, TokenLifetime);
      r == Returned(if token.Some? then LoginResult(Some(WithoutPassword(u, token.value)), LoginSucceeded, Some(true))
                    else LoginResult(None, UnexpectedError, None))
  {
    match userData
    case None => Threw
    case Some(creds) =>
      match FindUser(db, creds.email, lookupFails)
      case None => Returned(LoginResult(None, InvalidCredentials, Some(false)))
      case Some(user) =>
        var passwordIsValid := Promise(Bool(ComparePasswords(env.aes, env.encrypterKey, creds.password, user.password)));
        if !Truthy(passwordIsValid) then Returned(LoginResult(None, InvalidCredentials, Some(false)))
        else match Sign(Claims(user.email, user.isAdmin), env.jwtKey, TokenLifetime)
          case None => Returned(LoginResult(None, UnexpectedError, None))
          case Some(accessToken) => Returned(LoginResult(Some(WithoutPassword(user, accessToken)), LoginSucceeded, Some(true)))
  }

  /** As written, the password plays no part in a login: two logins that differ only in the
      password they present end alike. */
  lemma LoginIgnoresPassword(db: Db, env: Env, email: string, p: string, q: string, lookupFails: bool)
    ensures LoginUser(db, env, Some(Credentials(email, p)), lookupFails) == LoginUser(db, env, Some(Credentials(email, q)), lookupFails)
  {
  }

  /** The document registerUser hands to createUser. It names the names `first_name` and
      `last_name` and carries no `agreedOnTerms`, so validation always rejects it. */
  function RegisterDraft(form: RegisterForm, encryptedPw: Option<string>): (d: Draft)
    ensures d.Keys == {"email", "first_name", "last_name", "password"}
    ensures d["email"] == Str(form.email) && d["password"] == OrNull(encryptedPw)
    ensures !Admissible(d)
  {
    map["email" := Str(form.email), "first_name" := Str(form.firstName),
        "last_name" := Str(form.lastName), "password" := OrNull(encryptedPw)]
  }

  /** registerUser: its result and the collection afterwards. encryptPassword resolves to null
      rather than rejecting, so the catch around it is never taken; a null password is left to
      validation. */
  function Register(db: Db, env: Env, form: RegisterForm, faults: DbFaults): (r: (RegisterResult, Db))
    ensures FindUser(db, form.email, faults.lookup).Some? ==> r == (RegisterResult(EmailInUse, None), db)
    ensures r.0.msg in {EmailInUse, RegisterSucceeded, UnexpectedError}
    ensures FindUser(db, form.email, faults.lookup).None? ==>
      var (db', outcome) := Insert(db, RegisterDraft(form, EncryptPassword(env.aes, env.encrypterKey, form.password, env.salt)), env.now, faults.save);
      && r.1 == db'
      && r.0.newUser == Created(outcome)
      && r.0.msg == (if outcome.Saved? then RegisterSucceeded else UnexpectedError)
    ensures match r.0.newUser
      case None => r.0.msg != RegisterSucceeded && r.1 == db
      case Some(u) =>
        && r.0.msg == RegisterSucceeded
        && u.email == form.email && form.email !in db.users
        && Some(u.password) == EncryptPassword(env.aes, env.encrypterKey, form.password, env.salt)
        && r.1.users == db.users[form.email := u] && r.1.nextId == db.nextId + 1
    ensures WellFormed(db) ==> WellFormed(r.1)
  {
    if FindUser(db, form.email, faults.lookup).Some? then (RegisterResult(EmailInUse, None), db)
    else
      var encryptedPw := EncryptPassword(env.aes, env.encrypterKey, form.password, env.salt);
      var (db', outcome) := Insert(db, RegisterDraft(form, encryptedPw), env.now, faults.save);
      var newUser := Created(outcome);
      (if newUser.Some? then RegisterResult(RegisterSucceeded, newUser) else RegisterResult(UnexpectedError, None), db')
  }

  /** As written, registration never creates an account: the draft fails validation. */
  lemma RegisterNeverCreates(db: Db, env: Env, form: RegisterForm, faults: DbFaults)
    ensures Register(db, env, form, faults).1 == db
    ensures Register(db, env, form, faults).0.msg != RegisterSucceeded
  {
  }

  /** registerUser against the collection. */
  method RegisterUser(store: UserCollection, env: Env, userData: RegisterForm, faults: DbFaults) returns (r: RegisterResult)
    requires store.Valid()
    modifies store
    ensures store.Valid()
    ensures (r, store.Snapshot()) == Register(old(store.Snapshot()), env, userData, faults)
  {
    var user := FindUser(store.Snapshot(), userData.email, faults.lookup);
    if user.Some? {
      return RegisterResult(EmailInUse, None);
    }
    var encryptedPw := EncryptPassword(env.aes, env.encrypterKey, userData.password, env.salt);
    var newUser := CreateUser(store, RegisterDraft(userData, encryptedPw), env.now, faults.save);
    r := if newUser.Some? then RegisterResult(RegisterSucceeded, newUser) else RegisterResult(UnexpectedError, None);
  }

  /** `s.split(' ')`: the pieces between single spaces, empty pieces included. */
  function SplitOnSpace(s: string): (parts: seq<string>)
    ensures |parts| >= 1
    ensures forall i :: 0 <= i < |parts| ==> ' ' !in parts[i]
    ensures JoinWithSpace(parts) == s
    decreases |s|
  {
    if s == [] then [""]
    else
      var rest := SplitOnSpace(s[1..]);
      if s[0] == ' ' then
        assert ([""] + rest)[1..] == rest;
        [""] + rest
      else
        var parts := [[s[0]] + rest[0]] + rest[1..];
        assert parts[1..] == rest[1..];
        parts
  }

  /** `parts.join(' ')`. */
  function JoinWithSpace(parts: seq<string>): (s: string)
    requires |parts| >= 1
  {
    if |parts| == 1 then parts[0] else parts[0] + " " + JoinWithSpace(parts[1..])
  }

  /** Splitting undoes joining: the split of a name is the only space-free sequence of pieces
      that joins back to it. */
  lemma {:induction false} SplitJoin(parts: seq<string>)
    requires |parts| >= 1
    requires forall i :: 0 <= i < |parts| ==> ' ' !in parts[i]
    ensures SplitOnSpace(JoinWithSpace(parts)) == parts
  {
    if |parts| == 1 {
      SplitPiece(parts[0]);
    } else {
      SplitJoin(parts[1..]);
      SplitAfterPiece(parts[0], JoinWithSpace(parts[1..]));
      assert [parts[0]] + parts[1..] == parts;
    }
  }

  /** A string without spaces splits into itself. */
  lemma {:induction false} SplitPiece(a: string)
    requires ' ' !in a
    ensures SplitOnSpace(a) == [a]
    decreases |a|
  {
    if a != [] {
      SplitPiece(a[1..]);
    }
  }

  /** A space-free first piece, a space, then the rest. */
  lemma {:induction false} SplitAfterPiece(a: string, b: string)
    requires ' ' !in a
    ensures SplitOnSpace(a + " " + b) == [a] + SplitOnSpace(b)
    decreases |a|
  {
    if a == [] {
      assert a + " " + b == [' '] + b;
      assert ([' '] + b)[1..] == b;
    } else {
      SplitAfterPiece(a[1..], b);
      assert (a + " " + b)[1..] == a[1..] + " " + b;
      assert [a[0]] + a[1..] == a;
    }
  }

  /** The document loginUserWithGoogle hands to createUser: the first two pieces of the name as
      `first_name` and `last_name` (undefined when there is one piece), the encrypted client id
      as the password, and `authType` 'google'. Like the registration draft it names the names
      with underscores and has no `agreedOnTerms`, so validation always rejects it. */
  function GoogleDraft(email: string, fullNameArr: seq<string>, pw: Option<string>): (d: Draft)
    requires |fullNameArr| >= 1
    ensures d.Keys == {"email", "first_name", "last_name", "password", "authType"}
    ensures d["email"] == Str(email) && d["authType"] == Str(GoogleAuthType) && d["password"] == OrNull(pw)
    ensures d["first_name"] == Str(fullNameArr[0])
    ensures d["last_name"] == if |fullNameArr| > 1 then Str(fullNameArr[1]) else Undefined
    ensures !Admissible(d)
  {
    map["email" := Str(email), "first_name" := Str(fullNameArr[0]),
        "last_name" := if |fullNameArr| > 1 then Str(fullNameArr[1]) else Undefined,
        "password" := OrNull(pw), "authType" := Str(GoogleAuthType)]
  }

  /** The login body made from a stored document (`loginUser(user)`), or null. */
  function CredentialsOf(user: Option<User>): (creds: Option<Credentials>)
  {
    match user
    case Some(u) => Some(Credentials(u.email, u.password))
    case None => None
  }

  /** The end of loginUserWithGoogle: refuse an account of another auth type, otherwise log in
      with the document itself. */
  function LoginResolvedUser(db: Db, env: Env, user: Option<User>, lookupFails: bool): (r: Completion<Option<LoginResult>>)
    ensures user.Some? && user.value.authType != GoogleAuthType ==> r == Returned(None)
    ensures user.None? ==> r.Threw?
  {
    if user.Some? && user.value.authType != GoogleAuthType then Returned(None)
    else match LoginUser(db, env, CredentialsOf(user), lookupFails)
      case Threw => Threw
      case Returned(v) => Returned(Some(v))
  }

  /** loginUserWithGoogle: its result and the collection afterwards. `verified` is what the
      ID-token verification yields (None when it throws). */
  function GoogleLogin(db: Db, env: Env, clientId: string, verified: Option<Payload>, faults: DbFaults): (r: (Completion<Option<LoginResult>>, Db))
    ensures verified.None? ==> r == (Returned(None), db)
    ensures verified.Some? && FindUser(db, verified.value.email, faults.lookup).Some? ==>
      && r.1 == db
      && var u := db.users[verified.value.email];
      && (u.authType != GoogleAuthType ==> r.0 == Returned(None))
      && (u.authType == GoogleAuthType ==> r.0 == match LoginUser(db, env, Some(Credentials(u.email, u.password)), faults.relookup)
                                                   case Threw => Threw
                                                   case Returned(v) => Returned(Some(v)))
    ensures verified.Some? && FindUser(db, verified.value.email, faults.lookup).None? && verified.value.name.Some? ==>
      var fullNameArr := SplitOnSpace(verified.value.name.value);
      var pw := EncryptPassword(env.aes, env.encrypterKey, clientId, env.salt);
      r.1 == Insert(db, GoogleDraft(verified.value.email, fullNameArr, pw), env.now, faults.save).0
    ensures r.0.Threw? ==> r.1 == db
    ensures WellFormed(db) ==> WellFormed(r.1)
  {
    match verified
    case None => (Returned(None), db)
    case Some(payload) =>
      var user := FindUser(db, payload.email, faults.lookup);
      if user.Some? then (LoginResolvedUser(db, env, user, faults.relookup), db)
      else match payload.name
        case None => (Threw, db)
        case Some(name) =>
          var fullNameArr := SplitOnSpace(name);
          var pw := EncryptPassword(env.aes, env.encrypterKey, clientId, env.salt);
          var (db', outcome) := Insert(db, GoogleDraft(payload.email, fullNameArr, pw), env.now, faults.save);
          (LoginResolvedUser(db', env, Created(outcome), faults.relookup), db')
  }

  /** As written, a verified email with no account never gets one: the insert is rejected, `user`
      stays null, and `loginUser(null)` throws. */
  lemma GoogleProvisionThrows(db: Db, env: Env, clientId: string, payload: Payload, faults: DbFaults)
    requires FindUser(db, payload.email, faults.lookup).None?
    ensures GoogleLogin(db, env, clientId, Some(payload), faults) == (Threw, db)
  {
  }

  /** loginUserWithGoogle against the collection. */
  method LoginUserWithGoogle(store: UserCollection, env: Env, clientId: string, verified: Option<Payload>, faults: DbFaults)
    returns (r: Completion<Option<LoginResult>>)
    requires store.Valid()
    modifies store
    ensures store.Valid()
    ensures (r, store.Snapshot()) == GoogleLogin(old(store.Snapshot()), env, clientId, verified, faults)
  {
    if verified.None? {
      return Returned(None);
    }
    var payload := verified.value;
    var user := FindUser(store.Snapshot(), payload.email, faults.lookup);
    if user.None? {
      if payload.name.None? {
        return Threw;
      }
      var fullNameArr := SplitOnSpace(payload.name.value);
      var pw := EncryptPassword(env.aes, env.encrypterKey, clientId, env.salt);
      user := CreateUser(store, GoogleDraft(payload.email, fullNameArr, pw), env.now, faults.save);
    }
    r := LoginResolvedUser(store.Snapshot(), env, user, faults.relookup);
  }
}
