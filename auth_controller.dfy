/** The HTTP handlers of the auth routes: each turns what the service settled to into a status and
    a JSON body. A handler's only effect is that response, so each is a function. */
module AuthController {
  import opened Js
  import opened UserModel
  import opened AuthService

  /** What a handler passes to `res.json(...)`. */
  datatype Body =
    | RegisterBody(result: RegisterResult)        // the registerUser object as it is
    | LoginBody(user: Option<UserView>, msg: string)
    | GoogleBody(data: Option<LoginResult>)       // the loginUserWithGoogle value, null included
    | UserBody(account: Option<User>)             // the stored document, or nothing
    | ErrorBody(msg: string)

  datatype Response = Response(status: int, body: Body)

  /** `res.status(500).json({ msg: 'Unexpected error occurred' })`. */
  const ServerError := Response(500, ErrorBody(UnexpectedError))

  /** registerController. The service always settles to an object, which is truthy, so every
      outcome it returns is answered with 200; only a rejection gives 500. */
  function RegisterController(outcome: Completion<RegisterResult>): (r: Response)
    ensures r.status == 200 <==> outcome.Returned?
    ensures outcome.Returned? ==> r.body == RegisterBody(outcome.value)
    ensures outcome.Threw? ==> r == ServerError
  {
    match outcome
    case Threw => ServerError
    case Returned(user) => Response(200, RegisterBody(user))
  }

  /** loginController: 200 when `success === true`, 401 when `success === false`, and 500 for an
      undefined `success` or a rejection. */
  function LoginController(outcome: Completion<LoginResult>): (r: Response)
    ensures r.status == 200 <==> outcome.Returned? && outcome.value.success == Some(true)
    ensures r.status == 401 <==> outcome.Returned? && outcome.value.success == Some(false)
    ensures r.status in {200, 401, 500}
    ensures r.status != 500 ==> r.body == LoginBody(outcome.value.user, outcome.value.msg)
    ensures r.status == 500 ==> r == ServerError
  {
    match outcome
    case Threw => ServerError
    case Returned(result) =>
      if result.success == Some(true) then Response(200, LoginBody(result.user, result.msg))
      else if result.success == Some(false) then Response(401, LoginBody(result.user, result.msg))
      else ServerError
  }

  /** The googleAuth request body. */
  datatype GoogleAuthBody = GoogleAuthBody(token: Option<string>, clientId: Option<string>)

  /** googleAuth: the service is called only when both `token` and `clientId` are truthy; its
      value, null included, is answered with 200, and a rejection with 500. `verified` is what
      verifying `token` yields. Returns the response and the collection afterwards. */
  function GoogleAuth(req: GoogleAuthBody, db: Db, env: Env, verified: Option<Payload>, faults: DbFaults): (r: (Response, Db))
    ensures !(Truthy(OrUndefined(req.token)) && Truthy(OrUndefined(req.clientId))) ==> r == (ServerError, db)
    ensures r.0.status in {200, 500}
    ensures Truthy(OrUndefined(req.token)) && Truthy(OrUndefined(req.clientId)) ==>
      var (outcome, db') := GoogleLogin(db, env, req.clientId.value, verified, faults);
      && r.1 == db'
      && (r.0.status == 200 <==> outcome.Returned?)
      && (outcome.Returned? ==> r.0.body == GoogleBody(outcome.value))
  {
    if Truthy(OrUndefined(req.token)) && Truthy(OrUndefined(req.clientId)) then
      var (outcome, db') := GoogleLogin(db, env, req.clientId.value, verified, faults);
      match outcome
      case Returned(userData) => (Response(200, GoogleBody(userData)), db')
      case Threw => (ServerError, db')
    else (ServerError, db)
  }

  /** me: 200 with whatever the lookup of the authenticated email gives, the stored document
      (password ciphertext included) or nothing. */
  function Me(db: Db, email: string, lookupFails: bool): (r: Response)
    ensures r.status == 200 && r.body.UserBody?
    ensures r.body.account.None? <==> lookupFails || email !in db.users
    ensures r.body.account.Some? ==> r.body.account.value == db.users[email]
  {
    Response(200, UserBody(FindUser(db, email, lookupFails)))
  }

  /** A Google login presenting the email of an account of another auth type is answered with
      200 and a null body, and the account is left as it was. */
  lemma GoogleAuthRefusesOtherAuthType(req: GoogleAuthBody, db: Db, env: Env, payload: Payload, faults: DbFaults)
    requires Truthy(OrUndefined(req.token)) && Truthy(OrUndefined(req.clientId))
    requires !faults.lookup && payload.email in db.users
    requires db.users[payload.email].authType != GoogleAuthType
    ensures GoogleAuth(req, db, env, Some(payload), faults) == (Response(200, GoogleBody(None)), db)
  {
  }

  /** As written, a Google login for a verified email with no account is answered with 500 and
      stores nothing. */
  lemma GoogleAuthNewEmailFails(req: GoogleAuthBody, db: Db, env: Env, payload: Payload, faults: DbFaults)
    requires Truthy(OrUndefined(req.token)) && Truthy(OrUndefined(req.clientId))
    requires payload.email !in db.users
    ensures GoogleAuth(req, db, env, Some(payload), faults) == (ServerError, db)
  {
    GoogleProvisionThrows(db, env, req.clientId.value, payload, faults);
  }

  /** A request to one of the auth routes, with what its outcome depends on. */
  datatype Request =
    | RegisterRequest(form: RegisterForm, env: Env, faults: DbFaults)
    | LoginRequest(creds: Credentials, env: Env, faults: DbFaults)
    | GoogleAuthRequest(body: GoogleAuthBody, verified: Option<Payload>, env: Env, faults: DbFaults)
    | MeRequest(email: string, lookupFails: bool)

  /** Serving one request: the response and the collection afterwards. */
  function Serve(db: Db, req: Request): (r: (Response, Db))
    ensures WellFormed(db) ==> WellFormed(r.1)
    ensures forall e :: e in db.users ==> e in r.1.users && r.1.users[e] == db.users[e]
  {
    match req
    case RegisterRequest(form, env, faults) =>
      var (result, db') := Register(db, env, form, faults);
      (RegisterController(Returned(result)), db')
    case LoginRequest(creds, env, faults) =>
      (LoginController(LoginUser(db, env, Some(creds), faults.lookup)), db)
    case GoogleAuthRequest(body, verified, env, faults) =>
      GoogleAuth(body, db, env, verified, faults)
    case MeRequest(email, lookupFails) =>
      (Me(db, email, lookupFails), db)
  }

  /** The collection after serving requests one after another. */
  function Run(db: Db, reqs: seq<Request>): (final: Db)
    decreases |reqs|
  {
    if reqs == [] then db else Run(Serve(db, reqs[0]).1, reqs[1..])
  }

  /** Whatever requests are served, the collection stays well formed and no account is ever
      changed or removed. */
  lemma {:induction false} RunKeepsAccounts(db: Db, reqs: seq<Request>)
    requires WellFormed(db)
    ensures WellFormed(Run(db, reqs))
    ensures forall e :: e in db.users ==> e in Run(db, reqs).users && Run(db, reqs).users[e] == db.users[e]
    decreases |reqs|
  {
    if reqs != [] {
      RunKeepsAccounts(Serve(db, reqs[0]).1, reqs[1..]);
    }
  }

  /** As written, no sequence of requests ever adds an account: both drafts the service writes
      fail validation. */
  lemma {:induction false} RunNeverCreatesAccounts(db: Db, reqs: seq<Request>)
    ensures Run(db, reqs) == db
    decreases |reqs|
  {
    if reqs != [] {
      ServeNeverCreates(db, reqs[0]);
      RunNeverCreatesAccounts(db, reqs[1..]);
    }
  }

  /** As written, serving one request leaves the collection as it was. */
  lemma ServeNeverCreates(db: Db, req: Request)
    ensures Serve(db, req).1 == db
  {
    match req
    case RegisterRequest(form, env, faults) =>
      RegisterNeverCreates(db, env, form, faults);
    case GoogleAuthRequest(body, verified, env, faults) =>
      if Truthy(OrUndefined(body.token)) && Truthy(OrUndefined(body.clientId)) && verified.Some?
         && FindUser(db, verified.value.email, faults.lookup).None? {
        GoogleProvisionThrows(db, env, body.clientId.value, verified.value, faults);
      }
    case _ =>
  }
}
