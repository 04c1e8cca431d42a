# Account logic of the foxer auth API, in Dafny

A model of the account core of an Express/Mongoose service: registration, password login,
Google login and the `me` lookup, over the `user` collection. The model covers four source files:

- `src/services/auth.service.js`: `registerUser`, `loginUser`, `loginUserWithGoogle`, `findUser`
  and `createUser`.
- `src/models/User.js`: the schema, which guards every insert.
- `src/utils/crypto.js`: the CryptoJS password wrapper.
- `src/controllers/auth.controller.js`: the handlers that turn service results into HTTP responses.

Modules, one per source file plus one of JavaScript notions:

- `Js` (`js.dfy`): `Option`, `Completion` (an awaited call either resolves or rejects), the
  JavaScript values that reach a document or a condition, and truthiness. An async call that is
  not awaited is the value `Promise(...)`, and it is always truthy.
- `Crypto` (`crypto.dfy`): CryptoJS.AES is an oracle datatype `Aes` of two uninterpreted
  functions, passed in as a parameter. `RoundTrips(aes)` is the assumed property
  decrypt(encrypt(p, k, salt), k) = p. `EncryptPassword`, `DecryptPassword` and
  `ComparePasswords` turn every exception into null or false, as the source's catch blocks do.
- `UserModel` (`user.dfy`): the `User` document and drafts. A draft is a map from key to
  JavaScript value, exactly as the caller wrote it. The schema reads only its own paths (strict
  mode). `Admissible` is validation: Mongoose's `required` on a String path needs a non-empty
  string, and on a Boolean path needs a boolean. `Build` applies the `isAdmin` and `authType`
  defaults and the timestamps. `Insert` is `save()`: validation, the unique index on email, and
  a driver that may fail. `UserCollection` is the collection, a class whose `users` field is a
  map keyed by email that `Save` updates in place.
- `AuthService` (`auth_service.dfy`): pure functions give each operation's result and the
  collection afterwards (`FindUser`, `LoginUser`, `Register`, `GoogleLogin`). The methods
  `CreateUser`, `RegisterUser` and `LoginUserWithGoogle` run the source's steps against a
  `UserCollection` and are proved equal to those functions.
- `AuthController` (`auth_controller.dfy`): each handler is a function to a `Response` (status,
  body). `Serve` and `Run` serve the routes' requests one after another.

External inputs are parameters:

- `Env` holds the AES oracle, `ENCRYPTER_KEY`, `JWT_KEY`, the salt CryptoJS draws and the clock.
- `DbFaults` says which of a request's database calls fail in the driver.
- `verified: Option<Payload>` is the outcome of Google ID-token verification (None: it threw).
- A signed token is the datatype `AccessToken`: claims, lifetime and secret.

Email matching is exact (case-sensitive), as `findOne({ email })` does it.

## Model

| member | source | states |
|---|---|---|
| `Crypto.EncryptPassword` | src/utils/crypto.js:8-17 | yields null exactly when the passphrase is missing, never throws; under the round-trip assumption its output decrypts back to the password |
| `Crypto.DecryptPassword` | src/utils/crypto.js:24-33 | null without a passphrase; under the round-trip assumption, the ciphertext of p decrypts to p |
| `Crypto.ComparePasswords` | src/utils/crypto.js:41-51 | true exactly when decryption yields a value equal to the candidate; a failed decryption gives false, never a rejection |
| `Crypto.CompareOwnCiphertext` | src/utils/crypto.js:41-45 | under the round-trip assumption, a password matches its own ciphertext and any other password does not |
| `UserModel.Build` | src/models/User.js:3-14 | a document exists exactly when email, firstName, lastName and password are non-empty strings and agreedOnTerms is a boolean; its fields are the draft's; isAdmin defaults to false, authType to 'local'; createdAt = updatedAt = now |
| `UserModel.Insert` | src/models/User.js:5-13 | a draft failing validation is rejected, an existing email is rejected with a duplicate-key error; a rejection leaves the collection unchanged; a save adds exactly the built document under its email; well-formedness (unique emails, valid documents, distinct ids) is preserved |
| `UserModel.UserCollection.constructor` | src/models/User.js:16 | a new collection is empty and well formed |
| `UserModel.UserCollection.Save` | src/services/auth.service.js:163-167 | `save()` changes the collection and reports the outcome exactly as `Insert` says, and keeps it well formed |
| `AuthService.Sign` | src/services/auth.service.js:64-71 | signing fails exactly when the secret is missing or empty; a token carries the claims and lifetime it was given |
| `AuthService.WithoutPassword` | src/services/auth.service.js:73-75 | the login view keeps every stored field except the password and adds the access token |
| `AuthService.FindUser` | src/services/auth.service.js:145-154 | a document is returned exactly when the email is stored and the driver did not fail; a driver failure looks like "not found" |
| `AuthService.CreateUser` | src/services/auth.service.js:161-174 | inserts through `save()`; the saved document, or null for every kind of rejection |
| `AuthService.LoginUser` | src/services/auth.service.js:52-86 | a null argument throws; an unknown email gives 'Invalid Credentials', success false and no user; for a stored email the result is exactly: when signing the stored email and isAdmin with a '3d' lifetime yields a token, success true with the stored document minus password plus that token, otherwise 'Unexpected error occurred' with success undefined; a stored email with a usable secret always succeeds |
| `AuthService.LoginIgnoresPassword` | src/services/auth.service.js:59-62 | as written, the presented password does not affect the login result: the comparison is never awaited |
| `AuthService.RegisterDraft` | src/services/auth.service.js:33-38 | the registration draft has only email, first_name, last_name and password, with the encrypted password or null; it never passes validation |
| `AuthService.Register` | src/services/auth.service.js:12-45 | an email already found gives 'Email is already in use' with no user and no change; 'Successful register' exactly when a document was saved, which then has the form's email and the encryptPassword output as password and is the only addition; otherwise 'Unexpected error occurred' and no change; when the email is not found, the collection afterwards is exactly the insert of the draft built from the form and the encryptPassword output, the returned user is what that insert saved, and the message is 'Successful register' if and only if it saved; well-formedness preserved |
| `AuthService.RegisterNeverCreates` | src/services/auth.service.js:33-44 | as written, registration never succeeds and never changes the collection |
| `AuthService.RegisterUser` | src/services/auth.service.js:12-45 | the method's result and the collection afterwards are those of `Register` |
| `AuthService.SplitOnSpace` | src/services/auth.service.js:116 | `split(' ')` gives at least one piece, no piece contains a space, and joining the pieces with spaces gives the name back |
| `AuthService.SplitJoin` | src/services/auth.service.js:116-119 | splitting undoes joining, so the split is the unique space-free sequence that joins back to the name |
| `AuthService.GoogleDraft` | src/services/auth.service.js:116-128 | the Google draft has authType 'google', the first and second pieces of the name as first_name and last_name (undefined without a second piece), and the encrypted client id as password; it never passes validation |
| `AuthService.LoginResolvedUser` | src/services/auth.service.js:132-138 | an account whose authType is not 'google' gives null; a null user makes `loginUser` throw |
| `AuthService.GoogleLogin` | src/services/auth.service.js:88-139 | failed verification gives null and no change; an existing account of another type gives null and no change; an existing google account logs in with its own stored email and ciphertext; a new email with a name makes exactly one insert attempt, with the Google draft; a rejection leaves the collection unchanged; well-formedness preserved |
| `AuthService.GoogleProvisionThrows` | src/services/auth.service.js:115-138 | as written, a verified email with no account ends in a rejection and stores nothing |
| `AuthService.LoginUserWithGoogle` | src/services/auth.service.js:88-139 | the method's result and the collection afterwards are those of `GoogleLogin` |
| `AuthController.RegisterController` | src/controllers/auth.controller.js:8-20 | 200 with the service object for every outcome it returns, 500 only when it rejects |
| `AuthController.LoginController` | src/controllers/auth.controller.js:27-41 | 200 exactly when success is true, 401 exactly when it is false, 500 otherwise (undefined success or a rejection) |
| `AuthController.GoogleAuth` | src/controllers/auth.controller.js:43-55 | a falsy token or client id gives 500 and the service is not called (no change); otherwise 200 with whatever the service returns, null included, or 500 when it rejects |
| `AuthController.Me` | src/controllers/auth.controller.js:57-60 | always 200, with the stored document (password ciphertext included) or nothing when the lookup finds none |
| `AuthController.GoogleAuthRefusesOtherAuthType` | src/services/auth.service.js:132-136 | a Google login for the email of a non-google account gets 200 with a null body and leaves the account as it was |
| `AuthController.GoogleAuthNewEmailFails` | src/controllers/auth.controller.js:44-54 | as written, a Google login for a new email gets 500 and stores nothing |
| `AuthController.Serve` | src/routes/auth.route.js:14-18 | serving any one request keeps the collection well formed and never changes or removes an account |
| `AuthController.ServeNeverCreates` | src/routes/auth.route.js:14-18 | as written, serving any one request leaves the collection as it was |
| `AuthController.RunKeepsAccounts` | src/services/auth.service.js:161-174 | over any sequence of requests, the collection stays well formed and existing accounts are never changed or removed |
| `AuthController.RunNeverCreatesAccounts` | src/services/auth.service.js:33-128 | as written, no sequence of requests ever adds an account |

## Behaviour as written

The model keeps three defects of the code, because they decide what the service does:

- `comparePasswords` is async and is called without `await` (src/services/auth.service.js:60).
  The pending promise is truthy, so the wrong-password branch (lines 76-78) is dead. Any password
  logs into an existing account (`LoginIgnoresPassword`, `LoginUser`).
- Both drafts written by the service use `first_name`/`last_name` and omit `agreedOnTerms`. The
  schema requires `firstName`, `lastName` and `agreedOnTerms`, so every insert fails validation
  (`RegisterDraft`, `GoogleDraft`).
  - A registration whose email is found ends at line 19 with 'Email is already in use'. Every
    other registration reaches the insert and ends with 'Unexpected error occurred' (line 44).
  - Google auto-provisioning leaves `user` null, and `loginUser(null)` throws while destructuring
    (line 53). That is outside its `try`, so `googleAuth` answers 500.
  - Together: no sequence of requests ever creates an account (`RunNeverCreatesAccounts`).
- `loginUserWithGoogle` passes the stored document to `loginUser` (line 138), so the
  "password" it checks is the stored ciphertext. This login still succeeds, but only because of
  the first defect.

Also as the code does it:

- `registerController` answers every object the service returns with 200, whatever its `msg`
  (src/controllers/auth.controller.js).
- The auth types are 'local' (the schema default) and 'google'. A Google login for an account of
  any other auth type gets a null body under status 200 (src/services/auth.service.js:133-136).

- `encryptPassword` resolves to null rather than rejecting, so the catch in `registerUser`
  (lines 27-30) is never taken. A failed encryption puts a null password in the draft.
- Google login calls `loginUser` with no password comparison of its own.

## Left out

- Registration form validation (email syntax, password length and confirmation, agreement to
  terms): the code has no implementation of it, only message strings in src/utils/messages.js,
  which the service does not use.
- AES internals: CryptoJS.AES is two uninterpreted functions with an explicitly assumed round
  trip.
- JWT signing and verification: a token is its claims, lifetime and secret. Expiry and
  signature checks belong to middleware that is not part of this model.
- Google ID-token verification is a network call, modelled by its outcome. The source passes
  the audience under the misspelled option `audient` (src/services/auth.service.js:100), so the
  model does not claim that the audience is checked.
- Concurrency: requests are served one at a time, and the unique index stands in for the race
  between `findUser` and `createUser`.
- Request bodies with missing or non-string fields: register and login bodies are modelled as
  strings. For googleAuth, `token` and `clientId` may be missing or empty.
- The `me` route's token middleware (middlewares/isValidtoken.js) is not part of this model. It
  sets `req.user`, while `me` looks up `req.body.user.email` (src/controllers/auth.controller.js:58),
  an email the client posts itself. `Me` therefore takes that email as a free parameter: any
  account's stored document, password ciphertext included, can be asked for. A body without
  `user` throws outside any `try`; that case is not modelled.
- Mongoose's lenient casting: strings such as 'true' to Boolean, and booleans to String. A
  value of the wrong type counts as a cast failure; the service never writes one.
- An explicit null on `isAdmin` or `authType`: Mongoose stores it, the model applies the
  default. The service never writes one.
- Document ids and the version key: ids are a counter kept by the collection, in place of
  ObjectIds; `__v` is not modelled.
- Response serialisation (`toJSON`): bodies are the model's datatypes.
- `console.log` logging.
- Not part of this model: routes/auth.js and models/User.js (an earlier iteration, not used by the
  service); middlewares/isValidtoken.js; index.js; routes/products.js; src/models/Products.js.
  `checkIfEmailIsAvailable` is imported by src/routes/auth.route.js but the controller does not
  define it.
- `AuthService.GoogleLogin`: does not describe the stored record itself. It states that exactly
  one insert is attempted, with the draft given by `GoogleDraft`, and `Insert` says what a
  successful insert would store. As written, that insert can never succeed.
