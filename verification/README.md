# Authentication service: request-decision model

A Dafny model of a small Express authentication service backed by a MongoDB user
collection. The service registers users (`POST /register`), logs them in and issues a
signed token (`POST /login`), and guards three routes: `/protected` and `/dashboard`
need a valid bearer token, `/admin` also needs the role `"admin"`.

The model follows the source file by file:

| file | module | form |
|---|---|---|
| `crypto.dfy` | `Crypto` | the hashing and token libraries as abstract models |
| `http.dfy` | `Http` | responses, caught faults, the outcome of a middleware stage |
| `user_model.dfy` | `UserModel` | the user schema (models/user.js): defaults, validation, the pre-save hook, saving; the collection as a class `UserStore`, a document as a class `UserDocument` whose hook overwrites `password` in place |
| `auth.dfy` | `Auth` | middleware/auth.js: `split(" ")` as a function, the gate's decision, and the gate as a method that assigns `req.user` |
| `role.dfy` | `Role` | middleware/role.js: the role constants and `authorize(roles)` as a pure three-way decision |
| `app.dfy` | `App` | index.js: the register handler (a method on the live collection, specified by a function), login (a read-only function), the route chains |

Abstractions:

- **Password hashing** is symbolic. A hash output `Hashed(input, salt)` remembers what was
  hashed and with which salt; `Compare(p, h)` re-hashes `p` with the salt stored in `h` and
  checks for equality, which is how the hashing library's compare works. Consequently
  `Compare(p, Hash(c, s))` holds exactly when `c` is the plain text `p`
  (`Crypto.CompareHash`).
- **Randomness and library errors** of the hashing calls are parameters: each call is given a
  `HashDraw`, either the salt it drew or the error it raised.
- **Token signing and verification** are uninterpreted: a `Jwt` is any pair of functions
  `sign(claims, secret)` and `verify(token, secret)`, the latter returning `None` where the
  library throws. Lemmas that need a working library assume `Sound(jwt)`:
  `verify(sign(c, k), k) == Some(c)` and tokens are non-empty and free of spaces.
- **The collection** is a map from email to record plus a counter for identifiers; the
  store's unique index on email is the map's key.
- **Middleware outcomes** are `Step = Next | Halt(response)`, so on every path exactly one of
  "response sent" and "`next` called" happens.

The order inside a save is validation, then the pre-save hook, then the write: the document
library runs schema validation as its first pre-save step. A required string path is
satisfied only by a non-empty string. The role default applies only when the role is
absent; any role given and outside `["user", "admin"]` fails validation.

## Model

| member | source | states |
|---|---|---|
| `Crypto.CompareHash` | index.js:85 | the comparison accepts a hash exactly when what was hashed is the candidate password itself |
| `Crypto.CompareRejectsDoubleHash` | models/user.js:18-20 | a hash of a hash of a password never matches that password, whatever the salts |
| `UserModel.NewDocDefaults` | models/user.js:10-11 | a document built without a role has role "user"; every new document is active and unsaved |
| `UserModel.ValidationRules` | models/user.js:6-12 | validation passes iff name, email and password are present and non-empty and the role is in the enum; each failing path is reported |
| `UserModel.NewDoc` | models/user.js:6-12 | `new User({...})`: a new, unsaved document holding the given password, consistent (a given password counts as modified); role and `isActive` take their defaults |
| `UserModel.FailingPaths` | models/user.js:6-12 | the paths validation rejects, drawn from name, email, password and role only |
| `UserModel.HookResult` | models/user.js:15-27 | the hook changes nothing but the password, changes nothing at all when it fails, and never removes a password |
| `UserModel.SaveResult` | index.js:65 | `save()`: validation, hook, then insert or replacement; the counter grows by at most one; success leaves the document saved, with an identifier and its password no longer modified; failure keeps its saved state |
| `UserModel.HookSkipsUnmodified` | models/user.js:16 | the hook leaves an unmodified password and the whole document untouched |
| `UserModel.HookRehashesModified` | models/user.js:18-26 | a modified password becomes the hash of the old value with the fresh salt and nothing else changes; a hashing error aborts with that error and changes nothing |
| `UserModel.UniqueEmails` | models/user.js:8 | no two stored records share an email |
| `UserModel.SaveFailureChangesNothing` | models/user.js:23-26 | a save that fails validation, the hook or the write leaves the collection and counter unchanged |
| `UserModel.SaveSuccessTouchesOneRecord` | index.js:64-65 | a successful save writes the record under the document's email and no other |
| `UserModel.SaveKeepsConsistent` | models/user.js:15-27 | saving keeps the document invariant: a password that is not marked modified is a hash output |
| `UserModel.SaveKeepsInvariant` | models/user.js:6-27 | saving keeps the collection invariant: records keyed by their email, schema-conforming, password hashed at rest, identifiers unique |
| `UserModel.SaveTwiceKeepsHash` | models/user.js:16 | saving a second time without touching the password succeeds, does not re-hash it and leaves the collection as the first save left it |
| `UserModel.SaveAfterPasswordChange` | models/user.js:16-20 | assigning a new password to a saved document (as `SetPassword` does) and saving hashes it exactly once and rewrites that user's record under its identifier |
| `UserModel.UserStore.constructor` | models/user.js:29 | the collection starts empty, with the identifier counter at zero and its invariant holding |
| `UserModel.UserStore.Insert` | index.js:65 | the write of a new document: the record is added under its email with a fresh identifier, and the counter advances |
| `UserModel.UserStore.Replace` | index.js:65 | the write of a saved document: the record under its email is overwritten and the counter is unchanged |
| `UserModel.UserDocument.constructor` | index.js:64 | `new User({...})` builds the document with the schema defaults applied |
| `UserModel.UserDocument.SetPassword` | models/user.js:16 | assigning the password marks it modified and changes nothing else |
| `UserModel.UserDocument.PreSave` | models/user.js:15-27 | the hook overwrites the password in place exactly as `HookResult` prescribes |
| `UserModel.UserDocument.Save` | index.js:65 | saving changes the document, the collection and the counter exactly as `SaveResult` prescribes |
| `Auth.ExtractToken` | middleware/auth.js:8-9 | the token is the second field of `split(" ")`, kept only when truthy; an extracted token is non-empty and space-free and comes from a header containing a space |
| `Auth.AuthOutcome` | middleware/auth.js:5-26 | the gate's decision: a rejection is one of the two 401 responses, and a pass carries exactly the claims verification returned for the extracted token |
| `Auth.Split` | middleware/auth.js:8 | `split(" ")` gives at least one field, no field contains a space, and joining the fields with spaces gives back the header |
| `Auth.SplitNoSpace` | middleware/auth.js:8 | a string without spaces splits into itself alone |
| `Auth.SplitAtSpace` | middleware/auth.js:8 | splitting `a + " " + b` gives the fields of `a` followed by the fields of `b` |
| `Auth.TokenAfterAnyScheme` | middleware/auth.js:8 | the token is the second space-separated field whatever the first word is; later fields are ignored |
| `Auth.TokenShape` | middleware/auth.js:8-9 | an extracted token is non-empty and space-free, and the header is first word, one space, token, then nothing or a space and the rest |
| `Auth.NoTokenCases` | middleware/auth.js:8-13 | no header, an empty header, a lone word, or a word followed by two spaces yield no token |
| `Auth.AuthOutcomeCases` | middleware/auth.js:5-26 | rejection is always 401; "no token" iff no token is extracted; "invalid token" iff verification fails; otherwise the claims passed on are exactly the verified ones |
| `Auth.SchemeIgnored` | middleware/auth.js:8 | two headers that differ only in their first word get the same decision, whatever follows that word, including nothing at all |
| `Auth.SignedTokenAuthenticates` | middleware/auth.js:16-22 | a token signed with the server's secret, sent as `Bearer <token>`, passes with exactly its claims |
| `Auth.Request.constructor` | middleware/auth.js:8 | a request carries the given Authorization header and no user yet |
| `Auth.Authenticate` | middleware/auth.js:5-26 | on success `req.user` becomes the claims and `next` is the outcome; on failure the 401 response is sent and `req.user` is untouched |
| `Role.Authorize` | middleware/role.js:8-18 | `authorize(roles)`: `next` exactly when a user is attached and its role is in `roles`, otherwise a 401 or 403 response |
| `Role.UnauthenticatedFirst` | middleware/role.js:9-11 | without `req.user` the answer is 401 "Not authenticated" whatever roles are permitted |
| `Role.AuthorizeDecides` | middleware/role.js:13-17 | an authenticated user passes iff its role is permitted, else 403 "Forbidden: Insufficient role" |
| `Role.AdminOnly` | middleware/role.js:3-6 | `authorize([ROLE.ADMIN])` admits role "admin" and refuses role "user" with 403 |
| `App.SaveNewUser` | index.js:64-69 | building and saving the new document answers 201 (exactly one new key, the counter advanced) or 500 with the collection unchanged |
| `App.RegisterOutcome` | index.js:45-71 | the register handler as written: 201, 400 or 500; any answer but 201 leaves the collection unchanged; 201 only for an email that was not stored |
| `App.CorrectedRegisterOutcome` | index.js:45-71 | the register handler with the password hashed once, by the hook; same status and unchanged-on-failure guarantees |
| `App.Register` | index.js:45-71 | the handler's response and the collection afterwards are those of `RegisterOutcome`, and the collection invariant is kept |
| `App.RegisterRequiresFields` | index.js:50-52 | a missing or empty name, email or password gives 400 "All fields are required" and changes nothing |
| `App.RegisterRefusesKnownEmail` | index.js:55-58 | a known email gives 400 "User already exists" and changes nothing, whatever the other fields |
| `App.RegisterSucceeds` | index.js:61-67 | 201 iff fields present, email new, role absent or in the enum, both hashing calls succeed; then only a message is returned and exactly one record is added, holding the hook's hash of the handler's hash |
| `App.RegisterRejectsUnknownRole` | index.js:68-69 | a role outside the enum fails validation, answered with 500, nothing stored |
| `App.RegisterPreservesInvariant` | index.js:45-71 | registration keeps unique emails, unique identifiers and hashed-at-rest passwords |
| `App.FindByEmail` | index.js:79 | `User.findOne({ email })` finds a record exactly when the email is given and stored, and then it is that email's record |
| `App.Login` | index.js:74-105 | the login handler: 200, 400 or 500; every 400 is the generic message; 500 only for a known email sent without a password; 200 only with a token for a stored user |
| `App.LoginMissingPasswordRevealsAccount` | index.js:80-103 | as written, a body without a password gets 500 for a known email and the generic 400 for an unknown one |
| `App.CorrectedLogin` | index.js:74-105 | the login handler with a missing password treated as a mismatch: 200 with a token, or the generic 400 |
| `App.CorrectedLoginIndistinguishable` | index.js:80-91 | the corrected login fails only with the generic 400, whatever the cause, and agrees with the handler as written whenever a password is sent |
| `App.LoginFailuresIndistinguishable` | index.js:79-91 | an unknown email and a wrong password both give the same 400 "Invalid email or password" |
| `App.LoginSucceeds` | index.js:94-100 | 200 iff the email is known and the password matches; the token is signed over exactly that user's id and role; statuses are 200, 400 or 500 |
| `App.LoginIgnoresIsActive` | models/user.js:11 | changing `isActive` on any record changes no login response |
| `App.LoginAfterRegisterFails` | index.js:84-91 | after a successful registration as written, logging in with the same pair gives 400 |
| `App.LoginAfterCorrectedRegisterSucceeds` | index.js:84-100 | after a successful corrected registration the password is hashed once and logging in with the same pair gives 200 with the new record's claims |
| `App.RouteResponse` | index.js:108-121 | a route's chain answers 200, 401 or 403; 403 only on `/admin`; 200 with that route's message and the claims |
| `App.Serve` | index.js:108-121 | running a route's chain on a request gives `RouteResponse` and sets `req.user` only on successful authentication |
| `App.AdminRequiresAdminRole` | index.js:116-121 | `/admin` gives 200 iff the token verifies with role "admin"; another role gets 403 |
| `App.AuthenticatedRoutesPassVerified` | index.js:108-113 | `/dashboard` and `/protected` give 200 with the claims iff the token verifies, else 401 |
| `App.BadTokenNever200` | index.js:108 | a missing or malformed header or a token failing verification gets 401 on every route |
| `App.NewUserDeniedAdmin` | index.js:116 | a user registered without a role who logs in (both corrected handlers) gets 403 from `/admin` and 200 with its claims from `/dashboard` |

## Findings

| source | as written | input that shows it | evidently intended | confidence | as-written member | corrected member |
|---|---|---|---|---|---|---|
| index.js:61 | the handler hashes the password, then the pre-save hook (models/user.js:16-20) hashes that hash again, because a new document's password counts as modified | register `{name: "A", email: "a@x.com", password: "secret1"}` gives 201; login `{email: "a@x.com", password: "secret1"}` then gives 400 "Invalid email or password" | the password is hashed once, so logging in with the registered pair gives 200 with a token | high; not executed | `App.LoginAfterRegisterFails` | `App.LoginAfterCorrectedRegisterSucceeds` |
| index.js:85 | a known email sent without a password reaches the compare, which rejects, and the catch at index.js:101-103 answers 500; an unknown email is answered 400 at index.js:80-82 | login `{email: "a@x.com"}` gives 500 when that account exists and 400 "Invalid email or password" when it does not, so accounts can be enumerated | every failed login, including a missing password, gives the same 400 so that account existence does not leak | high; not executed | `App.LoginMissingPasswordRevealsAccount` | `App.CorrectedLoginIndistinguishable` |

`App.RegisterOutcome`, `App.Register` and `App.Login` keep the handlers as written.
`App.CorrectedRegisterOutcome` drops the handler's hash and lets the hook hash once;
`App.CorrectedLogin` treats a missing password as a mismatch. The end-to-end lemma
`App.NewUserDeniedAdmin` uses both.

## Left out

- Hashing internals (cost factor, salt generation, the 72-byte input limit, constant-time comparison) are replaced by the symbolic model above. That model assumes text a client sends never equals a hash output; in reality a client who sent the intermediate hash of the finding as its password would log in.
- Token signing and verification internals, the `iat`/`exp` claims and the one-hour expiry (wall-clock time) are left to the uninterpreted `verify`; `Sound` ignores expiry.
- Claims are always an identifier and a role string; a verified payload without a role, or one that is not an object, is not modelled.
- Request body fields are either absent or strings; numbers, booleans, `null` and objects (their truthiness, the document library's casting, and query operators inside a filter) are not modelled.
- A login body without an email is taken to match no record; the database's treatment of an undefined filter value is not modelled.
- Database I/O failures: the 500 answers they cause in both handlers are left out. Login's modelled 500 is the one a missing password causes, where the hashing library's compare rejects.
- The text of a caught fault: a register 500 carries the fault itself (`ErrorOf`), not the document library's message string.
- Saving an already saved document looks its record up by email and then checks the identifier. The document library matches by identifier alone. The two agree because no operation changes a saved document's email and identifiers are never reused. No handler re-saves a document; only `UserModel.SaveTwiceKeepsHash` and `UserModel.SaveAfterPasswordChange` exercise this path.
- Identifiers are drawn from a counter at insert time rather than generated when the document is built.
- The race between the email lookup and the insert across concurrent requests. The store's unique index, modelled in `SaveResult` as `DuplicateKey`, would resolve it, but sequentially it cannot be reached from registration.
- Startup (environment checks and `process.exit`), the server bootstrap, the root greeting route, the database connection, console logging, and the bulk-delete maintenance script (clearUsers.js), which is only I/O.
