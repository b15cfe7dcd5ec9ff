/** The request handlers and route chains of index.js: `POST /register`, `POST /login`, and
    the authenticated routes `/protected`, `/dashboard` and `/admin`. */
module App {
  import opened Wrappers
  import opened Crypto
  import opened Http
  import opened UserModel
  import Auth
  import Role

  const AllFieldsRequired: string := "All fields are required"
  const UserExists: string := "User already exists"
  const UserRegistered: string := "User registered successfully"
  const InvalidCredentials: string := "Invalid email or password"
  const LoginSuccessful: string := "Login successful"
  const InternalError: string := "An internal server error occurred"

  /** The JSON bodies the two handlers destructure; a field the client left out is None. */
  datatype RegisterBody = RegisterBody(name: Option<string>, email: Option<string>, password: Option<string>, role: Option<string>)
  datatype LoginBody = LoginBody(email: Option<string>, password: Option<string>)

  /** JavaScript truthiness of a string field: present and non-empty. */
  predicate Truthy(s: Option<string>) {
    s.Some? && s.value != ""
  }

  /** The response of a registration, and the collection and identifier counter after it. */
  datatype Registered = Registered(response: Response, users: map<string, User>, nextId: Id)

  /** Build the new user document with the given password and save it: 201 on success,
      500 with the fault otherwise. */
  function SaveNewUser(users: map<string, User>, nextId: Id, body: RegisterBody, password: Credential, hookDraw: HashDraw): (r: Registered)
    ensures r.response.status == 201 || r.response.status == 500
    ensures r.response.status == 500 ==> r.users == users && r.nextId == nextId
    ensures r.response.status == 201 ==>
      body.email.Some? && r.users.Keys == users.Keys + {body.email.value} && r.nextId == nextId + 1
  {
    var doc := NewDoc(body.name, body.email, Some(password), body.role);
    var saved := SaveResult(doc, users, nextId, hookDraw);
    if saved.error.Some? then Registered(Response(500, ErrorOf(saved.error.value)), saved.users, saved.nextId)
    else Registered(Response(201, Message(UserRegistered)), saved.users, saved.nextId)
  }

  /** `POST /register` as written: check the fields, look the email up, hash the password
      (`handlerDraw` is that call into the hashing library), then save the document, whose
      pre-save hook hashes the password again (`hookDraw`). */
  function RegisterOutcome(users: map<string, User>, nextId: Id, body: RegisterBody, handlerDraw: HashDraw, hookDraw: HashDraw): (r: Registered)
    ensures r.response.status in {201, 400, 500}
    ensures r.response.status != 201 ==> r.users == users && r.nextId == nextId
    ensures r.response.status == 201 ==> body.email.Some? && body.email.value !in users
  {
    if !(Truthy(body.name) && Truthy(body.email) && Truthy(body.password)) then
      Registered(Response(400, Message(AllFieldsRequired)), users, nextId)
    else if body.email.value in users then
      Registered(Response(400, Message(UserExists)), users, nextId)
    else
      match handlerDraw
      case Faulted(reason) => Registered(Response(500, ErrorOf(HashFailed(reason))), users, nextId)
      case Salted(salt) => SaveNewUser(users, nextId, body, Hash(Plain(body.password.value), salt), hookDraw)
  }

  /** `POST /register` as evidently intended: the handler passes the password as sent and the
      pre-save hook is the one place it is hashed. */
  function CorrectedRegisterOutcome(users: map<string, User>, nextId: Id, body: RegisterBody, hookDraw: HashDraw): (r: Registered)
    ensures r.response.status in {201, 400, 500}
    ensures r.response.status != 201 ==> r.users == users && r.nextId == nextId
    ensures r.response.status == 201 ==> body.email.Some? && body.email.value !in users
  {
    if !(Truthy(body.name) && Truthy(body.email) && Truthy(body.password)) then
      Registered(Response(400, Message(AllFieldsRequired)), users, nextId)
    else if body.email.value in users then
      Registered(Response(400, Message(UserExists)), users, nextId)
    else SaveNewUser(users, nextId, body, Plain(body.password.value), hookDraw)
  }

  /** The handler itself, on the live collection. */
  method Register(store: UserStore, body: RegisterBody, handlerDraw: HashDraw, hookDraw: HashDraw) returns (response: Response)
    modifies store
    ensures Registered(response, store.users, store.nextId)
         == RegisterOutcome(old(store.users), old(store.nextId), body, handlerDraw, hookDraw)
    ensures old(store.Valid()) ==> store.Valid()
  {
    if store.Valid() {
      RegisterPreservesInvariant(store.users, store.nextId, body, handlerDraw, hookDraw);
    }
    if !Truthy(body.name) || !Truthy(body.email) || !Truthy(body.password) {
      return Response(400, Message(AllFieldsRequired));
    }
    var existing := FindByEmail(store.users, body.email);
    if existing.Some? {
      return Response(400, Message(UserExists));
    }
    match handlerDraw
    case Faulted(reason) =>
      return Response(500, ErrorOf(HashFailed(reason)));
    case Salted(salt) =>
      var hashedPassword := Hash(Plain(body.password.value), salt);
      var user := new UserDocument(body.name, body.email, Some(hashedPassword), body.role);
      var error := user.Save(store, hookDraw);
      if error.Some? {
        return Response(500, ErrorOf(error.value));
      }
      response := Response(201, Message(UserRegistered));
  }

  /** A missing or empty name, email or password is refused with 400 and changes nothing. */
  lemma RegisterRequiresFields(users: map<string, User>, nextId: Id, body: RegisterBody, handlerDraw: HashDraw, hookDraw: HashDraw)
    requires !Truthy(body.name) || !Truthy(body.email) || !Truthy(body.password)
    ensures RegisterOutcome(users, nextId, body, handlerDraw, hookDraw)
         == Registered(Response(400, Message(AllFieldsRequired)), users, nextId)
  {
  }

  /** A known email is refused with 400 and changes nothing, whatever the other fields and
      whatever the hashing library would do. */
  lemma RegisterRefusesKnownEmail(users: map<string, User>, nextId: Id, body: RegisterBody, handlerDraw: HashDraw, hookDraw: HashDraw)
    requires Truthy(body.name) && Truthy(body.email) && Truthy(body.password)
    requires body.email.value in users
    ensures RegisterOutcome(users, nextId, body, handlerDraw, hookDraw)
         == Registered(Response(400, Message(UserExists)), users, nextId)
  {
  }

  /** Registration succeeds exactly when the fields are present, the email is new, the role
      is absent or in the enum and both hashing calls succeed. Then the response is 201 with
      only a message, and the collection gains exactly one record, under that email, whose
      password is the hook's hash of the handler's hash; every other record is unchanged. */
  lemma RegisterSucceeds(users: map<string, User>, nextId: Id, body: RegisterBody, handlerDraw: HashDraw, hookDraw: HashDraw)
    ensures RegisterOutcome(users, nextId, body, handlerDraw, hookDraw).response.status == 201 <==>
      && Truthy(body.name) && Truthy(body.email) && Truthy(body.password)
      && body.email.value !in users
      && (body.role.None? || body.role.value in RoleEnum)
      && handlerDraw.Salted? && hookDraw.Salted?
    ensures RegisterOutcome(users, nextId, body, handlerDraw, hookDraw).response.status == 201 ==>
      RegisterOutcome(users, nextId, body, handlerDraw, hookDraw) == Registered(
        Response(201, Message(UserRegistered)),
        users[body.email.value := User(nextId, body.name.value, body.email.value,
                                       Hash(Hash(Plain(body.password.value), handlerDraw.salt), hookDraw.salt),
                                       body.role.GetOr("user"), true)],
        nextId + 1)
  {
    if Truthy(body.name) && Truthy(body.email) && Truthy(body.password) && body.email.value !in users && handlerDraw.Salted? {
      var d := NewDoc(body.name, body.email, Some(Hash(Plain(body.password.value), handlerDraw.salt)), body.role);
      ValidationRules(d);
    }
  }

  /** A role outside the enum fails validation, which the handler answers with 500; nothing
      is stored. */
  lemma RegisterRejectsUnknownRole(users: map<string, User>, nextId: Id, body: RegisterBody, salt: Salt, hookDraw: HashDraw)
    requires Truthy(body.name) && Truthy(body.email) && Truthy(body.password)
    requires body.email.value !in users
    requires body.role.Some? && body.role.value !in RoleEnum
    ensures RegisterOutcome(users, nextId, body, Salted(salt), hookDraw)
         == Registered(Response(500, ErrorOf(ValidationFailed({"role"}))), users, nextId)
  {
    var d := NewDoc(body.name, body.email, Some(Hash(Plain(body.password.value), salt)), body.role);
    assert FailingPaths(d) == {"role"};
  }

  /** Registration keeps the collection's invariant, so no record ever holds a plaintext
      password and no two records share an email. */
  lemma RegisterPreservesInvariant(users: map<string, User>, nextId: Id, body: RegisterBody, handlerDraw: HashDraw, hookDraw: HashDraw)
    requires StoreInvariant(users, nextId)
    ensures StoreInvariant(RegisterOutcome(users, nextId, body, handlerDraw, hookDraw).users,
                           RegisterOutcome(users, nextId, body, handlerDraw, hookDraw).nextId)
  {
    if Truthy(body.name) && Truthy(body.email) && Truthy(body.password) && body.email.value !in users && handlerDraw.Salted? {
      SaveKeepsInvariant(NewDoc(body.name, body.email, Some(Hash(Plain(body.password.value), handlerDraw.salt)), body.role),
                         users, nextId, hookDraw);
    }
  }

  /** `User.findOne({ email })`. A body without an email matches no record. */
  function FindByEmail(users: map<string, User>, email: Option<string>): (found: Option<User>)
    ensures found.Some? <==> email.Some? && email.value in users
    ensures found.Some? ==> found.value == users[email.value]
  {
    if email.Some? && email.value in users then Some(users[email.value]) else None
  }

  /** `POST /login`, a read-only lookup followed by a comparison. A missing password makes
      the hashing library's compare throw, which is answered with 500. */
  function Login(users: map<string, User>, body: LoginBody, jwt: Jwt, secret: string): (r: Response)
    ensures r.status in {200, 400, 500}
    ensures r.status == 400 ==> r.body == Message(InvalidCredentials)
    ensures r.status == 500 ==> body.email.Some? && body.email.value in users && body.password.None?
    ensures r.status == 200 ==> r.body.LoginToken? && FindByEmail(users, body.email).Some?
  {
    match FindByEmail(users, body.email)
    case None => Response(400, Message(InvalidCredentials))
    case Some(user) =>
      if body.password.None? then Response(500, ErrorText(InternalError))
      else if !Compare(body.password.value, user.password) then Response(400, Message(InvalidCredentials))
      else Response(200, LoginToken(LoginSuccessful, jwt.sign(Claims(user.id, user.role), secret)))
  }

  /** An unknown email and a wrong password give the same response: 400 with the generic
      message. */
  lemma LoginFailuresIndistinguishable(users: map<string, User>, body: LoginBody, jwt: Jwt, secret: string)
    ensures FindByEmail(users, body.email).None? ==>
      Login(users, body, jwt, secret) == Response(400, Message(InvalidCredentials))
    ensures (FindByEmail(users, body.email).Some? && body.password.Some?
             && !Compare(body.password.value, FindByEmail(users, body.email).value.password)) ==>
      Login(users, body, jwt, secret) == Response(400, Message(InvalidCredentials))
  {
  }

  /** As written, a body without a password tells accounts apart: a known email is answered
      with 500 (the hashing library's compare rejects), an unknown one with the generic 400. */
  lemma LoginMissingPasswordRevealsAccount(users: map<string, User>, known: string, unknown: string, jwt: Jwt, secret: string)
    requires known in users && unknown !in users
    ensures Login(users, LoginBody(Some(known), None), jwt, secret) == Response(500, ErrorText(InternalError))
    ensures Login(users, LoginBody(Some(unknown), None), jwt, secret) == Response(400, Message(InvalidCredentials))
  {
  }

  /** `POST /login` as evidently intended: a missing password is a mismatch like any other. */
  function CorrectedLogin(users: map<string, User>, body: LoginBody, jwt: Jwt, secret: string): (r: Response)
    ensures r.status == 200 || r == Response(400, Message(InvalidCredentials))
    ensures r.status == 200 ==> r.body.LoginToken? && FindByEmail(users, body.email).Some?
  {
    match FindByEmail(users, body.email)
    case None => Response(400, Message(InvalidCredentials))
    case Some(user) =>
      if body.password.None? || !Compare(body.password.value, user.password) then Response(400, Message(InvalidCredentials))
      else Response(200, LoginToken(LoginSuccessful, jwt.sign(Claims(user.id, user.role), secret)))
  }

  /** The corrected login fails in one way only, whatever the cause (unknown email, missing
      password, wrong password), and otherwise answers exactly as the handler as written does. */
  lemma CorrectedLoginIndistinguishable(users: map<string, User>, body: LoginBody, jwt: Jwt, secret: string)
    ensures CorrectedLogin(users, body, jwt, secret).status != 200 ==>
      CorrectedLogin(users, body, jwt, secret) == Response(400, Message(InvalidCredentials))
    ensures CorrectedLogin(users, body, jwt, secret).status == 200 <==> Login(users, body, jwt, secret).status == 200
    ensures body.password.Some? ==> CorrectedLogin(users, body, jwt, secret) == Login(users, body, jwt, secret)
  {
  }

  /** Login succeeds exactly when the email is known and the password matches the stored
      hash; it then returns 200 with a token signed over exactly that user's id and role. */
  lemma LoginSucceeds(users: map<string, User>, body: LoginBody, jwt: Jwt, secret: string)
    ensures Login(users, body, jwt, secret).status == 200 <==>
      && body.email.Some? && body.email.value in users && body.password.Some?
      && Compare(body.password.value, users[body.email.value].password)
    ensures Login(users, body, jwt, secret).status == 200 ==>
      Login(users, body, jwt, secret) == Response(200, LoginToken(LoginSuccessful,
        jwt.sign(Claims(users[body.email.value].id, users[body.email.value].role), secret)))
    ensures Login(users, body, jwt, secret).status in {200, 400, 500}
  {
  }

  /** `isActive` is never read: flipping it on any record changes no login response. */
  lemma LoginIgnoresIsActive(users: map<string, User>, e: string, active: bool, body: LoginBody, jwt: Jwt, secret: string)
    requires e in users
    ensures Login(users[e := users[e].(isActive := active)], body, jwt, secret) == Login(users, body, jwt, secret)
  {
  }

  /** Logging in with the pair just registered, as the handler is written, always fails:
      the stored value is a hash of a hash, which no password matches. */
  lemma LoginAfterRegisterFails(users: map<string, User>, nextId: Id, body: RegisterBody, handlerDraw: HashDraw, hookDraw: HashDraw, jwt: Jwt, secret: string)
    requires RegisterOutcome(users, nextId, body, handlerDraw, hookDraw).response.status == 201
    ensures Login(RegisterOutcome(users, nextId, body, handlerDraw, hookDraw).users,
                  LoginBody(body.email, body.password), jwt, secret)
         == Response(400, Message(InvalidCredentials))
  {
    RegisterSucceeds(users, nextId, body, handlerDraw, hookDraw);
    CompareRejectsDoubleHash(body.password.value, handlerDraw.salt, hookDraw.salt);
  }

  /** With the corrected handler, a successful registration stores the password hashed once,
      and logging in with the same pair succeeds with a token over the new record's id and role. */
  lemma LoginAfterCorrectedRegisterSucceeds(users: map<string, User>, nextId: Id, body: RegisterBody, hookDraw: HashDraw, jwt: Jwt, secret: string)
    requires CorrectedRegisterOutcome(users, nextId, body, hookDraw).response.status == 201
    ensures body.email.Some? && body.password.Some? && hookDraw.Salted?
    ensures CorrectedRegisterOutcome(users, nextId, body, hookDraw).users[body.email.value].password
         == Hash(Plain(body.password.value), hookDraw.salt)
    ensures Login(CorrectedRegisterOutcome(users, nextId, body, hookDraw).users,
                  LoginBody(body.email, body.password), jwt, secret)
         == Response(200, LoginToken(LoginSuccessful, jwt.sign(Claims(nextId, body.role.GetOr("user")), secret)))
  {
    var d := NewDoc(body.name, body.email, Some(Plain(body.password.value)), body.role);
    ValidationRules(d);
    CompareHash(body.password.value, Plain(body.password.value), hookDraw.salt);
  }

  /** The three authenticated routes. */
  datatype Route = Protected | Dashboard | Admin

  /** The message each route's final handler sends with the user's claims. */
  function Greeting(route: Route): string {
    match route
    case Protected => "This is a protected route"
    case Dashboard => "Welcome to the dashboard!"
    case Admin => "Welcome to the Admin Dashboard!"
  }

  /** The chain of a route: authenticate, then (for `/admin` only) authorize admins, then the
      handler, which answers 200 with the claims. Each stage ends the chain on failure. */
  function RouteResponse(route: Route, authorization: Option<string>, jwt: Jwt, secret: string): (r: Response)
    ensures r.status in {200, 401, 403}
    ensures r.status == 403 ==> route == Admin
    ensures r.status == 200 ==> r.body.UserInfo? && r.body.message == Greeting(route)
  {
    match Auth.AuthOutcome(authorization, jwt, secret)
    case Rejected(response) => response
    case Authenticated(claims) =>
      var gate := if route == Admin then Role.Authorize([Role.AdminRole], Some(claims)) else Next;
      match gate
      case Halt(response) => response
      case Next => Response(200, UserInfo(Greeting(route), claims))
  }

  /** The chain run on a live request: the authentication gate writes `req.user`, the later
      stages read it. */
  method Serve(route: Route, req: Auth.Request, jwt: Jwt, secret: string) returns (response: Response)
    modifies req`user
    ensures response == RouteResponse(route, req.authorization, jwt, secret)
    ensures match Auth.AuthOutcome(req.authorization, jwt, secret)
            case Authenticated(claims) => req.user == Some(claims)
            case Rejected(_) => req.user == old(req.user)
  {
    var step := Auth.Authenticate(req, jwt, secret);
    if step.Halt? {
      return step.response;
    }
    if route == Admin {
      var gate := Role.Authorize([Role.AdminRole], req.user);
      if gate.Halt? {
        return gate.response;
      }
    }
    response := Response(200, UserInfo(Greeting(route), req.user.value));
  }

  /** `/admin` answers 200 exactly when the token verifies and its role is "admin"; a
      verified token with another role gets 403. */
  lemma AdminRequiresAdminRole(authorization: Option<string>, jwt: Jwt, secret: string)
    ensures RouteResponse(Admin, authorization, jwt, secret).status == 200 <==>
      Auth.AuthOutcome(authorization, jwt, secret).Authenticated?
      && Auth.AuthOutcome(authorization, jwt, secret).claims.role == "admin"
    ensures (Auth.AuthOutcome(authorization, jwt, secret).Authenticated?
             && Auth.AuthOutcome(authorization, jwt, secret).claims.role != "admin") ==>
      RouteResponse(Admin, authorization, jwt, secret) == Response(403, Message(Role.ForbiddenMessage))
  {
  }

  /** `/dashboard` and `/protected` answer 200 with the claims for every verified token, and
      401 otherwise. */
  lemma AuthenticatedRoutesPassVerified(route: Route, authorization: Option<string>, jwt: Jwt, secret: string)
    requires route != Admin
    ensures RouteResponse(route, authorization, jwt, secret).status == 200 <==>
      Auth.AuthOutcome(authorization, jwt, secret).Authenticated?
    ensures Auth.AuthOutcome(authorization, jwt, secret).Authenticated? ==>
      RouteResponse(route, authorization, jwt, secret)
      == Response(200, UserInfo(Greeting(route), Auth.AuthOutcome(authorization, jwt, secret).claims))
    ensures Auth.AuthOutcome(authorization, jwt, secret).Rejected? ==>
      RouteResponse(route, authorization, jwt, secret).status == 401
  {
  }

  /** A missing or malformed header, or a token that fails verification, gets 401 on every
      route, never 200. */
  lemma BadTokenNever200(route: Route, authorization: Option<string>, jwt: Jwt, secret: string)
    requires Auth.ExtractToken(authorization).None?
          || jwt.verify(Auth.ExtractToken(authorization).value, secret).None?
    ensures RouteResponse(route, authorization, jwt, secret).status == 401
  {
  }

  /** The walk-through of a fresh account with the corrected handlers: register without a
      role, log in with the same pair, present the token as `Bearer <token>`: `/admin` answers
      403 and `/dashboard` answers 200 with the new user's claims. */
  lemma NewUserDeniedAdmin(users: map<string, User>, nextId: Id, body: RegisterBody, hookDraw: HashDraw, jwt: Jwt, secret: string)
    requires Sound(jwt)
    requires body.role.None?
    requires CorrectedRegisterOutcome(users, nextId, body, hookDraw).response.status == 201
    ensures
      var login := CorrectedLogin(CorrectedRegisterOutcome(users, nextId, body, hookDraw).users,
                                  LoginBody(body.email, body.password), jwt, secret);
      && login.status == 200
      && RouteResponse(Admin, Some("Bearer " + login.body.token), jwt, secret).status == 403
      && RouteResponse(Dashboard, Some("Bearer " + login.body.token), jwt, secret)
         == Response(200, UserInfo(Greeting(Dashboard), Claims(nextId, "user")))
  {
    LoginAfterCorrectedRegisterSucceeds(users, nextId, body, hookDraw, jwt, secret);
    Auth.SignedTokenAuthenticates(Claims(nextId, "user"), jwt, secret);
  }
}
