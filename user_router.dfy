/**
  The user routes: where the session token is read from, how the auth
  middleware classifies what `jwt.verify` makes of it, the admin-code
  guard in front of registration, and which routes sit behind the
  middleware. `jwt.verify` (with its secret and clock) is a function
  parameter, as are the configured admin code and everything else the
  handlers take from outside.
*/
module UserRouter {
  import opened Wrappers
  import opened Text
  import opened UserModel
  import opened UserController
  import AccountStore

  /** What `jwt.verify` makes of a token: its payload, or the kind (`err.name`) of the error it throws. */
  datatype VerifyResult =
    | Decoded(claims: Claims)
    | TokenExpiredError
    | JsonWebTokenError
    | OtherError

  /** Where a request may carry the token: the `token` cookie and the `authorization` header. */
  datatype Presented = Presented(cookie: Option<string>, authorization: Option<string>)

  const BearerPrefix := "Bearer "

  /**
    `req.cookies?.token || req.headers['authorization']?.replace('Bearer ', '')`,
    with None standing for every falsy result. A non-empty cookie wins; else
    the header with its first 'Bearer ' removed.
  */
  function TokenOf(p: Presented): (t: Option<string>)
    ensures t.Some? ==> t.value != ""
    ensures Truthy(p.cookie) ==> t == p.cookie
    ensures !Truthy(p.cookie) && p.authorization.None? ==> t.None?
    ensures !Truthy(p.cookie) && p.authorization.Some? ==>
      var stripped := ReplaceFirst(p.authorization.value, BearerPrefix, "");
      t == (if stripped == "" then None else Some(stripped))
  {
    if Truthy(p.cookie) then
      p.cookie
    else
      match p.authorization
      case None => None
      case Some(h) =>
        var stripped := ReplaceFirst(h, BearerPrefix, "");
        if stripped == "" then None else Some(stripped)
  }

  /** A header of the form 'Bearer <x>' yields exactly `x`. */
  lemma StripsBearerPrefix(x: string)
    ensures ReplaceFirst(BearerPrefix + x, BearerPrefix, "") == x
  {
    var h := BearerPrefix + x;
    assert h[..|BearerPrefix|] == BearerPrefix;
    assert OccursAt(h, BearerPrefix, 0);
    assert IndexOf(h, BearerPrefix) == Some(0);
  }

  /** Without a cookie, 'Bearer <x>' presents `x`, and an empty `x` is no token at all. */
  lemma BearerHeaderToken(cookie: Option<string>, x: string)
    requires !Truthy(cookie)
    ensures TokenOf(Presented(cookie, Some(BearerPrefix + x))) == (if x == "" then None else Some(x))
  {
    StripsBearerPrefix(x);
  }

  /** A header without 'Bearer ' in it is presented as it is. */
  lemma BareHeaderToken(cookie: Option<string>, h: string)
    requires !Truthy(cookie) && h != "" && !Contains(h, BearerPrefix)
    ensures TokenOf(Presented(cookie, Some(h))) == Some(h)
  {
  }

  /** The middleware either admits the request with the decoded claims as `req.user`, or answers it. */
  datatype Gate = Admit(user: Claims) | Refuse(response: Response)

  const NoToken := "No token provided"
  const TokenExpired := "Token expired"
  const InvalidToken := "Invalid token"
  const JwtError := "JWT error"

  /**
    `authMiddleware`: no token gets 401 without calling `verify`; a token
    that verifies admits the request carrying the whole decoded payload;
    an expired token gets 401, a malformed one 400 and any other failure
    400.
  */
  function Authenticate(p: Presented, verify: string -> VerifyResult): (g: Gate)
    ensures TokenOf(p).None? ==> g == Refuse(Response(401, Message(NoToken)))
    ensures g.Admit? <==> TokenOf(p).Some? && verify(TokenOf(p).value).Decoded?
    ensures g.Admit? ==> g.user == verify(TokenOf(p).value).claims
    ensures TokenOf(p).Some? && verify(TokenOf(p).value) == TokenExpiredError ==>
      g == Refuse(Response(401, Message(TokenExpired)))
    ensures TokenOf(p).Some? && verify(TokenOf(p).value) == JsonWebTokenError ==>
      g == Refuse(Response(400, Message(InvalidToken)))
    ensures TokenOf(p).Some? && verify(TokenOf(p).value) == OtherError ==>
      g == Refuse(Response(400, Message(JwtError)))
    ensures g.Refuse? ==> g.response.status in {400, 401}
    ensures g.Refuse? && g.response.status == 401 <==>
      TokenOf(p).None? || verify(TokenOf(p).value) == TokenExpiredError
  {
    match TokenOf(p)
    case None => Refuse(Response(401, Message(NoToken)))
    case Some(token) =>
      match verify(token)
      case Decoded(claims) => Admit(claims)
      case TokenExpiredError => Refuse(Response(401, Message(TokenExpired)))
      case JsonWebTokenError => Refuse(Response(400, Message(InvalidToken)))
      case OtherError => Refuse(Response(400, Message(JwtError)))
  }

  /** A request without a token is turned away the same way whatever `verify` would have said. */
  lemma NoTokenNeverVerified(p: Presented, verify1: string -> VerifyResult, verify2: string -> VerifyResult)
    requires TokenOf(p).None?
    ensures Authenticate(p, verify1) == Authenticate(p, verify2)
  {
  }

  /** With a non-empty cookie, the header plays no part. */
  lemma CookieOverridesHeader(cookie: string, h1: Option<string>, h2: Option<string>, verify: string -> VerifyResult)
    requires cookie != ""
    ensures Authenticate(Presented(Some(cookie), h1), verify) == Authenticate(Presented(Some(cookie), h2), verify)
  {
  }

  const InvalidAdminCode := "Invalid admin code."

  /**
    The guard on `/register`: a manager registration passes only with a
    truthy admin code equal to the configured one (`process.env.ADMIN_CODE`,
    None when unset); any other role passes untouched.
  */
  predicate AdminCodeAccepted(body: Body, configured: Option<string>) {
    Lookup(body, "role") == Some("manager") ==>
      Truthy(Lookup(body, "adminCode")) && Lookup(body, "adminCode") == configured
  }

  /** With no code configured, no manager can register. */
  lemma UnsetAdminCodeBlocksManagers(body: Body)
    requires Lookup(body, "role") == Some("manager")
    ensures !AdminCodeAccepted(body, None)
  {
  }

  /** The routes of the user router, with their path parameters. */
  datatype Endpoint =
    | PostRegister
    | PostLogin
    | PostForgotPassword
    | PostResetPassword(token: string)
    | GetEmployeesRoute
    | PostEmployee
    | PutEmployee(id: UserId)
    | DeleteEmployeeRoute(id: UserId)
    | GetMe

  datatype Request = Request(endpoint: Endpoint, presented: Presented, body: Body)

  /**
    Everything a handler takes from outside the request: the clock, the
    salt and the reset secret the libraries would draw, whether the mail
    goes out, the configured admin code and the token verifier.
  */
  datatype Env = Env(now: int, salt: Salt, secret: string, mailDelivered: bool,
                     adminCode: Option<string>, verify: string -> VerifyResult)

  /** The routes mounted behind `authMiddleware`. */
  predicate Protected(e: Endpoint) {
    e.GetEmployeesRoute? || e.PostEmployee? || e.PutEmployee? || e.DeleteEmployeeRoute? || e.GetMe?
  }

  /** The handler a route runs once the request got through the middleware. */
  function Dispatch(libs: Libraries, db: Table, env: Env, e: Endpoint, user: Claims, body: Body): (r: Outcome)
    ensures WellFormed(db) ==> WellFormed(r.db)
    ensures e.PostLogin? || e.GetEmployeesRoute? || e.GetMe? ==> r.db == db
    ensures e.PostRegister? && !AdminCodeAccepted(body, env.adminCode) ==>
      r == Outcome(Response(403, Message(InvalidAdminCode)), db)
    ensures (e.PostEmployee? || e.PutEmployee? || e.DeleteEmployeeRoute?) && !IsManager(user) ==>
      r == Outcome(Response(403, Message(Forbidden)), db)
  {
    match e
    case PostRegister =>
      if !AdminCodeAccepted(body, env.adminCode) then Outcome(Response(403, Message(InvalidAdminCode)), db)
      else Register(libs, db, body, env.salt)
    case PostLogin => Outcome(Login(libs, db, body), db)
    case PostForgotPassword => ForgotPassword(libs, db, body, env.secret, env.now, env.mailDelivered)
    case PostResetPassword(token) => ResetPassword(libs, db, token, body, env.now, env.salt)
    case GetEmployeesRoute => Outcome(GetEmployees(db, user), db)
    case PostEmployee => AddEmployee(libs, db, user, body, env.salt)
    case PutEmployee(id) => UpdateEmployee(libs, db, user, id, body)
    case DeleteEmployeeRoute(id) => DeleteEmployee(db, user, id)
    case GetMe => Outcome(GetCurrentUser(db, user), db)
  }

  /** Claims standing for "no `req.user`" on the routes without the middleware; those handlers never read them. */
  const Anonymous := Claims(None, None, None)

  /**
    One request through the router: protected routes pass the middleware
    first, and a refusal answers with the table untouched; `/register`
    passes the admin-code guard first.
  */
  function Route(libs: Libraries, db: Table, env: Env, req: Request): (r: Outcome)
    ensures WellFormed(db) ==> WellFormed(r.db)
    ensures Protected(req.endpoint) && Authenticate(req.presented, env.verify).Refuse? ==>
      r == Outcome(Authenticate(req.presented, env.verify).response, db)
    ensures req.endpoint == PostRegister && !AdminCodeAccepted(req.body, env.adminCode) ==>
      r == Outcome(Response(403, Message(InvalidAdminCode)), db)
  {
    if Protected(req.endpoint) then
      match Authenticate(req.presented, env.verify)
      case Refuse(response) => Outcome(response, db)
      case Admit(user) => Dispatch(libs, db, env, req.endpoint, user, req.body)
    else
      Dispatch(libs, db, env, req.endpoint, Anonymous, req.body)
  }

  /** A registration for any role but 'manager' reaches `registerUser` as it came. */
  lemma NonManagerRegistrationPassesThrough(libs: Libraries, db: Table, env: Env, req: Request)
    requires req.endpoint == PostRegister && Lookup(req.body, "role") != Some("manager")
    ensures Route(libs, db, env, req) == Register(libs, db, req.body, env.salt)
  {
  }

  /** A manager registration carrying the configured, non-empty admin code reaches `registerUser` as it came. */
  lemma ManagerWithCodeReachesRegister(libs: Libraries, db: Table, env: Env, req: Request)
    requires req.endpoint == PostRegister && Lookup(req.body, "role") == Some("manager")
    requires env.adminCode.Some? && env.adminCode.value != "" && Lookup(req.body, "adminCode") == env.adminCode
    ensures Route(libs, db, env, req) == Register(libs, db, req.body, env.salt)
  {
  }

  /** Login, forgot-password and reset-password run their own handler on the body as it came. */
  lemma PublicRoutesRunTheirHandlers(libs: Libraries, db: Table, env: Env, p: Presented, body: Body, token: string)
    ensures Route(libs, db, env, Request(PostLogin, p, body)) == Outcome(Login(libs, db, body), db)
    ensures Route(libs, db, env, Request(PostForgotPassword, p, body)) ==
      ForgotPassword(libs, db, body, env.secret, env.now, env.mailDelivered)
    ensures Route(libs, db, env, Request(PostResetPassword(token), p, body)) ==
      ResetPassword(libs, db, token, body, env.now, env.salt)
  {
  }

  /** Behind the middleware, each protected route runs its own handler with the decoded claims as `req.user`. */
  lemma ProtectedRoutesRunTheirHandlers(libs: Libraries, db: Table, env: Env, p: Presented, body: Body, id: UserId)
    requires TokenOf(p).Some? && env.verify(TokenOf(p).value).Decoded?
    ensures var user := env.verify(TokenOf(p).value).claims;
      && Route(libs, db, env, Request(GetEmployeesRoute, p, body)) == Outcome(GetEmployees(db, user), db)
      && Route(libs, db, env, Request(PostEmployee, p, body)) == AddEmployee(libs, db, user, body, env.salt)
      && Route(libs, db, env, Request(PutEmployee(id), p, body)) == UpdateEmployee(libs, db, user, id, body)
      && Route(libs, db, env, Request(DeleteEmployeeRoute(id), p, body)) == DeleteEmployee(db, user, id)
      && Route(libs, db, env, Request(GetMe, p, body)) == Outcome(GetCurrentUser(db, user), db)
  {
  }

  /** On a protected route, a token that verifies hands its decoded claims, unchanged, to the handler as `req.user`. */
  lemma VerifiedClaimsReachHandler(libs: Libraries, db: Table, env: Env, req: Request, claims: Claims)
    requires Protected(req.endpoint) && TokenOf(req.presented).Some?
    requires env.verify(TokenOf(req.presented).value) == Decoded(claims)
    ensures Route(libs, db, env, req) == Dispatch(libs, db, env, req.endpoint, claims, req.body)
  {
  }

  /** Register, login, forgot-password and reset-password do not look at the token at all. */
  lemma PublicRoutesIgnoreToken(libs: Libraries, db: Table, env: Env, req: Request, other: Presented)
    requires !Protected(req.endpoint)
    ensures Route(libs, db, env, req) == Route(libs, db, env, req.(presented := other))
  {
  }

  /** Every protected route answers 401 'No token provided' to a request without a token and changes nothing. */
  lemma ProtectedRoutesNeedToken(libs: Libraries, db: Table, env: Env, req: Request)
    requires Protected(req.endpoint) && TokenOf(req.presented).None?
    ensures Route(libs, db, env, req) == Outcome(Response(401, Message(NoToken)), db)
  {
  }

  /**
    The table changes through the employee routes only for a request whose
    token verifies to claims with role 'manager'.
  */
  lemma OnlyManagersEditEmployees(libs: Libraries, db: Table, env: Env, req: Request)
    requires req.endpoint.PostEmployee? || req.endpoint.PutEmployee? || req.endpoint.DeleteEmployeeRoute?
    requires Route(libs, db, env, req).db != db
    ensures Authenticate(req.presented, env.verify).Admit?
    ensures IsManager(Authenticate(req.presented, env.verify).user)
  {
  }

  /** A manager account is only created through `/register` by a request carrying the configured admin code. */
  lemma ManagerRegistrationNeedsCode(libs: Libraries, db: Table, env: Env, req: Request)
    requires req.endpoint == PostRegister
    requires Route(libs, db, env, req).response.status == 201
    requires Lookup(req.body, "role") == Some("manager")
    ensures env.adminCode.Some? && env.adminCode.value != "" && Lookup(req.body, "adminCode") == env.adminCode
  {
  }

  /**
    The router over the live store: the middleware runs first on the
    protected routes and assigns `req.user`, then the route's handler runs
    on the store.
  */
  method Serve(store: AccountStore.Accounts, env: Env, req: Request) returns (response: Response)
    requires store.Valid()
    modifies store
    ensures store.Valid()
    ensures Outcome(response, store.Snapshot()) == Route(store.libs, old(store.Snapshot()), env, req)
  {
    var user := Anonymous;
    if Protected(req.endpoint) {
      var gate := Authenticate(req.presented, env.verify);
      if gate.Refuse? {
        return gate.response;
      }
      user := gate.user;
    }
    match req.endpoint
    case PostRegister =>
      if !AdminCodeAccepted(req.body, env.adminCode) {
        return Response(403, Message(InvalidAdminCode));
      }
      response := store.Register(req.body, env.salt);
    case PostLogin =>
      response := store.Login(req.body);
    case PostForgotPassword =>
      response := store.ForgotPassword(req.body, env.secret, env.now, env.mailDelivered);
    case PostResetPassword(token) =>
      response := store.ResetPassword(token, req.body, env.now, env.salt);
    case GetEmployeesRoute =>
      response := store.GetEmployees(user);
    case PostEmployee =>
      response := store.AddEmployee(user, req.body, env.salt);
    case PutEmployee(id) =>
      response := store.UpdateEmployee(user, id, req.body);
    case DeleteEmployeeRoute(id) =>
      response := store.DeleteEmployee(user, id);
    case GetMe =>
      response := store.GetCurrentUser(user);
  }
}
