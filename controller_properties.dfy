/**
  Properties that hold across several handler calls on the same table:
  the account life cycle (register, then log in), the reset life cycle
  (request, redeem once, expire after an hour) and what the listing and
  lookup handlers show after an add or a delete.
*/
module ControllerProperties {
  import opened Wrappers
  import opened UserModel
  import opened UserController

  /** The body the login form sends. */
  function Credentials(email: string, password: string): Body {
    map["email" := email, "password" := password]
  }

  /**
    A freshly registered account can log in straight away with the address
    and password it registered, and gets back the role it chose.
  */
  lemma RegisterThenLogin(libs: Libraries, db: Table, body: Body, salt: Salt)
    requires WellFormed(db) && BcryptSound(libs)
    requires Register(libs, db, body, salt).response.status == 201
    ensures "email" in body && "password" in body && "role" in body
    ensures var after := Register(libs, db, body, salt).db;
            var u := after.rows[|db.rows|];
            && RoleName(u.role) == body["role"]
            && Login(libs, after, Credentials(body["email"], body["password"])) == Response(200, LoginSuccess(u.role, ClaimsOf(u)))
  {
    var after := Register(libs, db, body, salt).db;
    var k := |db.rows|;
    var login := Credentials(body["email"], body["password"]);
    assert Lookup(login, "email") == Lookup(body, "email");
    assert Lookup(login, "password") == Lookup(body, "password");
    assert LoginSchemaOk(libs, login);
    FindByEmailExact(after, k);
    assert AccountFor(after.rows, body["email"]) == Some(after.rows[k]);
  }

  /** An employee a manager adds can log in with the password the manager chose. */
  lemma AddedEmployeeCanLogIn(libs: Libraries, db: Table, caller: Claims, body: Body, salt: Salt)
    requires WellFormed(db) && BcryptSound(libs)
    requires AddEmployee(libs, db, caller, body, salt).response.status == 201
    ensures "email" in body && "password" in body
    ensures var after := AddEmployee(libs, db, caller, body, salt).db;
            Login(libs, after, Credentials(body["email"], body["password"])) ==
              Response(200, LoginSuccess(Employee, ClaimsOf(after.rows[|db.rows|])))
  {
    var after := AddEmployee(libs, db, caller, body, salt).db;
    var k := |db.rows|;
    var login := Credentials(body["email"], body["password"]);
    assert Lookup(login, "email") == Lookup(body, "email");
    assert Lookup(login, "password") == Lookup(body, "password");
    assert LoginSchemaOk(libs, login);
    FindByEmailExact(after, k);
    assert AccountFor(after.rows, body["email"]) == Some(after.rows[k]);
  }

  /** After an add, a manager's listing is the old listing with the new employee at the end. */
  lemma AddedEmployeeIsListed(libs: Libraries, db: Table, caller: Claims, body: Body, salt: Salt)
    requires AddEmployee(libs, db, caller, body, salt).response.status == 201
    requires caller.id.Some?
    ensures var r := AddEmployee(libs, db, caller, body, salt);
            && r.response.payload.EmployeeAdded?
            && GetEmployees(r.db, caller) == Response(200, Profiles(ProfilesOf(db.rows) + [r.response.payload.employee]))
  {
    var r := AddEmployee(libs, db, caller, body, salt);
    assert r.db.rows == db.rows + [r.db.rows[|db.rows|]];
    assert ProfilesOf(r.db.rows) == ProfilesOf(db.rows) + [r.response.payload.employee];
  }

  /** Once deleted, an account is unknown to `/me` and its owner's listing is empty. */
  lemma DeletedUserIsGone(db: Table, caller: Claims, id: UserId, owner: Claims)
    requires WellFormed(db)
    requires DeleteEmployee(db, caller, id).response.status == 200
    requires owner.id == Some(id) && Truthy(owner.role) && !IsManager(owner)
    ensures var after := DeleteEmployee(db, caller, id).db;
            && GetCurrentUser(after, owner) == Response(404, Message(UserNotFound))
            && GetEmployees(after, owner) == Response(200, Profiles([]))
  {
  }

  /** At most one record stores `digest` as its reset token. */
  predicate SingleHolder(rows: seq<User>, digest: string) {
    forall a, b | 0 <= a < b < |rows| :: !(rows[a].resetToken == Some(digest) && rows[b].resetToken == Some(digest))
  }

  /** No record stores `digest`: the secret behind it was never handed out. */
  predicate Unused(rows: seq<User>, digest: string) {
    forall j | 0 <= j < |rows| :: rows[j].resetToken != Some(digest)
  }

  /**
    Requesting a reset with a fresh secret for a known address leaves
    exactly that account pending with the secret's digest and a deadline
    one hour on, whether or not the mail went out.
  */
  lemma ForgotMakesPending(libs: Libraries, db: Table, email: string, secret: string, t0: int, delivered: bool)
      returns (k: nat)
    requires ForgotSchemaOk(libs, map["email" := email]) && EmailTaken(db.rows, email)
    requires Unused(db.rows, libs.sha256Hex(secret))
    ensures var mid := ForgotPassword(libs, db, map["email" := email], secret, t0, delivered).db;
            && k < |db.rows| && db.rows[k].email == email
            && mid == Table(db.rows[k := Requested(db.rows[k], libs.sha256Hex(secret), t0)], db.nextId)
            && ResetStateOf(mid.rows[k]) == Pending(libs.sha256Hex(secret), t0 + ResetWindow)
            && SingleHolder(mid.rows, libs.sha256Hex(secret))
  {
    var body := map["email" := email];
    assert Field(body, "email") == email;
    var mid := ForgotPassword(libs, db, body, secret, t0, delivered).db;
    k :| 0 <= k < |db.rows| && db.rows[k].email == email &&
         mid == Table(db.rows[k := Requested(db.rows[k], libs.sha256Hex(secret), t0)], db.nextId);
  }

  /**
    A reset requested with a fresh secret can be redeemed with that secret
    before the hour is up, and then only that account's password changes:
    the table is the one before the request with that account holding the
    new hash and no reset pending.
  */
  lemma ForgotThenReset(libs: Libraries, db: Table, email: string, secret: string, t0: int, delivered: bool,
                        newPassword: string, now: int, salt: Salt)
    requires ForgotSchemaOk(libs, map["email" := email]) && EmailTaken(db.rows, email)
    requires Unused(db.rows, libs.sha256Hex(secret))
    requires |newPassword| >= 6 && t0 <= now < t0 + ResetWindow
    ensures var mid := ForgotPassword(libs, db, map["email" := email], secret, t0, delivered).db;
            var end := ResetPassword(libs, mid, secret, map["password" := newPassword], now, salt);
            && end.response == Response(200, Message(ResetDone))
            && exists k | 0 <= k < |db.rows| && db.rows[k].email == email ::
                 end.db == Table(db.rows[k := Redeemed(db.rows[k], libs.bcryptHash(newPassword, salt))], db.nextId)
  {
    var digest := libs.sha256Hex(secret);
    var k := ForgotMakesPending(libs, db, email, secret, t0, delivered);
    var mid := ForgotPassword(libs, db, map["email" := email], secret, t0, delivered).db;
    var body := map["password" := newPassword];
    assert ResetMatches(mid.rows[k], digest, now);
    var end := ResetPassword(libs, mid, secret, body, now, salt);
    var j :| 0 <= j < |mid.rows| && ResetMatches(mid.rows[j], digest, now) &&
             end.db == Table(mid.rows[j := Redeemed(mid.rows[j], libs.bcryptHash(newPassword, salt))], mid.nextId);
    assert j == k;
    assert mid.rows[k := Redeemed(mid.rows[k], libs.bcryptHash(newPassword, salt))]
        == db.rows[k := Redeemed(db.rows[k], libs.bcryptHash(newPassword, salt))];
  }

  /**
    After a reset redeemed within the hour, the account logs in with the
    new password, keeping its id, address and role.
  */
  lemma ResetThenLogin(libs: Libraries, db: Table, email: string, secret: string, t0: int, delivered: bool,
                       newPassword: string, now: int, salt: Salt)
    requires WellFormed(db) && BcryptSound(libs)
    requires ForgotSchemaOk(libs, map["email" := email]) && EmailTaken(db.rows, email)
    requires Unused(db.rows, libs.sha256Hex(secret))
    requires |newPassword| >= 6 && t0 <= now < t0 + ResetWindow
    ensures var mid := ForgotPassword(libs, db, map["email" := email], secret, t0, delivered).db;
            var end := ResetPassword(libs, mid, secret, map["password" := newPassword], now, salt).db;
            exists k | 0 <= k < |db.rows| && db.rows[k].email == email ::
              Login(libs, end, Credentials(email, newPassword)) == Response(200, LoginSuccess(db.rows[k].role, ClaimsOf(db.rows[k])))
  {
    ForgotThenReset(libs, db, email, secret, t0, delivered, newPassword, now, salt);
    var mid := ForgotPassword(libs, db, map["email" := email], secret, t0, delivered).db;
    var end := ResetPassword(libs, mid, secret, map["password" := newPassword], now, salt).db;
    var k :| 0 <= k < |db.rows| && db.rows[k].email == email &&
             end == Table(db.rows[k := Redeemed(db.rows[k], libs.bcryptHash(newPassword, salt))], db.nextId);
    var login := Credentials(email, newPassword);
    assert Lookup(map["email" := email], "email") == Lookup(login, "email");
    assert LoginSchemaOk(libs, login);
    FindByEmailExact(end, k);
    assert AccountFor(end.rows, email) == Some(end.rows[k]);
  }

  /**
    A reset link dies with its deadline: once the hour after the request
    has passed, the secret is refused whatever password comes with it.
  */
  lemma ResetLinkExpires(libs: Libraries, db: Table, email: string, secret: string, t0: int, delivered: bool,
                         body: Body, now: int, salt: Salt)
    requires ForgotSchemaOk(libs, map["email" := email]) && EmailTaken(db.rows, email)
    requires Unused(db.rows, libs.sha256Hex(secret))
    requires now >= t0 + ResetWindow
    ensures var mid := ForgotPassword(libs, db, map["email" := email], secret, t0, delivered).db;
            var end := ResetPassword(libs, mid, secret, body, now, salt);
            && end.response.status == 400 && end.db == mid
  {
    var digest := libs.sha256Hex(secret);
    var k := ForgotMakesPending(libs, db, email, secret, t0, delivered);
    var mid := ForgotPassword(libs, db, map["email" := email], secret, t0, delivered).db;
    forall j | 0 <= j < |mid.rows|
      ensures !ResetMatches(mid.rows[j], digest, now)
    {
      if j != k {
        assert mid.rows[j] == db.rows[j];
      }
    }
  }

  /**
    A reset secret works once: after a successful reset, no record accepts
    it again at any time, provided at most one record held its digest.
    The redeemed record holds the empty token, which no 64-digit digest
    equals.
  */
  lemma ResetIsSingleUse(libs: Libraries, db: Table, token: string, body: Body, now: int, salt: Salt,
                         again: Body, later: int, salt2: Salt)
    requires SingleHolder(db.rows, libs.sha256Hex(token))
    requires ResetPassword(libs, db, token, body, now, salt).response.status == 200
    ensures var after := ResetPassword(libs, db, token, body, now, salt).db;
            && !ResetCandidate(after.rows, libs.sha256Hex(token), later)
            && ResetPassword(libs, after, token, again, later, salt2).response.status == 400
  {
    var digest := libs.sha256Hex(token);
    var after := ResetPassword(libs, db, token, body, now, salt).db;
    var k :| 0 <= k < |db.rows| && ResetMatches(db.rows[k], digest, now) &&
             after == Table(db.rows[k := Redeemed(db.rows[k], libs.bcryptHash(body["password"], salt))], db.nextId);
    assert |digest| == 64;
    forall j | 0 <= j < |after.rows|
      ensures !ResetMatches(after.rows[j], digest, later)
    {
    }
  }
}
