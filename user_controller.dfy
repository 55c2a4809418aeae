/**
  The account handlers of the server, one function per handler. Each takes
  the table as it was and yields the reply and the table after it. The
  libraries they call (SHA-256, bcrypt, Joi's address check) are the
  function values of `Libraries`; the clock, the random salt and reset
  secret, and whether the reset mail went out are parameters.
*/
module UserController {
  import opened Wrappers
  import opened UserModel

  type Salt = string

  /**
    The foreign calls: `createHash('sha256').update(x).digest('hex')`,
    `bcrypt.hash(p, salt)`, `bcrypt.compare(p, hash)` and Joi's
    `string().email()` test.
  */
  datatype Libraries = Libraries(
    sha256Hex: string -> HexDigest,
    bcryptHash: (string, Salt) -> string,
    bcryptCompare: (string, string) -> bool,
    joiEmail: string -> bool)

  /** What bcrypt promises: a password matches every hash made from it. */
  ghost predicate BcryptSound(libs: Libraries) {
    forall p, s :: libs.bcryptCompare(p, libs.bcryptHash(p, s))
  }

  /** A JSON request body whose values are strings. */
  type Body = map<string, string>

  function Lookup(body: Body, key: string): Option<string> {
    if key in body then Some(body[key]) else None
  }

  /** A destructured field; only read once validation has made it present. */
  function Field(body: Body, key: string): string {
    if key in body then body[key] else ""
  }

  /** A `Joi.string()` rule with the modifiers the schemas use. */
  datatype Rule = Rule(required: bool, allowEmpty: bool, minLen: nat, maxLen: Option<nat>, email: bool, valid: Option<set<string>>)
  {
    function Required(): Rule { this.(required := true) }
    function Min(n: nat): Rule { this.(minLen := n) }
    function Max(n: nat): Rule { this.(maxLen := Some(n)) }
    function Email(): Rule { this.(email := true) }
    function AllowEmpty(): Rule { this.(allowEmpty := true) }
    function Valid(values: set<string>): Rule { this.(valid := Some(values)) }
  }

  /** `Joi.string()`: optional, and the empty string is refused unless allowed. */
  const JoiString := Rule(false, false, 0, None, false, None)

  /** Whether one field's value (None when the key is absent) passes its rule. */
  predicate Accepts(libs: Libraries, rule: Rule, value: Option<string>) {
    match value
    case None => !rule.required
    case Some(v) =>
      if v == "" then rule.allowEmpty
      else
        && |v| >= rule.minLen
        && (rule.maxLen.None? || |v| <= rule.maxLen.value)
        && (!rule.email || libs.joiEmail(v))
        && (rule.valid.None? || v in rule.valid.value)
  }

  /** `Joi.when('role', { is, then: string().required(), otherwise: string().optional().allow('') })` */
  function WhenRole(body: Body, role: string): Rule {
    if Lookup(body, "role") == Some(role) then JoiString.Required() else JoiString.AllowEmpty()
  }

  /** The registration schema; keys it does not list are refused. */
  predicate RegisterSchemaOk(libs: Libraries, body: Body) {
    && body.Keys <= {"name", "email", "password", "department", "adminCode", "role"}
    && Accepts(libs, JoiString.Min(3).Max(20).Required(), Lookup(body, "name"))
    && Accepts(libs, JoiString.Email().Required(), Lookup(body, "email"))
    && Accepts(libs, JoiString.Min(6).Required(), Lookup(body, "password"))
    && Accepts(libs, WhenRole(body, "employee"), Lookup(body, "department"))
    && Accepts(libs, WhenRole(body, "manager"), Lookup(body, "adminCode"))
    && Accepts(libs, JoiString.Valid({"employee", "manager"}).Required(), Lookup(body, "role"))
  }

  predicate LoginSchemaOk(libs: Libraries, body: Body) {
    && body.Keys <= {"email", "password"}
    && Accepts(libs, JoiString.Email().Required(), Lookup(body, "email"))
    && Accepts(libs, JoiString.Min(6).Required(), Lookup(body, "password"))
  }

  /** Checked on `{ email }` alone, so other keys of the body do not matter. */
  predicate ForgotSchemaOk(libs: Libraries, body: Body) {
    Accepts(libs, JoiString.Email().Required(), Lookup(body, "email"))
  }

  predicate AddSchemaOk(libs: Libraries, body: Body) {
    && body.Keys <= {"name", "email", "department", "password"}
    && Accepts(libs, JoiString.Min(3).Max(20).Required(), Lookup(body, "name"))
    && Accepts(libs, JoiString.Email().Required(), Lookup(body, "email"))
    && Accepts(libs, JoiString.Required(), Lookup(body, "department"))
    && Accepts(libs, JoiString.Min(6).Required(), Lookup(body, "password"))
  }

  /** Every key optional, and only these three allowed. */
  predicate UpdateSchemaOk(libs: Libraries, body: Body) {
    && body.Keys <= {"name", "email", "department"}
    && Accepts(libs, JoiString.Min(3).Max(20), Lookup(body, "name"))
    && Accepts(libs, JoiString.Email(), Lookup(body, "email"))
    && Accepts(libs, JoiString, Lookup(body, "department"))
  }

  /**
    What the registration schema demands, field by field: a name of 3 to 20
    characters, an address Joi accepts, a password of at least 6, a role of
    'employee' or 'manager', a non-empty department for an employee and a
    non-empty admin code for a manager, and no other keys.
  */
  lemma RegisterSchemaFields(libs: Libraries, body: Body)
    ensures RegisterSchemaOk(libs, body) <==>
      && body.Keys <= {"name", "email", "password", "department", "adminCode", "role"}
      && "name" in body && 3 <= |body["name"]| <= 20
      && "email" in body && body["email"] != "" && libs.joiEmail(body["email"])
      && "password" in body && |body["password"]| >= 6
      && "role" in body && body["role"] in {"employee", "manager"}
      && (body["role"] == "employee" ==> "department" in body && body["department"] != "")
      && (body["role"] == "manager" ==> "adminCode" in body && body["adminCode"] != "")
  {
  }

  /** The login schema: exactly an address Joi accepts and a password of at least 6 characters. */
  lemma LoginSchemaFields(libs: Libraries, body: Body)
    ensures LoginSchemaOk(libs, body) <==>
      && body.Keys <= {"email", "password"}
      && "email" in body && body["email"] != "" && libs.joiEmail(body["email"])
      && "password" in body && |body["password"]| >= 6
  {
  }

  /** The forgot-password schema: an address Joi accepts, whatever else the body holds. */
  lemma ForgotSchemaFields(libs: Libraries, body: Body)
    ensures ForgotSchemaOk(libs, body) <==> "email" in body && body["email"] != "" && libs.joiEmail(body["email"])
  {
  }

  /** The add-employee schema: name 3 to 20 characters, an accepted address, a department, a password of 6, nothing else. */
  lemma AddSchemaFields(libs: Libraries, body: Body)
    ensures AddSchemaOk(libs, body) <==>
      && body.Keys <= {"name", "email", "department", "password"}
      && "name" in body && 3 <= |body["name"]| <= 20
      && "email" in body && body["email"] != "" && libs.joiEmail(body["email"])
      && "department" in body && body["department"] != ""
      && "password" in body && |body["password"]| >= 6
  {
  }

  /** The update schema: each of the three keys may be missing, but a key that is present must not be empty. */
  lemma UpdateSchemaFields(libs: Libraries, body: Body)
    ensures UpdateSchemaOk(libs, body) <==>
      && body.Keys <= {"name", "email", "department"}
      && ("name" in body ==> 3 <= |body["name"]| <= 20)
      && ("email" in body ==> body["email"] != "" && libs.joiEmail(body["email"]))
      && ("department" in body ==> body["department"] != "")
  {
  }

  /** The decoded token payload the gate puts on `req.user`; any claim may be missing. */
  datatype Claims = Claims(id: Option<UserId>, email: Option<string>, role: Option<string>)

  /** The claims `loginUser` signs: `{ id, email, role }` of the account. */
  function ClaimsOf(u: User): Claims {
    Claims(Some(u.id), Some(u.email), Some(RoleName(u.role)))
  }

  /** A claim that JavaScript reads as true: present and not the empty string. */
  predicate Truthy(claim: Option<string>) {
    claim.Some? && claim.value != ""
  }

  predicate IsManager(caller: Claims) {
    caller.role == Some("manager")
  }

  /** JSON reply bodies. `SchemaError` is `{ message: error.details[0].message }`, worded by Joi. */
  datatype Payload =
    | Message(text: string)
    | SchemaError
    | LoginSuccess(role: Role, token: Claims)
    | EmployeeAdded(employee: Profile)
    | EmployeeUpdated(employee: Profile)
    | Profiles(list: seq<Profile>)
    | OneProfile(profile: Profile)

  datatype Response = Response(status: nat, payload: Payload)

  datatype Outcome = Outcome(response: Response, db: Table)

  const UserExists := "User already exists"
  const Registered := "User registered successfully."
  const UserNotFound := "User not found"
  const InvalidPassword := "Invalid password"
  const EnterValidEmail := "Please enter a valid email address."
  const ResetLinkSent := "A reset link has been sent."
  const InternalErrorDot := "Internal server error."
  const InternalError := "Internal server error"
  const PasswordTooShort := "Password must be at least 6 characters."
  const InvalidOrExpired := "Invalid or expired reset token."
  const ResetDone := "Password reset successful."
  const Unauthorized := "Unauthorized"
  const Forbidden := "Forbidden"
  const EmailExists := "Email already exists"
  const EmployeeNotFound := "Employee not found"
  const EmployeeDeleted := "Employee deleted"

  /** How long a reset link stays usable: one hour in milliseconds. */
  const ResetWindow := 3600000

  predicate EmailTaken(rows: seq<User>, email: string) {
    exists k | 0 <= k < |rows| :: rows[k].email == email
  }

  predicate HasId(rows: seq<User>, id: UserId) {
    exists k | 0 <= k < |rows| :: rows[k].id == id
  }

  /** The account `user.findOne({ email })` returns. */
  function AccountFor(rows: seq<User>, email: string): (r: Option<User>)
    ensures r.None? <==> !EmailTaken(rows, email)
    ensures r.Some? ==> r.value in rows && r.value.email == email
  {
    match FindByEmail(rows, email)
    case None => None
    case Some(k) => Some(rows[k])
  }

  /** A record appended at the end keeps the table well formed when its id is fresh and its email unused. */
  lemma AppendKeepsWellFormed(db: Table, u: User)
    requires u.id == db.nextId && !EmailTaken(db.rows, u.email)
    ensures WellFormed(db) ==> WellFormed(Table(db.rows + [u], db.nextId + 1))
  {
    var rows := db.rows + [u];
    if WellFormed(db) {
      forall a, b | 0 <= a < b < |rows|
        ensures rows[a].id != rows[b].id && rows[a].email != rows[b].email
      {
        if b == |db.rows| {
          assert rows[a] == db.rows[a];
        }
      }
    }
  }

  /** The record `registerUser` saves: the department only for employees, the admin code only for managers. */
  function Registrant(libs: Libraries, id: UserId, body: Body, salt: Salt): User {
    var role := if Field(body, "role") == "employee" then Employee else Manager;
    User(id, Field(body, "name"), Field(body, "email"),
         libs.bcryptHash(Field(body, "password"), salt), role,
         if role == Employee then Field(body, "department") else "",
         if role == Manager then Field(body, "adminCode") else "",
         None, None)
  }

  /**
    `registerUser`: a body the schema refuses gets 400 and an address
    already on file gets 400 'User already exists', both with the table
    untouched; otherwise exactly one record is appended, carrying the
    bcrypt hash of the password and no reset in progress.
  */
  function Register(libs: Libraries, db: Table, body: Body, salt: Salt): (r: Outcome)
    ensures WellFormed(db) ==> WellFormed(r.db)
    ensures !RegisterSchemaOk(libs, body) ==> r == Outcome(Response(400, SchemaError), db)
    ensures RegisterSchemaOk(libs, body) && EmailTaken(db.rows, Field(body, "email")) ==>
      r == Outcome(Response(400, Message(UserExists)), db)
    ensures r.response.status == 201 <==> RegisterSchemaOk(libs, body) && !EmailTaken(db.rows, Field(body, "email"))
    ensures r.response.status != 201 ==> r.db == db
    ensures r.response.status == 201 ==>
      && r.response.payload == Message(Registered)
      && r.db.nextId == db.nextId + 1 && |r.db.rows| == |db.rows| + 1 && r.db.rows[..|db.rows|] == db.rows
      && var u := r.db.rows[|db.rows|];
         && u.id == db.nextId && u.name == Field(body, "name") && u.email == Field(body, "email")
         && u.password == libs.bcryptHash(Field(body, "password"), salt)
         && RoleName(u.role) == Field(body, "role")
         && u.department == (if u.role == Employee then Field(body, "department") else "")
         && u.adminCode == (if u.role == Manager then Field(body, "adminCode") else "")
         && ResetStateOf(u) == NoReset
  {
    if !RegisterSchemaOk(libs, body) then
      Outcome(Response(400, SchemaError), db)
    else if AccountFor(db.rows, Field(body, "email")).Some? then
      Outcome(Response(400, Message(UserExists)), db)
    else
      var u := Registrant(libs, db.nextId, body, salt);
      assert db.rows + [u] == (db.rows + [u])[..|db.rows|] + [u];
      AppendKeepsWellFormed(db, u);
      Outcome(Response(201, Message(Registered)), Table(db.rows + [u], db.nextId + 1))
  }

  /**
    `loginUser`: a body the schema refuses gets 400; an unknown address
    gets 400 'User not found' and a password bcrypt rejects gets 400
    'Invalid password'. Otherwise the reply carries the stored role and a
    token minted from the account's `{ id, email, role }`. The table is
    only read.
  */
  function Login(libs: Libraries, db: Table, body: Body): (r: Response)
    ensures !LoginSchemaOk(libs, body) ==> r == Response(400, SchemaError)
    ensures LoginSchemaOk(libs, body) && !EmailTaken(db.rows, Field(body, "email")) ==>
      r == Response(400, Message(UserNotFound))
    ensures (LoginSchemaOk(libs, body) && AccountFor(db.rows, Field(body, "email")).Some? &&
             !libs.bcryptCompare(Field(body, "password"), AccountFor(db.rows, Field(body, "email")).value.password)) ==>
      r == Response(400, Message(InvalidPassword))
    ensures r.status == 200 <==>
      && LoginSchemaOk(libs, body)
      && AccountFor(db.rows, Field(body, "email")).Some?
      && libs.bcryptCompare(Field(body, "password"), AccountFor(db.rows, Field(body, "email")).value.password)
    ensures r.status == 200 ==>
      var u := AccountFor(db.rows, Field(body, "email")).value;
      r.payload == LoginSuccess(u.role, ClaimsOf(u))
  {
    if !LoginSchemaOk(libs, body) then
      Response(400, SchemaError)
    else
      match AccountFor(db.rows, Field(body, "email"))
      case None => Response(400, Message(UserNotFound))
      case Some(u) =>
        if !libs.bcryptCompare(Field(body, "password"), u.password) then Response(400, Message(InvalidPassword))
        else Response(200, LoginSuccess(u.role, ClaimsOf(u)))
  }

  /** The record after `forgotPassword`: the digest of the secret and a deadline one hour on. */
  function Requested(u: User, digest: HexDigest, now: int): (v: User)
    ensures ResetStateOf(v) == Pending(digest, now + ResetWindow)
    ensures v == u.(resetToken := v.resetToken, resetExpires := v.resetExpires)
  {
    u.(resetToken := Some(digest), resetExpires := Some(now + ResetWindow))
  }

  /** Replacing one record with one that keeps its id and email keeps the table well formed. */
  lemma ReplaceKeepsWellFormed(db: Table, k: int, v: User)
    requires 0 <= k < |db.rows|
    requires v.id == db.rows[k].id
    requires v.email == db.rows[k].email || !EmailTaken(db.rows, v.email)
    ensures WellFormed(db) ==> WellFormed(Table(db.rows[k := v], db.nextId))
  {
  }

  /**
    `forgotPassword`: an address the schema refuses gets 400 before any
    lookup. An unknown address gets the same 200 as a known one and changes
    nothing. For a known address only the SHA-256 digest of the secret is
    stored, with a deadline one hour after `now`; the record is saved
    before the mail goes out, so a mail failure answers 500 with the reset
    already pending.
  */
  function ForgotPassword(libs: Libraries, db: Table, body: Body, secret: string, now: int, mailDelivered: bool): (r: Outcome)
    ensures WellFormed(db) ==> WellFormed(r.db)
    ensures !ForgotSchemaOk(libs, body) ==> r == Outcome(Response(400, Message(EnterValidEmail)), db)
    ensures ForgotSchemaOk(libs, body) && !EmailTaken(db.rows, Field(body, "email")) ==>
      r == Outcome(Response(200, Message(ResetLinkSent)), db)
    ensures ForgotSchemaOk(libs, body) && mailDelivered ==> r.response == Response(200, Message(ResetLinkSent))
    ensures ForgotSchemaOk(libs, body) && EmailTaken(db.rows, Field(body, "email")) ==>
      && r.response == (if mailDelivered then Response(200, Message(ResetLinkSent)) else Response(500, Message(InternalErrorDot)))
      && exists k | 0 <= k < |db.rows| && db.rows[k].email == Field(body, "email") ::
           r.db == Table(db.rows[k := Requested(db.rows[k], libs.sha256Hex(secret), now)], db.nextId)
  {
    if !ForgotSchemaOk(libs, body) then
      Outcome(Response(400, Message(EnterValidEmail)), db)
    else
      match FindByEmail(db.rows, Field(body, "email"))
      case None => Outcome(Response(200, Message(ResetLinkSent)), db)
      case Some(k) =>
        var u := Requested(db.rows[k], libs.sha256Hex(secret), now);
        var saved := Table(db.rows[k := u], db.nextId);
        ReplaceKeepsWellFormed(db, k, u);
        if mailDelivered then Outcome(Response(200, Message(ResetLinkSent)), saved)
        else Outcome(Response(500, Message(InternalErrorDot)), saved)
  }

  /** `!password || password.length < 6` is false. */
  predicate NewPasswordOk(body: Body) {
    "password" in body && |body["password"]| >= 6
  }

  predicate ResetCandidate(rows: seq<User>, digest: string, now: int) {
    exists k | 0 <= k < |rows| :: ResetMatches(rows[k], digest, now)
  }

  /** The record after a reset: the new hash, the token emptied, the deadline cleared. */
  function Redeemed(u: User, hash: string): (v: User)
    ensures v.password == hash && v.resetToken == Some("") && v.resetExpires == None
    ensures ResetStateOf(v) == NoReset
    ensures v == u.(password := v.password, resetToken := v.resetToken, resetExpires := v.resetExpires)
  {
    u.(password := hash, resetToken := Some(""), resetExpires := None)
  }

  /**
    `resetPassword`: a missing or short password gets 400 with no lookup.
    Otherwise it succeeds exactly when some record stores the digest of
    the presented secret with a deadline strictly after `now`; that record
    gets the new hash and leaves the pending state. Every failure leaves
    the table untouched.
  */
  function ResetPassword(libs: Libraries, db: Table, token: string, body: Body, now: int, salt: Salt): (r: Outcome)
    ensures WellFormed(db) ==> WellFormed(r.db)
    ensures !NewPasswordOk(body) ==> r == Outcome(Response(400, Message(PasswordTooShort)), db)
    ensures NewPasswordOk(body) && !ResetCandidate(db.rows, libs.sha256Hex(token), now) ==>
      r == Outcome(Response(400, Message(InvalidOrExpired)), db)
    ensures r.response.status == 200 <==> NewPasswordOk(body) && ResetCandidate(db.rows, libs.sha256Hex(token), now)
    ensures r.response.status != 200 ==> r.db == db
    ensures r.response.status == 200 ==>
      && r.response.payload == Message(ResetDone)
      && exists k | 0 <= k < |db.rows| && ResetMatches(db.rows[k], libs.sha256Hex(token), now) ::
           && r.db == Table(db.rows[k := Redeemed(db.rows[k], libs.bcryptHash(body["password"], salt))], db.nextId)
           && r.db.rows[k].password == libs.bcryptHash(body["password"], salt)
           && ResetStateOf(r.db.rows[k]) == NoReset
  {
    if !NewPasswordOk(body) then
      Outcome(Response(400, Message(PasswordTooShort)), db)
    else
      var digest := libs.sha256Hex(token);
      match FindOne(db.rows, (u: User) => ResetMatches(u, digest, now))
      case None => Outcome(Response(400, Message(InvalidOrExpired)), db)
      case Some(k) =>
        var u := Redeemed(db.rows[k], libs.bcryptHash(body["password"], salt));
        ReplaceKeepsWellFormed(db, k, u);
        Outcome(Response(200, Message(ResetDone)), Table(db.rows[k := u], db.nextId))
  }

  /** Every record, projected, in collection order. */
  function ProfilesOf(rows: seq<User>): (list: seq<Profile>)
    ensures |list| == |rows| && forall k | 0 <= k < |rows| :: list[k] == ProfileOf(rows[k])
  {
    if rows == [] then [] else [ProfileOf(rows[0])] + ProfilesOf(rows[1..])
  }

  /**
    `getEmployees`: 401 without an id or a role claim. A manager gets every
    record, managers included; anyone else gets their own record alone, or
    an empty list when it is gone.
  */
  function GetEmployees(db: Table, caller: Claims): (r: Response)
    ensures caller.id.None? || !Truthy(caller.role) ==> r == Response(401, Message(Unauthorized))
    ensures caller.id.Some? && IsManager(caller) ==> r == Response(200, Profiles(ProfilesOf(db.rows)))
    ensures caller.id.Some? && Truthy(caller.role) && !IsManager(caller) ==>
      && r.status == 200 && r.payload.Profiles?
      && (r.payload.list == [] <==> !HasId(db.rows, caller.id.value))
      && (r.payload.list != [] ==>
            exists k | 0 <= k < |db.rows| && db.rows[k].id == caller.id.value :: r.payload.list == [ProfileOf(db.rows[k])])
  {
    if caller.id.None? || !Truthy(caller.role) then
      Response(401, Message(Unauthorized))
    else if IsManager(caller) then
      Response(200, Profiles(ProfilesOf(db.rows)))
    else
      match FindById(db.rows, caller.id.value)
      case None => Response(200, Profiles([]))
      case Some(k) => Response(200, Profiles([ProfileOf(db.rows[k])]))
  }

  /** The record `addEmployee` saves: always an employee. */
  function Hire(libs: Libraries, id: UserId, body: Body, salt: Salt): User {
    User(id, Field(body, "name"), Field(body, "email"), libs.bcryptHash(Field(body, "password"), salt),
         Employee, Field(body, "department"), "", None, None)
  }

  /**
    `addEmployee`: anyone but a manager gets 403 before the body is looked
    at, with the table untouched; a refused body gets 400 and a taken
    address 400 'Email already exists'. Otherwise one record is appended,
    with role employee whatever the body says, and the hashed password.
  */
  function AddEmployee(libs: Libraries, db: Table, caller: Claims, body: Body, salt: Salt): (r: Outcome)
    ensures WellFormed(db) ==> WellFormed(r.db)
    ensures !IsManager(caller) ==> r == Outcome(Response(403, Message(Forbidden)), db)
    ensures IsManager(caller) && !AddSchemaOk(libs, body) ==> r == Outcome(Response(400, SchemaError), db)
    ensures IsManager(caller) && AddSchemaOk(libs, body) && EmailTaken(db.rows, Field(body, "email")) ==>
      r == Outcome(Response(400, Message(EmailExists)), db)
    ensures r.response.status == 201 <==>
      IsManager(caller) && AddSchemaOk(libs, body) && !EmailTaken(db.rows, Field(body, "email"))
    ensures r.response.status != 201 ==> r.db == db
    ensures r.response.status == 201 ==>
      && r.db.nextId == db.nextId + 1 && |r.db.rows| == |db.rows| + 1 && r.db.rows[..|db.rows|] == db.rows
      && var u := r.db.rows[|db.rows|];
         && u.id == db.nextId && u.role == Employee
         && u.name == Field(body, "name") && u.email == Field(body, "email") && u.department == Field(body, "department")
         && u.password == libs.bcryptHash(Field(body, "password"), salt)
         && u.adminCode == "" && ResetStateOf(u) == NoReset
         && r.response.payload == EmployeeAdded(ProfileOf(u))
  {
    if !IsManager(caller) then
      Outcome(Response(403, Message(Forbidden)), db)
    else if !AddSchemaOk(libs, body) then
      Outcome(Response(400, SchemaError), db)
    else if AccountFor(db.rows, Field(body, "email")).Some? then
      Outcome(Response(400, Message(EmailExists)), db)
    else
      var u := Hire(libs, db.nextId, body, salt);
      assert db.rows + [u] == (db.rows + [u])[..|db.rows|] + [u];
      AppendKeepsWellFormed(db, u);
      Outcome(Response(201, EmployeeAdded(ProfileOf(u))), Table(db.rows + [u], db.nextId + 1))
  }

  /** The update `findByIdAndUpdate(id, req.body)` applies: the keys present replace name, email or department. */
  function Edited(u: User, body: Body): (v: User)
    ensures v.id == u.id && v.password == u.password && v.role == u.role && v.adminCode == u.adminCode
    ensures v.resetToken == u.resetToken && v.resetExpires == u.resetExpires
    ensures v.name == (if "name" in body then body["name"] else u.name)
    ensures v.email == (if "email" in body then body["email"] else u.email)
    ensures v.department == (if "department" in body then body["department"] else u.department)
  {
    u.(name := if "name" in body then body["name"] else u.name,
        email := if "email" in body then body["email"] else u.email,
        department := if "department" in body then body["department"] else u.department)
  }

  /** The new address belongs to another record, so the unique index refuses the update. */
  predicate EmailClash(rows: seq<User>, k: int, body: Body) {
    "email" in body && exists j | 0 <= j < |rows| :: j != k && rows[j].email == body["email"]
  }

  /** Some record carrying `id` is one whose new address another record already holds. */
  predicate UpdateClash(rows: seq<User>, id: UserId, body: Body) {
    exists k | 0 <= k < |rows| && rows[k].id == id :: EmailClash(rows, k, body)
  }

  /**
    `updateEmployee`: anyone but a manager gets 403 before validation; a
    body with other keys or bad values gets 400; an absent id gets 404; an
    address another record holds is refused by the unique index (500). All
    of these leave the table untouched. Otherwise only that record's name,
    email and department change, as the body gives them.
  */
  function UpdateEmployee(libs: Libraries, db: Table, caller: Claims, id: UserId, body: Body): (r: Outcome)
    ensures WellFormed(db) ==> WellFormed(r.db)
    ensures !IsManager(caller) ==> r == Outcome(Response(403, Message(Forbidden)), db)
    ensures IsManager(caller) && !UpdateSchemaOk(libs, body) ==> r == Outcome(Response(400, SchemaError), db)
    ensures IsManager(caller) && UpdateSchemaOk(libs, body) && !HasId(db.rows, id) ==>
      r == Outcome(Response(404, Message(EmployeeNotFound)), db)
    ensures WellFormed(db) && IsManager(caller) && UpdateSchemaOk(libs, body) && UpdateClash(db.rows, id, body) ==>
      r == Outcome(Response(500, Message(InternalError)), db)
    ensures WellFormed(db) ==>
      (r.response.status == 200 <==>
         IsManager(caller) && UpdateSchemaOk(libs, body) && HasId(db.rows, id) && !UpdateClash(db.rows, id, body))
    ensures r.response.status != 200 ==> r.db == db
    ensures r.response.status == 200 ==>
      && IsManager(caller) && UpdateSchemaOk(libs, body)
      && exists k | 0 <= k < |db.rows| && db.rows[k].id == id ::
           && r.db == Table(db.rows[k := Edited(db.rows[k], body)], db.nextId)
           && r.response.payload == EmployeeUpdated(ProfileOf(Edited(db.rows[k], body)))
  {
    if !IsManager(caller) then
      Outcome(Response(403, Message(Forbidden)), db)
    else if !UpdateSchemaOk(libs, body) then
      Outcome(Response(400, SchemaError), db)
    else
      match FindById(db.rows, id)
      case None => Outcome(Response(404, Message(EmployeeNotFound)), db)
      case Some(k) =>
        if EmailClash(db.rows, k, body) then
          Outcome(Response(500, Message(InternalError)), db)
        else
          var v := Edited(db.rows[k], body);
          assert !EmailTaken(db.rows, v.email) || v.email == db.rows[k].email;
          ReplaceKeepsWellFormed(db, k, v);
          Outcome(Response(200, EmployeeUpdated(ProfileOf(v))), Table(db.rows[k := v], db.nextId))
  }

  /** Removing a record keeps the table well formed, and its id is then gone. */
  lemma RemoveKeepsWellFormed(db: Table, k: int)
    requires 0 <= k < |db.rows|
    ensures WellFormed(db) ==> WellFormed(Table(db.rows[..k] + db.rows[k + 1..], db.nextId))
    ensures WellFormed(db) ==> !HasId(db.rows[..k] + db.rows[k + 1..], db.rows[k].id)
  {
    var rows := db.rows[..k] + db.rows[k + 1..];
    assert forall j | 0 <= j < |rows| :: rows[j] == db.rows[if j < k then j else j + 1];
  }

  /**
    `deleteEmployee`: anyone but a manager gets 403 and an absent id 404,
    both with the table untouched; otherwise exactly the record with that
    id is removed, keeping the order of the rest.
  */
  function DeleteEmployee(db: Table, caller: Claims, id: UserId): (r: Outcome)
    ensures WellFormed(db) ==> WellFormed(r.db)
    ensures !IsManager(caller) ==> r == Outcome(Response(403, Message(Forbidden)), db)
    ensures IsManager(caller) && !HasId(db.rows, id) ==> r == Outcome(Response(404, Message(EmployeeNotFound)), db)
    ensures r.response.status == 200 <==> IsManager(caller) && HasId(db.rows, id)
    ensures r.response.status != 200 ==> r.db == db
    ensures r.response.status == 200 ==>
      && r.response.payload == Message(EmployeeDeleted)
      && exists k | 0 <= k < |db.rows| && db.rows[k].id == id :: r.db == Table(db.rows[..k] + db.rows[k + 1..], db.nextId)
    ensures r.response.status == 200 && WellFormed(db) ==> !HasId(r.db.rows, id)
  {
    if !IsManager(caller) then
      Outcome(Response(403, Message(Forbidden)), db)
    else
      match FindById(db.rows, id)
      case None => Outcome(Response(404, Message(EmployeeNotFound)), db)
      case Some(k) =>
        RemoveKeepsWellFormed(db, k);
        Outcome(Response(200, Message(EmployeeDeleted)), Table(db.rows[..k] + db.rows[k + 1..], db.nextId))
  }

  /** `getCurrentUser`: 401 without an id claim, 404 when the record is gone, else its projection. */
  function GetCurrentUser(db: Table, caller: Claims): (r: Response)
    ensures caller.id.None? ==> r == Response(401, Message(Unauthorized))
    ensures caller.id.Some? && !HasId(db.rows, caller.id.value) ==> r == Response(404, Message(UserNotFound))
    ensures r.status == 200 <==> caller.id.Some? && HasId(db.rows, caller.id.value)
    ensures r.status == 200 ==>
      exists k | 0 <= k < |db.rows| && db.rows[k].id == caller.id.value :: r.payload == OneProfile(ProfileOf(db.rows[k]))
  {
    if caller.id.None? then
      Response(401, Message(Unauthorized))
    else
      match FindById(db.rows, caller.id.value)
      case None => Response(404, Message(UserNotFound))
      case Some(k) => Response(200, OneProfile(ProfileOf(db.rows[k])))
  }
}
