/**
  How the client pages and the server handlers fit together: which form
  bodies the server's schemas accept, where the client's own checks are
  looser than the server's, where a login lands, and what the dashboards
  show of a listing.
*/
module Integration {
  import opened Wrappers
  import opened Text
  import opened Checks
  import EmailPattern
  import opened UserModel
  import opened UserController
  import opened EmployeeSearch
  import RegisterPage
  import LoginPage
  import ResetPasswordPage
  import ManagerDashboard
  import EmployeeDashboard

  lemma NotBlankIsNotEmpty(s: string)
    requires !IsBlank(s)
    ensures s != ""
  {
  }

  lemma MatchedIsNotEmpty(s: string)
    requires EmailPattern.Matches(s)
    ensures s != ""
  {
    EmailPattern.MatchedIsNotBlank(s);
  }

  /**
    A registration form that passes `validate` is accepted by the server's
    schema as long as the name has at most 20 characters and Joi's address
    test agrees with the client's pattern: the client checks neither.
  */
  lemma RegisterFormAccepted(libs: Libraries, form: RegisterPage.Form, role: string, confirm: string)
    requires RegisterPage.Validate(form, role, confirm) == Pass
    requires role == "employee" || role == "manager"
    requires |form.name| <= 20 && libs.joiEmail(form.email)
    ensures RegisterSchemaOk(libs, RegisterPage.RequestBody(form, role))
  {
    var body := RegisterPage.RequestBody(form, role);
    TrimShortens(form.name);
    MatchedIsNotEmpty(form.email);
    NotBlankIsNotEmpty(form.password);
    if role == "employee" {
      NotBlankIsNotEmpty(form.department);
    } else {
      NotBlankIsNotEmpty(form.adminCode);
    }
    assert Lookup(body, "name") == Some(form.name);
    assert Lookup(body, "role") == Some(role);
  }

  /** The name limit lives on the server alone: a longer name passes `validate` and is refused there. */
  lemma LongNameRefusedOnlyByServer(libs: Libraries, form: RegisterPage.Form, role: string, confirm: string)
    requires |form.name| > 20
    ensures !RegisterSchemaOk(libs, RegisterPage.RequestBody(form, role))
  {
    var body := RegisterPage.RequestBody(form, role);
    assert Lookup(body, "name") == Some(form.name);
  }

  /** A login form that passes its checks is accepted by the login schema when Joi agrees on the address. */
  lemma LoginFormAccepted(libs: Libraries, email: string, password: string)
    requires LoginPage.Submit(email, password).Some? && libs.joiEmail(email)
    ensures LoginSchemaOk(libs, LoginPage.Submit(email, password).value)
  {
    var body := LoginPage.Submit(email, password).value;
    MatchedIsNotEmpty(email);
    NotBlankIsNotEmpty(password);
    assert Lookup(body, "email") == Some(email);
    assert Lookup(body, "password") == Some(password);
  }

  /**
    After a successful login the client never falls back to '/dashboard':
    the server only ever answers with a stored role, 'employee' or
    'manager'.
  */
  lemma LoginLandsOnARoleDashboard(libs: Libraries, db: Table, body: Body)
    requires Login(libs, db, body).status == 200
    ensures var path := LoginPage.Destination(RoleName(Login(libs, db, body).payload.role));
            path == "/manager-dashboard" || path == "/employee-dashboard"
  {
  }

  /** A forgot-password request the client sends passes the server's check when Joi agrees on the address. */
  lemma ForgotRequestAccepted(libs: Libraries, email: string)
    requires LoginPage.ForgotPassword(email).Some? && libs.joiEmail(email)
    ensures ForgotSchemaOk(libs, LoginPage.ForgotPassword(email).value)
  {
    var body := LoginPage.ForgotPassword(email).value;
    assert Lookup(body, "email") == Some(email);
  }

  /** Every reset the page sends carries a password the server's length check accepts. */
  lemma ResetRequestAccepted(token: string, form: ResetPasswordPage.Form)
    requires ResetPasswordPage.Submit(token, form).Some?
    ensures NewPasswordOk(ResetPasswordPage.Submit(token, form).value.body)
  {
  }

  /** An add form that passes `handleAdd` is accepted by the add schema when the name has 3 to 20 characters and Joi agrees on the address. */
  lemma AddFormAccepted(libs: Libraries, form: ManagerDashboard.AddForm)
    requires ManagerDashboard.CheckAdd(form) == Pass
    requires 3 <= |form.name| <= 20 && libs.joiEmail(form.email)
    ensures AddSchemaOk(libs, ManagerDashboard.AddBody(form))
  {
    var body := ManagerDashboard.AddBody(form);
    MatchedIsNotEmpty(form.email);
    NotBlankIsNotEmpty(form.department);
    NotBlankIsNotEmpty(form.password);
    assert Lookup(body, "name") == Some(form.name);
  }

  /** `handleAdd` lets a one- or two-character name through, and the server refuses it. */
  lemma ShortNameRefusedOnlyByServer(libs: Libraries, form: ManagerDashboard.AddForm)
    requires 0 < |form.name| < 3
    ensures !AddSchemaOk(libs, ManagerDashboard.AddBody(form))
  {
    var body := ManagerDashboard.AddBody(form);
    assert Lookup(body, "name") == Some(form.name);
  }

  /** A profile as the client receives it in JSON; `idText` is how an id is written there. */
  function Received(p: Profile, idText: UserId -> string): Employee {
    EmployeeSearch.Employee.Employee(idText(p.id), p.name, p.email, p.department, RoleName(p.role))
  }

  function ReceivedAll(list: seq<Profile>, idText: UserId -> string): (r: seq<Employee>)
    ensures |r| == |list| && forall k | 0 <= k < |list| :: r[k] == Received(list[k], idText)
  {
    if list == [] then [] else [Received(list[0], idText)] + ReceivedAll(list[1..], idText)
  }

  /**
    The manager's roster shows exactly the employee accounts: the server
    lists every record, managers included, and the page keeps those whose
    role is 'employee'.
  */
  lemma ManagerRosterIsEmployees(db: Table, caller: Claims, idText: UserId -> string)
    requires caller.id.Some? && IsManager(caller)
    ensures GetEmployees(db, caller).payload.Profiles?
    ensures var shown := ManagerDashboard.Fetched(Some(ReceivedAll(GetEmployees(db, caller).payload.list, idText)));
            forall e :: e in shown <==>
              exists k | 0 <= k < |db.rows| :: db.rows[k].role == Role.Employee && e == Received(ProfileOf(db.rows[k]), idText)
  {
    var received := ReceivedAll(ProfilesOf(db.rows), idText);
    forall e
      ensures e in received && e.role == "employee" <==>
              exists k | 0 <= k < |db.rows| :: db.rows[k].role == Role.Employee && e == Received(ProfileOf(db.rows[k]), idText)
    {
      if e in received && e.role == "employee" {
        var k :| 0 <= k < |received| && received[k] == e;
        assert db.rows[k].role == Role.Employee;
      }
      if exists k | 0 <= k < |db.rows| :: db.rows[k].role == Role.Employee && e == Received(ProfileOf(db.rows[k]), idText) {
        var k :| 0 <= k < |db.rows| && db.rows[k].role == Role.Employee && e == Received(ProfileOf(db.rows[k]), idText);
        assert received[k] == e;
      }
    }
  }

  /**
    An employee's dashboard shows their own record and nothing else, and
    an empty roster once the record is gone.
  */
  lemma EmployeeSeesOnlySelf(db: Table, caller: Claims, idText: UserId -> string)
    requires WellFormed(db)
    requires caller.id.Some? && Truthy(caller.role) && !IsManager(caller)
    ensures GetEmployees(db, caller).payload.Profiles?
    ensures var v := EmployeeDashboard.AfterFetch(Some(ReceivedAll(GetEmployees(db, caller).payload.list, idText)));
            forall e :: e in v.employees <==>
              exists k | 0 <= k < |db.rows| :: db.rows[k].id == caller.id.value && db.rows[k].role == Role.Employee
                                               && e == Received(ProfileOf(db.rows[k]), idText)
  {
    var list := GetEmployees(db, caller).payload.list;
    var received := ReceivedAll(list, idText);
    if list != [] {
      var k :| 0 <= k < |db.rows| && db.rows[k].id == caller.id.value && list == [ProfileOf(db.rows[k])];
      forall e
        ensures e in received && e.role == "employee" <==>
                exists j | 0 <= j < |db.rows| :: db.rows[j].id == caller.id.value && db.rows[j].role == Role.Employee
                                                 && e == Received(ProfileOf(db.rows[j]), idText)
      {
        if exists j | 0 <= j < |db.rows| :: db.rows[j].id == caller.id.value && db.rows[j].role == Role.Employee
                                            && e == Received(ProfileOf(db.rows[j]), idText) {
          var j :| 0 <= j < |db.rows| && db.rows[j].id == caller.id.value && db.rows[j].role == Role.Employee
                   && e == Received(ProfileOf(db.rows[j]), idText);
          assert j == k;
          assert received[0] == e;
        }
      }
    }
  }
}
