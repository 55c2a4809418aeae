/** The manager's roster page: loading the list, the add-employee form, and the search box. */
module ManagerDashboard {
  import opened Wrappers
  import opened Text
  import opened Checks
  import EmailPattern
  import opened EmployeeSearch

  /**
    `fetchEmployees`: the records with role 'employee' out of the reply, or
    the empty list when the request failed (None).
  */
  function Fetched(reply: Option<seq<Employee>>): (employees: seq<Employee>)
    ensures reply.None? ==> employees == []
    ensures reply.Some? ==> Sublist(employees, reply.value)
    ensures reply.Some? ==> forall e :: e in employees <==> e in reply.value && e.role == "employee"
    ensures reply.Some? ==> forall e :: multiset(employees)[e] == if e.role == "employee" then multiset(reply.value)[e] else 0
  {
    match reply
    case None => []
    case Some(data) => OnlyEmployees(data)
  }

  /** The `filtered` list the table shows. */
  function Filtered(employees: seq<Employee>, search: string): (shown: seq<Employee>)
    ensures IsBlank(search) ==> shown == employees
    ensures !IsBlank(search) ==> forall e :: e in shown <==> e in employees && MatchesSearch(e, search)
    ensures !IsBlank(search) ==> forall e :: multiset(shown)[e] == if MatchesSearch(e, search) then multiset(employees)[e] else 0
    ensures Sublist(shown, employees)
  {
    Search(employees, search)
  }

  datatype AddForm = AddForm(name: string, email: string, department: string, password: string)

  const EmptyAddForm := AddForm("", "", "", "")

  /** The checks of `handleAdd`, in the order they run. */
  function AddGuards(form: AddForm): seq<Guard> {
    [ Guard(IsBlank(form.name) || IsBlank(form.email) || IsBlank(form.department) || IsBlank(form.password),
            "All fields are required."),
      Guard(!EmailPattern.Matches(form.email), "Invalid email format."),
      Guard(|form.password| < 6, "Password must be at least 6 characters.") ]
  }

  /**
    The guards of `handleAdd`: the request goes out exactly when name,
    department and password are not blank, the address matches, and the
    untrimmed password has six characters.
  */
  function CheckAdd(form: AddForm): (v: Verdict)
    ensures v == Pass <==>
      && !IsBlank(form.name) && !IsBlank(form.department) && !IsBlank(form.password)
      && EmailPattern.Matches(form.email) && |form.password| >= 6
  {
    EmailPattern.MatchedIsNotBlank(form.email);
    if IsBlank(form.name) || IsBlank(form.email) || IsBlank(form.department) || IsBlank(form.password) then
      Fail("All fields are required.")
    else if !EmailPattern.Matches(form.email) then Fail("Invalid email format.")
    else if |form.password| < 6 then Fail("Password must be at least 6 characters.")
    else Pass
  }

  lemma CheckAddFollowsGuards(form: AddForm)
    ensures CheckAdd(form) == FirstFailure(AddGuards(form))
  {
    var gs := AddGuards(form);
    if gs[0].fails {
      FirstFailureIsFirst(gs, 0);
    } else if gs[1].fails {
      FirstFailureIsFirst(gs, 1);
    } else if gs[2].fails {
      FirstFailureIsFirst(gs, 2);
    }
  }

  /** The body posted to `/employees`: the form as it stands. */
  function AddBody(form: AddForm): (body: map<string, string>)
    ensures body.Keys == {"name", "email", "department", "password"}
    ensures body["name"] == form.name && body["email"] == form.email
    ensures body["department"] == form.department && body["password"] == form.password
  {
    map["name" := form.name, "email" := form.email, "department" := form.department, "password" := form.password]
  }

  /** How the server answered the add request: success, or a failure with the reply's message ('' when none). */
  datatype AddReply = Added | Rejected(message: string)

  /** What `handleAdd` leaves behind: the form, the error line, and the body it posted if any. */
  datatype AddState = AddState(form: AddForm, error: string, sent: Option<map<string, string>>)

  /**
    `handleAdd`: a failed check shows its message and sends nothing; a
    sent form is cleared when the server accepts it, and otherwise stays,
    with the server's message (or 'Add failed') as the error.
  */
  function HandleAdd(form: AddForm, reply: AddReply): (s: AddState)
    ensures s.sent.Some? <==> CheckAdd(form) == Pass
    ensures s.sent.None? ==> s.form == form && s.error == CheckAdd(form).message
    ensures s.sent.Some? ==> s.sent.value == AddBody(form)
    ensures s.sent.Some? && reply == Added ==> s.form == EmptyAddForm && s.error == ""
    ensures s.sent.Some? && reply.Rejected? ==>
      s.form == form && s.error == (if reply.message == "" then "Add failed" else reply.message)
    ensures s.sent.Some? && reply.Rejected? ==> s.error != ""
  {
    match CheckAdd(form)
    case Fail(message) => AddState(form, message, None)
    case Pass =>
      match reply
      case Added => AddState(EmptyAddForm, "", Some(AddBody(form)))
      case Rejected(message) =>
        AddState(form, if message == "" then "Add failed" else message, Some(AddBody(form)))
  }
}
