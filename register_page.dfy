/** The registration form: its `validate` chain and the body it posts to `/register`. */
module RegisterPage {
  import opened Text
  import opened Checks
  import EmailPattern

  /** The form's fields; the role ('employee' or 'manager') and the confirmation are kept beside it. */
  datatype Form = Form(name: string, email: string, password: string, department: string, adminCode: string)

  /** The checks of `validate`, in the order they run. */
  function Guards(form: Form, role: string, confirm: string): seq<Guard> {
    [ Guard(IsBlank(form.name), "Name is required"),
      Guard(|Trim(form.name)| < 3, "Name must be at least 3 characters."),
      Guard(IsBlank(form.email), "Email is required"),
      Guard(!EmailPattern.Matches(form.email), "Invalid email format"),
      Guard(IsBlank(form.password), "Password is required"),
      Guard(|form.password| < 6, "Password must be at least 6 characters."),
      Guard(IsBlank(confirm), "Please confirm your password."),
      Guard(form.password != confirm, "Passwords do not match."),
      Guard(role == "employee" && IsBlank(form.department), "Department is required for employees."),
      Guard(role == "manager" && IsBlank(form.adminCode), "Admin code is required for managers.") ]
  }

  /**
    `validate()`: `Pass` stands for `return true`, `Fail(m)` for the
    `toast.error(m)` a failing check returns. It passes exactly when the
    trimmed name has three characters, the address matches the pattern, the
    password is not blank, has six characters and equals the confirmation
    verbatim, and the role's own extra field is filled in.
  */
  function Validate(form: Form, role: string, confirm: string): (v: Verdict)
    ensures v == Pass <==>
      && |Trim(form.name)| >= 3
      && EmailPattern.Matches(form.email)
      && !IsBlank(form.password) && |form.password| >= 6
      && form.password == confirm
      && (role == "employee" ==> !IsBlank(form.department))
      && (role == "manager" ==> !IsBlank(form.adminCode))
    ensures role != "employee" ==> v != Fail("Department is required for employees.")
    ensures role != "manager" ==> v != Fail("Admin code is required for managers.")
  {
    EmailPattern.MatchedIsNotBlank(form.email);
    if IsBlank(form.name) then Fail("Name is required")
    else if |Trim(form.name)| < 3 then Fail("Name must be at least 3 characters.")
    else if IsBlank(form.email) then Fail("Email is required")
    else if !EmailPattern.Matches(form.email) then Fail("Invalid email format")
    else if IsBlank(form.password) then Fail("Password is required")
    else if |form.password| < 6 then Fail("Password must be at least 6 characters.")
    else if IsBlank(confirm) then Fail("Please confirm your password.")
    else if form.password != confirm then Fail("Passwords do not match.")
    else if role == "employee" && IsBlank(form.department) then Fail("Department is required for employees.")
    else if role == "manager" && IsBlank(form.adminCode) then Fail("Admin code is required for managers.")
    else Pass
  }

  /** `validate` is the ordered chain `Guards`: the first failing check decides the message. */
  lemma ValidateFollowsGuards(form: Form, role: string, confirm: string)
    ensures Validate(form, role, confirm) == FirstFailure(Guards(form, role, confirm))
  {
    var gs := Guards(form, role, confirm);
    if IsBlank(form.name) {
      FirstFailureIsFirst(gs, 0);
    } else if |Trim(form.name)| < 3 {
      FirstFailureIsFirst(gs, 1);
    } else if IsBlank(form.email) {
      FirstFailureIsFirst(gs, 2);
    } else if !EmailPattern.Matches(form.email) {
      FirstFailureIsFirst(gs, 3);
    } else if IsBlank(form.password) {
      FirstFailureIsFirst(gs, 4);
    } else if |form.password| < 6 {
      FirstFailureIsFirst(gs, 5);
    } else if IsBlank(confirm) {
      FirstFailureIsFirst(gs, 6);
    } else if form.password != confirm {
      FirstFailureIsFirst(gs, 7);
    } else if role == "employee" && IsBlank(form.department) {
      FirstFailureIsFirst(gs, 8);
    } else if role == "manager" && IsBlank(form.adminCode) {
      FirstFailureIsFirst(gs, 9);
    }
  }

  /** The JSON body posted to `/register`: the department only for employees, the admin code only for managers. */
  function RequestBody(form: Form, role: string): (body: map<string, string>)
    ensures body.Keys == {"name", "email", "password", "department", "adminCode", "role"}
    ensures body["name"] == form.name && body["email"] == form.email && body["password"] == form.password
    ensures body["role"] == role
    ensures body["department"] == (if role == "employee" then form.department else "")
    ensures body["adminCode"] == (if role == "manager" then form.adminCode else "")
  {
    map[
      "name" := form.name,
      "email" := form.email,
      "password" := form.password,
      "department" := if role == "employee" then form.department else "",
      "adminCode" := if role == "manager" then form.adminCode else "",
      "role" := role
    ]
  }
}
