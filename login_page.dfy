/** The login form: its address check, the submit and forgot-password guards, and where a role lands. */
module LoginPage {
  import opened Wrappers
  import opened Text
  import opened Checks
  import EmailPattern

  /** `validateEmail`: the same pattern as the other forms (`[^\s@]` is `[^@\s]`). */
  function ValidateEmail(email: string): (ok: bool)
    ensures ok <==> EmailPattern.Shaped(email)
  {
    EmailPattern.MatchesIffShaped(email);
    EmailPattern.Matches(email)
  }

  /** The checks of `handleSubmit`, in the order they run. */
  function SubmitGuards(email: string, password: string): seq<Guard> {
    [ Guard(IsBlank(email), "Email is required"),
      Guard(!ValidateEmail(email), "Please enter a valid email address"),
      Guard(IsBlank(password), "Password is required"),
      Guard(|password| < 6, "Password must be at least 6 characters") ]
  }

  /**
    The guards of `handleSubmit` before the request: it goes out exactly
    when the address matches and the password is six characters long and
    not all whitespace.
  */
  function CheckSubmit(email: string, password: string): (v: Verdict)
    ensures v == Pass <==> ValidateEmail(email) && !IsBlank(password) && |password| >= 6
  {
    EmailPattern.MatchedIsNotBlank(email);
    if IsBlank(email) then Fail("Email is required")
    else if !ValidateEmail(email) then Fail("Please enter a valid email address")
    else if IsBlank(password) then Fail("Password is required")
    else if |password| < 6 then Fail("Password must be at least 6 characters")
    else Pass
  }

  lemma CheckSubmitFollowsGuards(email: string, password: string)
    ensures CheckSubmit(email, password) == FirstFailure(SubmitGuards(email, password))
  {
    var gs := SubmitGuards(email, password);
    if IsBlank(email) {
      FirstFailureIsFirst(gs, 0);
    } else if !ValidateEmail(email) {
      FirstFailureIsFirst(gs, 1);
    } else if IsBlank(password) {
      FirstFailureIsFirst(gs, 2);
    } else if |password| < 6 {
      FirstFailureIsFirst(gs, 3);
    }
  }

  /** `handleSubmit`: the body posted to `/login`, or None when a guard stopped it. */
  function Submit(email: string, password: string): (request: Option<map<string, string>>)
    ensures request.Some? <==> CheckSubmit(email, password) == Pass
    ensures request.Some? ==> request.value == map["email" := email, "password" := password]
  {
    if CheckSubmit(email, password) == Pass then Some(map["email" := email, "password" := password]) else None
  }

  /**
    `handleForgotPassword`: the body posted to `/forgot-password`, or None
    for an empty or malformed address. It is sent exactly for addresses
    with no whitespace, one '@' with text before it, and a '.' after it
    with text on both sides.
  */
  function ForgotPassword(email: string): (request: Option<map<string, string>>)
    ensures request.Some? <==> EmailPattern.Shaped(email)
    ensures request.Some? ==> email != "" && request.value == map["email" := email]
  {
    EmailPattern.MatchesIffShaped(email);
    if email == "" || !ValidateEmail(email) then None else Some(map["email" := email])
  }

  /** The page `handleSubmit` navigates to after a successful login, from the role in the reply. */
  function Destination(role: string): (path: string)
    ensures path == "/manager-dashboard" <==> role == "manager"
    ensures path == "/employee-dashboard" <==> role == "employee"
    ensures path == "/dashboard" <==> role != "manager" && role != "employee"
  {
    if role == "manager" then "/manager-dashboard"
    else if role == "employee" then "/employee-dashboard"
    else "/dashboard"
  }
}
