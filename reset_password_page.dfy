/** The reset-password form reached from the emailed link `/reset-password/:token`. */
module ResetPasswordPage {
  import opened Wrappers
  import opened Text
  import opened Checks

  datatype Form = Form(password: string, confirm: string)

  /** What the page posts: the token from the link in the path and a body with the password only. */
  datatype Request = Request(token: string, body: map<string, string>)

  /** The checks of `handleSubmit`, in the order they run. */
  function Guards(form: Form): seq<Guard> {
    [ Guard(IsBlank(form.password), "Password is required"),
      Guard(|form.password| < 6, "Password must be at least 6 characters"),
      Guard(IsBlank(form.confirm), "Please confirm your password."),
      Guard(form.password != form.confirm, "Passwords do not match") ]
  }

  /**
    The guards of `handleSubmit`: they let the request through exactly when
    the password is not blank, has six characters, and equals the
    confirmation verbatim (the confirmation's own blank check is then
    implied).
  */
  function Check(form: Form): (v: Verdict)
    ensures v == Pass <==> !IsBlank(form.password) && |form.password| >= 6 && form.password == form.confirm
  {
    if IsBlank(form.password) then Fail("Password is required")
    else if |form.password| < 6 then Fail("Password must be at least 6 characters")
    else if IsBlank(form.confirm) then Fail("Please confirm your password.")
    else if form.password != form.confirm then Fail("Passwords do not match")
    else Pass
  }

  lemma CheckFollowsGuards(form: Form)
    ensures Check(form) == FirstFailure(Guards(form))
  {
    var gs := Guards(form);
    if IsBlank(form.password) {
      FirstFailureIsFirst(gs, 0);
    } else if |form.password| < 6 {
      FirstFailureIsFirst(gs, 1);
    } else if IsBlank(form.confirm) {
      FirstFailureIsFirst(gs, 2);
    } else if form.password != form.confirm {
      FirstFailureIsFirst(gs, 3);
    }
  }

  /** `handleSubmit`: the request it sends, or None when a check stopped it. */
  function Submit(token: string, form: Form): (request: Option<Request>)
    ensures request.Some? <==> Check(form) == Pass
    ensures request.Some? ==> request.value == Request(token, map["password" := form.password])
  {
    if Check(form) == Pass then Some(Request(token, map["password" := form.password])) else None
  }
}
