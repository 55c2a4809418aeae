# AccessNest accounts, in Dafny

AccessNest is an employee-management web application. Managers create,
update, delete and list employee accounts, and employees see their own
record. Users log in with a password and get a signed session token, and
can reset a forgotten password through an emailed one-hour link. This
project models the account side of the system:

- **The server's user handlers** (`server/controller/User.js`). Each
  handler is a pure function from the table before the request to the
  reply and the table after it (`UserController`). A class `Accounts`
  (`AccountStore`) holds the records and the id counter as fields. Its
  methods follow each handler statement by statement and are proved to
  give exactly what the function specifies. The table (`UserModel`) is a
  sequence of records in collection order, so `findOne` returns the first
  match. Its invariant (`WellFormed`) is that ids and emails are unique.
  A record's reset life cycle is `NoReset`, then `Pending(digest,
  deadline)`, then `NoReset` again.
- **The request gate** (`server/router/User.js`). This covers where the
  token is read from, how `authMiddleware` sorts `jwt.verify` outcomes
  into replies, the admin-code check in front of `/register`, and which
  routes are behind the middleware (`UserRouter`). A method `Serve` runs
  the router over the live store.
- **The client's checks.** These are the email pattern (`EmailPattern`)
  and the ordered, first-failure-wins form checks (`Checks`,
  `RegisterPage`, `LoginPage`, `ResetPasswordPage`,
  `ManagerDashboard.CheckAdd`). Then come the role filter and the
  case-insensitive search both dashboards use (`EmployeeSearch`,
  `ManagerDashboard`, `EmployeeDashboard`), and JavaScript's string
  primitives (`Text`).
- **How the two sides fit** (`Integration`, `ControllerProperties`). This
  covers which client bodies the server's schemas accept and where the
  client is looser. It also covers the account and reset life cycles
  across several requests.

The libraries the server calls are function values of the datatype
`UserController.Libraries`: SHA-256 (always 64 lower-case hex digits),
`bcrypt.hash`, `bcrypt.compare` and Joi's `email()` test. `jwt.verify` is
a parameter that returns the decoded claims or the kind of error it threw.
These values also arrive as parameters:

- the clock (`Date.now()` in milliseconds);
- the bcrypt salt;
- the random reset secret;
- whether the reset mail went out;
- `process.env.ADMIN_CODE`.

Two behaviours of the code are worth knowing, and the model keeps both:

- A login with an unknown address answers 400 "User not found", and a
  wrong password answers 400 "Invalid password". The replies therefore
  reveal whether an address is registered.
- The middleware puts the whole decoded payload `{ id, email, role }` on
  `req.user`.

## Model

| member | source | states |
|---|---|---|
| UserModel.FindOne | server/controller/User.js:36 | `findOne` gives the first record the filter accepts, and None exactly when no record does |
| UserModel.FindByIdExact | server/controller/User.js:229 | in a table with unique ids, looking up a record's id finds that record |
| UserModel.FindByEmailExact | server/models/User.js:8-12 | with the unique index on email, looking up a record's address finds that record |
| UserModel.ResetMatchesIffPending | server/controller/User.js:191-194 | for a real 64-digit digest, the reset query matches exactly the records pending with that digest and a deadline strictly after now |
| UserController.RegisterSchemaFields | server/controller/User.js:12-27 | the registration schema passes exactly for a name of 3 to 20 characters, an address Joi accepts, a password of at least 6, a role of 'employee' or 'manager', a non-empty department for an employee and admin code for a manager, and no other keys |
| UserController.LoginSchemaFields | server/controller/User.js:67-70 | the login schema passes exactly for an address Joi accepts and a password of at least 6 characters, and no other keys |
| UserController.ForgotSchemaFields | server/controller/User.js:117-120 | the forgot-password check passes exactly for a non-empty address Joi accepts, whatever else the body holds |
| UserController.AddSchemaFields | server/controller/User.js:246-251 | the add schema passes exactly for a name of 3 to 20 characters, an address Joi accepts, a non-empty department, a password of at least 6, and no other keys |
| UserController.UpdateSchemaFields | server/controller/User.js:296-300 | the update schema allows only name, email and department, each optional, and a present one must be non-empty, a name 3 to 20 characters and an address one Joi accepts |
| UserController.AccountFor | server/controller/User.js:36-38 | the account looked up by address is absent exactly when no record has the address; otherwise it is a record with that address |
| UserController.AppendKeepsWellFormed | server/controller/User.js:45-55 | saving a new record with a fresh id and an unused address keeps ids and addresses unique |
| UserController.ReplaceKeepsWellFormed | server/controller/User.js:141-143 | re-saving a record with the same id, and its own or an unused address, keeps the table well formed |
| UserController.RemoveKeepsWellFormed | server/controller/User.js:326 | deleting a record keeps the table well formed, and afterwards no record has its id |
| UserController.Register | server/controller/User.js:9-61 | a refused body gives 400 and a taken address gives 400 'User already exists', both with the table unchanged; 201 exactly when the schema passes and the address is new; then exactly one record is appended with the bcrypt hash, the chosen role, the department only for employees, the admin code only for managers, and no reset pending; uniqueness is preserved |
| UserController.Login | server/controller/User.js:64-111 | a refused body gives 400, an unknown address 400 'User not found', a bcrypt mismatch 400 'Invalid password'; 200 exactly when the account exists and bcrypt accepts, with the stored role and claims {id, email, role} of that account |
| UserController.Requested | server/controller/User.js:136-142 | after a reset request, the record is pending with the digest and a deadline one hour after now, and every other field is unchanged |
| UserController.ForgotPassword | server/controller/User.js:114-175 | a refused address gives 400 before any lookup; an unknown address gives the same 200 as a known one and changes nothing; for a known address, only that record changes, storing the secret's digest and now + 3600000; a mail failure gives 500 with the reset already pending; uniqueness is preserved |
| UserController.Redeemed | server/controller/User.js:200-204 | a redeemed record holds the new hash as its password, an empty token and no deadline, so no reset is pending; every other field is unchanged |
| UserController.ResetPassword | server/controller/User.js:178-210 | a missing or short password gives 400 with no lookup; 200 exactly when some record holds the presented secret's digest with a deadline after now; then only that record changes, its password becomes the bcrypt hash of the new password and no reset is pending; every failure leaves the table unchanged |
| UserController.ProfilesOf | server/controller/User.js:224 | the listing projects every record, in collection order |
| UserController.GetEmployees | server/controller/User.js:213-237 | a missing id or role gives 401; a manager gets every record, managers included; anyone else gets their own record, or an empty list exactly when it is gone |
| UserController.AddEmployee | server/controller/User.js:240-287 | a non-manager gets 403 before validation and a refused body 400, both with the table unchanged; a taken address gives 400 'Email already exists'; 201 exactly for a manager with a valid body and a new address; then one record is appended with role employee, the hashed password, no admin code and no reset pending, and the reply carries its profile; uniqueness is preserved |
| UserController.Edited | server/controller/User.js:305-308 | an update replaces name, email and department only where the body has them; id, password, role, admin code and reset fields stay |
| UserController.UpdateEmployee | server/controller/User.js:290-317 | a non-manager gets 403, a refused body 400, an absent id 404, and an address another record holds 500 from the unique index; every failure leaves the table unchanged; in a well-formed table 200 exactly when a manager sends a valid body for an existing id without such a clash; a success replaces exactly the record with that id by its edited version and replies with its profile; uniqueness is preserved |
| UserController.DeleteEmployee | server/controller/User.js:320-333 | a non-manager gets 403 and an absent id 404, both unchanged; 200 exactly when a manager names an existing id; then exactly that record is removed, the rest keep their order, and the id is gone |
| UserController.GetCurrentUser | server/controller/User.js:336-346 | 401 without an id claim, 404 'User not found' when the record is gone, else 200 with that record's profile |
| AccountStore.Accounts.Register | server/controller/User.js:34-56 | the step-by-step handler gives the reply and new table `UserController.Register` specifies and keeps the store well formed |
| AccountStore.Accounts.Login | server/controller/User.js:77-106 | the step-by-step login gives the reply `UserController.Login` specifies and changes nothing |
| AccountStore.Accounts.ForgotPassword | server/controller/User.js:127-170 | the step-by-step field assignments give the reply and table `UserController.ForgotPassword` specifies |
| AccountStore.Accounts.ResetPassword | server/controller/User.js:181-205 | the step-by-step field assignments give the reply and table `UserController.ResetPassword` specifies |
| AccountStore.Accounts.GetEmployees | server/controller/User.js:216-231 | gives the reply `UserController.GetEmployees` specifies and changes nothing |
| AccountStore.Accounts.AddEmployee | server/controller/User.js:242-282 | gives the reply and table `UserController.AddEmployee` specifies and keeps the store well formed |
| AccountStore.Accounts.UpdateEmployee | server/controller/User.js:292-312 | gives the reply and table `UserController.UpdateEmployee` specifies and keeps the store well formed |
| AccountStore.Accounts.DeleteEmployee | server/controller/User.js:322-328 | gives the reply and table `UserController.DeleteEmployee` specifies and keeps the store well formed |
| AccountStore.Accounts.GetCurrentUser | server/controller/User.js:338-342 | gives the reply `UserController.GetCurrentUser` specifies and changes nothing |
| ControllerProperties.RegisterThenLogin | server/controller/User.js:42-106 | if bcrypt accepts passwords against their own hashes, a freshly registered account logs in with its address and password and gets back its chosen role |
| ControllerProperties.AddedEmployeeCanLogIn | server/controller/User.js:262-272 | an employee a manager adds can log in with the password the manager chose, as an employee |
| ControllerProperties.AddedEmployeeIsListed | server/controller/User.js:222-226 | after an add, a manager's listing is the old listing with the new employee's profile at the end |
| ControllerProperties.DeletedUserIsGone | server/controller/User.js:326-341 | after a delete, `/me` answers 404 for that id and a non-manager owner's listing is empty |
| ControllerProperties.ForgotMakesPending | server/controller/User.js:136-143 | a reset requested with a fresh secret leaves exactly the addressed record pending with the digest and a one-hour deadline, and no other record holds that digest |
| ControllerProperties.ForgotThenReset | server/controller/User.js:136-205 | a fresh reset link redeemed within the hour succeeds, and afterwards the table is the original one with that account alone redeemed: its password is the new hash and no reset is pending |
| ControllerProperties.ResetThenLogin | server/controller/User.js:178-205 | if bcrypt accepts passwords against their own hashes, after a reset redeemed within the hour the account logs in with the new password and gets back its own role and claims |
| ControllerProperties.ResetLinkExpires | server/controller/User.js:191-199 | once the hour after the request has passed, the secret is refused with 400, whatever password comes with it, and nothing changes |
| ControllerProperties.ResetIsSingleUse | server/controller/User.js:200-205 | after a successful reset no record accepts the same secret at any later time, provided at most one record held its digest; a second reset answers 400 |
| UserRouter.TokenOf | server/router/User.js:19-20 | a non-empty cookie is the token; with no cookie and no header there is none; otherwise the token is the header with its first 'Bearer ' removed, or none when that leaves nothing; an extracted token is never empty |
| Text.ReplaceFirst | server/router/User.js:20 | `replace` with a string pattern replaces only the first occurrence, and leaves a string without the pattern unchanged |
| UserRouter.StripsBearerPrefix | server/router/User.js:20 | removing the first 'Bearer ' from 'Bearer x' gives exactly x |
| UserRouter.BearerHeaderToken | server/router/User.js:19-20 | without a cookie, the header 'Bearer x' presents x, and 'Bearer ' alone presents no token |
| UserRouter.BareHeaderToken | server/router/User.js:20 | a header with no 'Bearer ' in it is presented unchanged |
| UserRouter.Authenticate | server/router/User.js:17-45 | no token gives 401 'No token provided'; the request is admitted exactly when the token verifies, with the decoded claims as `req.user`; an expired token gives 401 'Token expired', a `JsonWebTokenError` 400 'Invalid token' and any other failure 400 'JWT error' |
| UserRouter.NoTokenNeverVerified | server/router/User.js:21-24 | without a token the answer does not depend on what the verifier would say |
| UserRouter.CookieOverridesHeader | server/router/User.js:19-20 | with a non-empty cookie, the authorization header plays no part |
| UserRouter.UnsetAdminCodeBlocksManagers | server/router/User.js:50-55 | with no admin code configured, no manager registration passes the guard |
| UserRouter.Dispatch | server/router/User.js:58-78 | every route's handler keeps the table well formed; login, the listing and `/me` never change it; `/register` answers 403 'Invalid admin code.' to a manager without the configured code; the employee routes answer 403 'Forbidden' to anyone but a manager, with the table unchanged |
| UserRouter.Route | server/router/User.js:47-78 | a protected route refused by the middleware answers with the middleware's reply and the table unchanged; a manager registration without the right code gets 403 'Invalid admin code.' before the controller; every route keeps the table well formed |
| UserRouter.NonManagerRegistrationPassesThrough | server/router/User.js:57-58 | a registration for any other role reaches `registerUser` unchanged |
| UserRouter.ManagerWithCodeReachesRegister | server/router/User.js:49-58 | a manager registration carrying the configured, non-empty admin code reaches `registerUser` unchanged |
| UserRouter.VerifiedClaimsReachHandler | server/router/User.js:25-29 | on a protected route, a token that verifies hands its decoded claims unchanged to the route's handler |
| UserRouter.PublicRoutesIgnoreToken | server/router/User.js:61-67 | register, login, forgot-password and reset-password answer the same whatever token the request carries |
| UserRouter.PublicRoutesRunTheirHandlers | server/router/User.js:60-67 | `/login`, `/forgot-password` and `/reset-password/:token` run `loginUser`, `forgotPassword` and `resetPassword` on the body as it came, login leaving the table unchanged |
| UserRouter.ProtectedRoutesNeedToken | server/router/User.js:69-78 | every `/employees` route and `/me` answer 401 'No token provided' to a request without a token and change nothing |
| UserRouter.ProtectedRoutesRunTheirHandlers | server/router/User.js:69-78 | with a token that verifies, each protected route runs its own handler with the decoded claims as `req.user`; the listing and `/me` leave the table unchanged |
| UserRouter.OnlyManagersEditEmployees | server/router/User.js:71-76 | the employee routes change the table only for a request whose token verifies to claims with role 'manager' |
| UserRouter.ManagerRegistrationNeedsCode | server/router/User.js:48-58 | a manager account is created through `/register` only when the body carries the configured, non-empty admin code |
| UserRouter.Serve | server/router/User.js:17-78 | running the middleware and then the handler on the live store gives the reply and table `Route` specifies |
| Text.BlankIffAllSpace | client/src/register/Register.jsx:29 | a string is blank after `trim()` exactly when every character is ECMAScript white space or a line terminator |
| Text.TrimShortens | client/src/register/Register.jsx:30 | trimming never lengthens a string |
| Text.IndexOf | client/src/manager/ManagerDashboard.jsx:177 | `indexOf` gives the first position where the text occurs, and none exactly when it occurs nowhere |
| EmailPattern.MatchesIffShaped | client/src/login/Login.jsx:12 | the address pattern holds exactly for strings with no white space and exactly one '@' with text before it, followed by a '.' with text on both sides |
| EmailPattern.MatchedIsNotBlank | client/src/register/Register.jsx:32-34 | an address the pattern accepts is never blank, so the blank check before it never hides a pattern failure |
| LoginPage.ValidateEmail | client/src/login/Login.jsx:12 | `validateEmail` holds exactly for an address with no white space, one '@' with text before it, and a '.' after it with text on both sides |
| Checks.FirstFailure | client/src/register/Register.jsx:28-47 | an ordered chain passes exactly when no check fails, and otherwise reports the message of a failing check |
| Checks.FirstFailureIsFirst | client/src/register/Register.jsx:29-45 | when check k fails and none before it does, the chain reports check k's message |
| RegisterPage.Validate | client/src/register/Register.jsx:28-47 | passes exactly when the trimmed name has 3 characters, the address matches, the password is not blank, has 6 characters and equals the confirmation verbatim, and the role's own field is filled in; the department and admin-code messages appear only for their own role |
| RegisterPage.ValidateFollowsGuards | client/src/register/Register.jsx:29-45 | `validate` is the ten checks in source order, first failure wins |
| RegisterPage.RequestBody | client/src/register/Register.jsx:56-63 | the body has the six keys; the department is sent only for employees and the admin code only for managers, '' otherwise |
| LoginPage.CheckSubmit | client/src/login/Login.jsx:42-47 | the login request goes out exactly when the address matches the pattern and the password is not blank and has 6 characters |
| LoginPage.CheckSubmitFollowsGuards | client/src/login/Login.jsx:42-47 | the four checks run in source order and the first failure decides the message |
| LoginPage.Submit | client/src/login/Login.jsx:40-58 | a request is sent exactly when the checks pass, and carries only the address and password |
| LoginPage.ForgotPassword | client/src/login/Login.jsx:18-28 | the reset request is sent exactly for a well-shaped address and carries only the address |
| LoginPage.Destination | client/src/login/Login.jsx:60-66 | 'manager' goes to the manager dashboard, 'employee' to the employee dashboard, and anything else to '/dashboard', each in both directions |
| ResetPasswordPage.Check | client/src/restPassword/ResetPassword.jsx:20-35 | passes exactly when the password is not blank, has 6 characters and equals the confirmation |
| ResetPasswordPage.CheckFollowsGuards | client/src/restPassword/ResetPassword.jsx:20-35 | the four checks run in source order and the first failure decides the message |
| ResetPasswordPage.Submit | client/src/restPassword/ResetPassword.jsx:36-43 | a request is sent exactly when the checks pass; it carries the link's token and a body with the password alone |
| EmployeeSearch.Keep | client/src/manager/ManagerDashboard.jsx:38 | `filter` keeps exactly the elements the predicate accepts, each as many times as it occurs |
| EmployeeSearch.KeepIsSublist | client/src/manager/ManagerDashboard.jsx:175 | `filter` keeps the order of what it keeps |
| EmployeeSearch.OnlyEmployees | client/src/employee/EmployeeDashboard.jsx:22 | the role filter keeps exactly the records with role 'employee', each as often as it occurs, in order |
| EmployeeSearch.Search | client/src/employee/EmployeeDashboard.jsx:34-45 | a blank search keeps the list as it is; otherwise it keeps exactly the records whose lower-cased name or email, or non-empty department, contains the lower-cased search text, each as often as it occurs; the result is an ordered sublist |
| ManagerDashboard.Fetched | client/src/manager/ManagerDashboard.jsx:31-45 | the roster holds exactly the fetched records with role 'employee', each as often as fetched, in order; a failed fetch leaves it empty |
| ManagerDashboard.Filtered | client/src/manager/ManagerDashboard.jsx:173-181 | the shown rows are the roster for a blank search, else exactly the matching rows, each as often as in the roster, always as an ordered sublist |
| ManagerDashboard.CheckAdd | client/src/manager/ManagerDashboard.jsx:137-153 | the add request goes out exactly when name, department and password are not blank, the address matches, and the untrimmed password has 6 characters |
| ManagerDashboard.CheckAddFollowsGuards | client/src/manager/ManagerDashboard.jsx:137-153 | the three checks run in source order and the first failure decides the message |
| ManagerDashboard.AddBody | client/src/manager/ManagerDashboard.jsx:157 | the add request posts the form's four fields under their own keys and nothing else |
| ManagerDashboard.HandleAdd | client/src/manager/ManagerDashboard.jsx:134-170 | a failed check shows its message and sends nothing; a sent form is posted as it stands and is cleared when the server accepts it; otherwise the form is kept and the error is the server's message, or 'Add failed' when it sent none |
| EmployeeDashboard.AfterFetch | client/src/employee/EmployeeDashboard.jsx:12-31 | after a fetch both lists are the fetched employees, each as often as fetched, as an ordered sublist of the reply, or both are empty when the fetch failed |
| EmployeeDashboard.AfterSearch | client/src/employee/EmployeeDashboard.jsx:33-47 | a search leaves the roster alone and sets the shown list to the roster for a blank search, else to exactly the matching rows, each as often as in the roster, in order |
| Integration.RegisterFormAccepted | client/src/register/Register.jsx:28-63 | a registration the form lets through is accepted by the server's schema, provided the name has at most 20 characters and Joi agrees with the pattern on the address |
| Integration.LongNameRefusedOnlyByServer | server/controller/User.js:13 | a name over 20 characters, which the form never checks, is refused by the server's schema |
| Integration.LoginFormAccepted | client/src/login/Login.jsx:40-58 | a login the form lets through is accepted by the server's schema when Joi agrees on the address |
| Integration.LoginLandsOnARoleDashboard | client/src/login/Login.jsx:60-66 | after a successful login the client never goes to '/dashboard', because the server only answers with 'employee' or 'manager' |
| Integration.ForgotRequestAccepted | client/src/login/Login.jsx:18-28 | a reset request the page sends passes the server's check when Joi agrees on the address |
| Integration.ResetRequestAccepted | client/src/restPassword/ResetPassword.jsx:36-43 | every reset the page sends carries a password the server's length check accepts |
| Integration.AddFormAccepted | client/src/manager/ManagerDashboard.jsx:137-159 | an add the form lets through is accepted by the server's schema, provided the name has 3 to 20 characters and Joi agrees on the address |
| Integration.ShortNameRefusedOnlyByServer | server/controller/User.js:247 | a one- or two-character name passes the add form and is refused by the server |
| Integration.ManagerRosterIsEmployees | client/src/manager/ManagerDashboard.jsx:38 | the manager's roster shows exactly the profiles of the employee accounts, though the server lists managers too |
| Integration.EmployeeSeesOnlySelf | client/src/employee/EmployeeDashboard.jsx:22 | an employee's dashboard shows only their own record, and nothing once it is gone |

## Left out

- Cryptography, tokens and mail are not modelled. SHA-256, bcrypt, `jwt.sign`/`jwt.verify` and the mail transport are abstract functions or parameters. The one-day token lifetime (server/utils/jwt.js) is inside `verify`. The mail's contents and the reset URL are not modelled.
- ControllerProperties.RegisterThenLogin and ControllerProperties.AddedEmployeeCanLogIn assume bcrypt accepts a password against its own hash (`BcryptSound`).
- ControllerProperties.ForgotMakesPending, ControllerProperties.ForgotThenReset and ControllerProperties.ResetLinkExpires assume the new secret's SHA-256 digest is held by no record yet (`Unused`), which stands for the 32 random bytes never repeating.
- ControllerProperties.ResetIsSingleUse assumes at most one record holds the redeemed digest (`SingleHolder`); the source does not enforce this.
- ControllerProperties.ResetThenLogin assumes both `BcryptSound` and `Unused`.
- Integration.RegisterFormAccepted, Integration.LoginFormAccepted, Integration.ForgotRequestAccepted and Integration.AddFormAccepted assume that Joi's `email()` accepts the address the client's pattern let through. Joi's address grammar is not modelled, so the model does not say whether the two checks agree.
- No other member assumes anything about the libraries. The router lemmas that name what `verify` returns (UserRouter.VerifiedClaimsReachHandler, UserRouter.ProtectedRoutesRunTheirHandlers) only pick out that case.
- Cookie details are not modelled: the login cookie's attributes (httpOnly, one-day maxAge, sameSite) and the signed token string. `LoginSuccess` carries the claims that are signed, not the token.
- Reply wording is partly abstract. Joi's error messages are the single payload `SchemaError`. The `error` detail in the middleware's replies and the fixed 'Login successful', 'Employee added' and 'Employee updated' message texts are not modelled.
- Database and library exceptions answer 500 in the source and are left out. Two exceptions to this are modelled: the mail failure, and an update that collides with another record's address on the unique index. The race between the duplicate-address lookup and the save is not modelled.
- Ids are a counter standing for generated ObjectIds. Malformed ids in a path (a cast error) are not modelled, and neither are falsy ids.
- The stored record has `resetPasswordToken`, `resetPasswordExpires` and `adminCode` fields, as the controller assigns them. The mongoose schema (server/models/User.js) does not declare them. How mongoose's strict mode treats undeclared fields is not modelled, and neither are the timestamps it adds.
- Request bodies map strings to strings. JSON values of other types are not modelled.
- RegisterPage.Validate: `Fail(m)` stands for the value that `toast.error(m)` returns. handleSubmit stops only on a falsy result, which depends on react-hot-toast. So the model does not claim that a failed check stops the registration request.
- Lengths count characters. JavaScript counts UTF-16 code units. `toLowerCase` is modelled on ASCII letters only.
- React rendering, state hooks, loading flags, toasts, navigation timers, and the dashboards' edit and delete handlers are not modelled. The same goes for the client routes (client/src/App.jsx), the search box component, and server start-up.
