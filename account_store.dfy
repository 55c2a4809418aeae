/**
  The user collection as the handlers change it: an object whose fields
  are the records in collection order and the id counter. Each method
  follows its handler statement by statement and is proved to produce the
  reply and the new table that `UserController` specifies.
*/
module AccountStore {
  import opened Wrappers
  import opened UserModel
  import opened UserController

  class Accounts {
    var rows: seq<User>
    var nextId: UserId
    const libs: Libraries

    /** The abstract value of the store. */
    function Snapshot(): Table
      reads this
    {
      Table(rows, nextId)
    }

    ghost predicate Valid()
      reads this
    {
      WellFormed(Snapshot())
    }

    constructor (libs: Libraries)
      ensures Valid() && Snapshot() == Table([], 0) && this.libs == libs
    {
      rows := [];
      nextId := 0;
      this.libs := libs;
    }

    method Register(body: Body, salt: Salt) returns (response: Response)
      requires Valid()
      modifies this
      ensures Valid()
      ensures Outcome(response, Snapshot()) == UserController.Register(libs, old(Snapshot()), body, salt)
    {
      if !RegisterSchemaOk(libs, body) {
        return Response(400, SchemaError);
      }
      var name, email, password := Field(body, "name"), Field(body, "email"), Field(body, "password");
      var existing := FindByEmail(rows, email);
      if existing.Some? {
        return Response(400, Message(UserExists));
      }
      var hashed := libs.bcryptHash(password, salt);
      var role := if Field(body, "role") == "employee" then Employee else Manager;
      var newUser := User(nextId, name, email, hashed, role,
                          if role == Employee then Field(body, "department") else "",
                          if role == Manager then Field(body, "adminCode") else "",
                          None, None);
      rows := rows + [newUser];
      nextId := nextId + 1;
      response := Response(201, Message(Registered));
    }

    method Login(body: Body) returns (response: Response)
      ensures response == UserController.Login(libs, Snapshot(), body)
    {
      if !LoginSchemaOk(libs, body) {
        return Response(400, SchemaError);
      }
      var email, password := Field(body, "email"), Field(body, "password");
      var existing := FindByEmail(rows, email);
      if existing.None? {
        return Response(400, Message(UserNotFound));
      }
      var account := rows[existing.value];
      var isMatch := libs.bcryptCompare(password, account.password);
      if !isMatch {
        return Response(400, Message(InvalidPassword));
      }
      response := Response(200, LoginSuccess(account.role, ClaimsOf(account)));
    }

    method ForgotPassword(body: Body, secret: string, now: int, mailDelivered: bool) returns (response: Response)
      requires Valid()
      modifies this
      ensures Valid()
      ensures Outcome(response, Snapshot()) == UserController.ForgotPassword(libs, old(Snapshot()), body, secret, now, mailDelivered)
    {
      if !ForgotSchemaOk(libs, body) {
        return Response(400, Message(EnterValidEmail));
      }
      var found := FindByEmail(rows, Field(body, "email"));
      if found.None? {
        return Response(200, Message(ResetLinkSent));
      }
      var k := found.value;
      var resetTokenHash := libs.sha256Hex(secret);
      rows := rows[k := rows[k].(resetToken := Some(resetTokenHash))];
      rows := rows[k := rows[k].(resetExpires := Some(now + ResetWindow))];
      if !mailDelivered {
        return Response(500, Message(InternalErrorDot));
      }
      response := Response(200, Message(ResetLinkSent));
    }

    method ResetPassword(token: string, body: Body, now: int, salt: Salt) returns (response: Response)
      requires Valid()
      modifies this
      ensures Valid()
      ensures Outcome(response, Snapshot()) == UserController.ResetPassword(libs, old(Snapshot()), token, body, now, salt)
    {
      if !NewPasswordOk(body) {
        return Response(400, Message(PasswordTooShort));
      }
      var resetTokenHash := libs.sha256Hex(token);
      var found := FindOne(rows, (u: User) => ResetMatches(u, resetTokenHash, now));
      if found.None? {
        return Response(400, Message(InvalidOrExpired));
      }
      var k := found.value;
      rows := rows[k := rows[k].(password := libs.bcryptHash(body["password"], salt))];
      rows := rows[k := rows[k].(resetToken := Some(""))];
      rows := rows[k := rows[k].(resetExpires := None)];
      response := Response(200, Message(ResetDone));
    }

    method GetEmployees(caller: Claims) returns (response: Response)
      ensures response == UserController.GetEmployees(Snapshot(), caller)
    {
      if caller.id.None? || !Truthy(caller.role) {
        return Response(401, Message(Unauthorized));
      }
      if caller.role == Some("manager") {
        return Response(200, Profiles(ProfilesOf(rows)));
      }
      var self := FindById(rows, caller.id.value);
      response := Response(200, Profiles(if self.Some? then [ProfileOf(rows[self.value])] else []));
    }

    method AddEmployee(caller: Claims, body: Body, salt: Salt) returns (response: Response)
      requires Valid()
      modifies this
      ensures Valid()
      ensures Outcome(response, Snapshot()) == UserController.AddEmployee(libs, old(Snapshot()), caller, body, salt)
    {
      if caller.role != Some("manager") {
        return Response(403, Message(Forbidden));
      }
      if !AddSchemaOk(libs, body) {
        return Response(400, SchemaError);
      }
      var existing := FindByEmail(rows, Field(body, "email"));
      if existing.Some? {
        return Response(400, Message(EmailExists));
      }
      var hashed := libs.bcryptHash(Field(body, "password"), salt);
      var newEmp := User(nextId, Field(body, "name"), Field(body, "email"), hashed, Employee,
                         Field(body, "department"), "", None, None);
      rows := rows + [newEmp];
      nextId := nextId + 1;
      response := Response(201, EmployeeAdded(ProfileOf(newEmp)));
    }

    method UpdateEmployee(caller: Claims, id: UserId, body: Body) returns (response: Response)
      requires Valid()
      modifies this
      ensures Valid()
      ensures Outcome(response, Snapshot()) == UserController.UpdateEmployee(libs, old(Snapshot()), caller, id, body)
    {
      if caller.role != Some("manager") {
        return Response(403, Message(Forbidden));
      }
      if !UpdateSchemaOk(libs, body) {
        return Response(400, SchemaError);
      }
      var found := FindById(rows, id);
      if found.None? {
        return Response(404, Message(EmployeeNotFound));
      }
      var k := found.value;
      if EmailClash(rows, k, body) {
        return Response(500, Message(InternalError));
      }
      var updated := Edited(rows[k], body);
      rows := rows[k := updated];
      response := Response(200, EmployeeUpdated(ProfileOf(updated)));
    }

    method DeleteEmployee(caller: Claims, id: UserId) returns (response: Response)
      requires Valid()
      modifies this
      ensures Valid()
      ensures Outcome(response, Snapshot()) == UserController.DeleteEmployee(old(Snapshot()), caller, id)
    {
      if caller.role != Some("manager") {
        return Response(403, Message(Forbidden));
      }
      var found := FindById(rows, id);
      if found.None? {
        return Response(404, Message(EmployeeNotFound));
      }
      var k := found.value;
      rows := rows[..k] + rows[k + 1..];
      response := Response(200, Message(EmployeeDeleted));
    }

    method GetCurrentUser(caller: Claims) returns (response: Response)
      ensures response == UserController.GetCurrentUser(Snapshot(), caller)
    {
      if caller.id.None? {
        return Response(401, Message(Unauthorized));
      }
      var found := FindById(rows, caller.id.value);
      if found.None? {
        return Response(404, Message(UserNotFound));
      }
      response := Response(200, OneProfile(ProfileOf(rows[found.value])));
    }
  }
}
