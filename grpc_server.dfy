/** The gRPC adapter (internal/grpc/user/server.go) over the user-pack service:
    `convertProtoUserToUser` and the guard chains of `CreateUser`, `GetUser`
    and `UpdateUser`. Every error is wrapped with a message naming the step
    that failed. */
module GrpcUser {
  import opened Results
  import opened Users
  import opened Schema
  import Email
  import opened Validation
  import opened Repository
  import opened Service

  /** The wire message `userpb.User`. */
  datatype ProtoUser = ProtoUser(id: int, firstname: string, lastname: string, email: string, age: nat, created: Time)

  /** A request's `User` field may be nil. */
  datatype CreateUserRequest = CreateUserRequest(user: Option<ProtoUser>)
  datatype CreateUserResponse = CreateUserResponse(user: ProtoUser)
  datatype GetUserRequest = GetUserRequest(id: int)
  datatype GetUserResponse = GetUserResponse(user: ProtoUser)
  datatype UpdateUserRequest = UpdateUserRequest(id: int, user: Option<ProtoUser>)
  datatype UpdateUserResponse = UpdateUserResponse(message: string)

  const NilProtoUserMessage := "protoUser is nil"
  const ProtoMissingFieldsMessage := "firstname, lastname, and email are required"

  /** server.go:98-115: nil and empty required fields are refused; otherwise
      id, names, email and age are copied and `Created` is the current time. */
  function ConvertProtoUserToUser(p: Option<ProtoUser>, now: Time): (r: Result<User, string>)
    ensures r.Err? <==> p.None? || p.value.firstname == "" || p.value.lastname == "" || p.value.email == ""
    ensures p.None? ==> r == Err(NilProtoUserMessage)
    ensures p.Some? && r.Err? ==> r.error == ProtoMissingFieldsMessage
    ensures r.Ok? ==> r.value == User(p.value.id, p.value.firstname, p.value.lastname, p.value.email, p.value.age, now)
    ensures r.Ok? ==> HasRequiredFields(r.value)
  {
    match p
    case None => Err(NilProtoUserMessage)
    case Some(q) =>
      if q.firstname == "" || q.lastname == "" || q.email == "" then
        Err(ProtoMissingFieldsMessage)
      else
        Ok(User(q.id, q.firstname, q.lastname, q.email, q.age, now))
  }

  /** A whole `CreateUser` call (server.go:27-49) against the table `t`.
      `convertedAt` is the instant read by the conversion, `now` the one read
      by the service. */
  function CreateUserRpc(t: Table, req: CreateUserRequest, convertedAt: Time, now: Time)
    : (Table, Result<CreateUserResponse, string>)
  {
    match req.user
    case None => (t, Err("user data is nil"))
    case Some(p) =>
      match ConvertProtoUserToUser(req.user, convertedAt)
      case Err(e) => (t, Err("failed to convert proto user to user: " + e))
      case Ok(u) =>
        match ValidateUser(u)
        case Fail(e) => (t, Err("invalid user: " + e))
        case Nil =>
          var (t', _, err) := CreateUserSpec(t, u.(created := now));
          match err
          case Fail(e) => (t', Err("failed to create user: " + e))
          case Nil => (t', Ok(CreateUserResponse(p)))
  }

  /** A whole `GetUser` call (server.go:51-67). */
  function GetUserRpc(t: Table, req: GetUserRequest): Result<GetUserResponse, string> {
    match GetUserSpec(t, req.id)
    case Err(e) => Err("user not found: " + e)
    case Ok(u) => Ok(GetUserResponse(ProtoUser(u.id, u.firstname, u.lastname, u.email, u.age, u.created)))
  }

  /** A whole `UpdateUser` call (server.go:69-80). */
  function UpdateUserRpc(t: Table, req: UpdateUserRequest, now: Time): (Table, Result<UpdateUserResponse, string>) {
    match ConvertProtoUserToUser(req.user, now)
    case Err(e) => (t, Err("failed to convert proto user to user: " + e))
    case Ok(u) =>
      var (t', err) := UpdateUserSpec(t, req.id, u);
      match err
      case Fail(e) => (t', Err("failed to update user: " + e))
      case Nil => (t', Ok(UpdateUserResponse("User updated")))
  }

  /** `CreateUser`: a nil user fails first, with "user data is nil"; the
      service is reached only after conversion and validation succeed, so the
      table is untouched by a missing field or a malformed email, and the call
      succeeds exactly when both pass and no row holds the email. As the
      conversion already checked the required fields, the validator can only
      object to the email. On success the stored row carries the service's
      time, not the conversion's, and the response echoes the request's user,
      not the record with the assigned id. */
  lemma {:induction false} CreateUserRpcOutcome(t: Table, req: CreateUserRequest, convertedAt: Time, now: Time)
    requires t.Valid()
    ensures var (t', r) := CreateUserRpc(t, req, convertedAt, now);
      && t'.Valid()
      && (req.user.None? ==> t' == t && r == Err("user data is nil"))
      && (ConvertProtoUserToUser(req.user, convertedAt).Err? ==> t' == t && r.Err?)
      && (r.Ok? <==>
            && ConvertProtoUserToUser(req.user, convertedAt).Ok?
            && ValidateUser(ConvertProtoUserToUser(req.user, convertedAt).value).Nil?
            && !EmailTaken(t.rows, req.user.value.email, None))
      && (req.user.Some? && !Email.IsValidEmail(req.user.value.email) ==> t' == t && r.Err?)
      && ((req.user.Some? && ConvertProtoUserToUser(req.user, convertedAt).Ok? && !Email.IsValidEmail(req.user.value.email))
            ==> r == Err("invalid user: " + InvalidEmailMessage))
      && (r.Ok? ==>
            && r.value.user == req.user.value
            && exists id | id in t'.rows ::
                 && id !in t.rows && t'.rows[id].created == now
                 && t'.rows == t.rows[id := ConvertProtoUserToUser(req.user, convertedAt).value.(id := id, created := now)])
  {
    if req.user.Some? {
      var p := req.user.value;
      var c := ConvertProtoUserToUser(req.user, convertedAt);
      if c.Ok? && ValidateUser(c.value).Nil? {
        var u := c.value.(created := now);
        CreateUserWritesId(t, u);
        var (t', u', err) := CreateUserSpec(t, u);
        if err.Nil? {
          assert u'.id in t'.rows && u'.id !in t.rows && t'.rows[u'.id].created == now;
          assert t'.rows == t.rows[u'.id := c.value.(id := u'.id, created := now)];
        }
      }
    }
  }

  /** `GetUser`: any service error becomes "user not found: ..."; a present
      row is copied field by field into the response. */
  lemma GetUserRpcOutcome(t: Table, req: GetUserRequest)
    ensures GetUserRpc(t, req).Ok? <==> req.id in t.rows
    ensures GetUserRpc(t, req).Ok? ==>
      var u := t.rows[req.id];
      GetUserRpc(t, req).value.user == ProtoUser(u.id, u.firstname, u.lastname, u.email, u.age, u.created)
    ensures GetUserRpc(t, req).Err? ==>
      GetUserRpc(t, req).error == "user not found: " + GetError(req.id, NoRows)
  {
  }

  /** `UpdateUser` enforces the required fields through the conversion, but
      never the email format: a present row whose new email nobody else
      holds is updated whatever that email looks like. */
  lemma {:induction false} UpdateUserRpcSkipsEmailFormat(t: Table, req: UpdateUserRequest, now: Time)
    requires t.Valid()
    ensures var (t', r) := UpdateUserRpc(t, req, now);
      && t'.Valid()
      && (ConvertProtoUserToUser(req.user, now).Err? ==> t' == t && r.Err?)
      && ((req.user.Some? && req.id in t.rows && ConvertProtoUserToUser(req.user, now).Ok?
             && !EmailTaken(t.rows, req.user.value.email, Some(req.id))) ==>
              r == Ok(UpdateUserResponse("User updated")) && t'.rows[req.id].email == req.user.value.email)
  {
    var c := ConvertProtoUserToUser(req.user, now);
    if c.Ok? {
      UpdateUserKeepsIdAndCreated(t, req.id, c.value);
    }
  }

  /** A concrete case: row 1 can be given the email "not-an-email". */
  lemma UpdateAcceptsMalformedEmail(row: User)
    requires row.id == 1 && row.email == "a@b.cd"
    ensures var t := Table(map[1 := row], 2);
      var req := UpdateUserRequest(1, Some(ProtoUser(1, "Jane", "Doe", "not-an-email", 25, 0)));
      UpdateUserRpc(t, req, 0).1.Ok? && !Email.IsValidEmail("not-an-email")
  {
    var s := "not-an-email";
    assert '@' !in s;
    var t := Table(map[1 := row], 2);
    assert !EmailTaken(t.rows, s, Some(1));
  }

  class GrpcServer {
    const userService: UserService

    constructor (userService: UserService)
      ensures this.userService == userService
    {
      this.userService := userService;
    }

    /** server.go:27-49 */
    method CreateUser(req: CreateUserRequest, convertedAt: Time, now: Time)
      returns (r: Result<CreateUserResponse, string>)
      requires userService.repo.Valid()
      modifies userService.repo
      ensures userService.repo.Valid()
      ensures (userService.repo.table, r) == CreateUserRpc(old(userService.repo.table), req, convertedAt, now)
    {
      if req.user.None? {
        return Err("user data is nil");
      }
      var converted := ConvertProtoUserToUser(req.user, convertedAt);
      if converted.Err? {
        return Err("failed to convert proto user to user: " + converted.error);
      }
      var check := ValidateUser(converted.value);
      if check.Fail? {
        return Err("invalid user: " + check.error);
      }
      var user := new UserRecord(converted.value);
      var err := userService.CreateUser(user, now);
      if err.Fail? {
        return Err("failed to create user: " + err.error);
      }
      r := Ok(CreateUserResponse(req.user.value));
    }

    /** server.go:51-67 */
    method GetUser(req: GetUserRequest) returns (r: Result<GetUserResponse, string>)
      ensures r.Ok? <==> req.id in userService.repo.table.rows
      ensures r == GetUserRpc(userService.repo.table, req)
    {
      var found := userService.GetUser(req.id);
      if found.Err? {
        return Err("user not found: " + found.error);
      }
      var u := found.value;
      r := Ok(GetUserResponse(ProtoUser(u.id, u.firstname, u.lastname, u.email, u.age, u.created)));
    }

    /** server.go:69-80 */
    method UpdateUser(req: UpdateUserRequest, now: Time) returns (r: Result<UpdateUserResponse, string>)
      requires userService.repo.Valid()
      modifies userService.repo
      ensures userService.repo.Valid()
      ensures (userService.repo.table, r) == UpdateUserRpc(old(userService.repo.table), req, now)
    {
      var converted := ConvertProtoUserToUser(req.user, now);
      if converted.Err? {
        return Err("failed to convert proto user to user: " + converted.error);
      }
      var user := new UserRecord(converted.value);
      var err := userService.UpdateUser(req.id, user);
      if err.Fail? {
        return Err("failed to update user: " + err.error);
      }
      r := Ok(UpdateUserResponse("User updated"));
    }
  }
}
