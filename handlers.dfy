/** `UserHandler` (internal/user-pack/handlers.go): the HTTP endpoints
    POST /users, GET /user/:id and PATCH /user/:id. Each handler is an
    early-return chain; here it is split into the checks made before the
    service call (`...Step`: answer at once, or call the service) and the
    mapping of the service's result to a response (`...Reply`). JSON binding
    and `strconv.Atoi` are given as their outcomes. */
module Handlers {
  import opened Results
  import opened Users
  import opened Schema
  import opened Validation
  import opened Repository
  import opened Service

  const StatusOK := 200
  const StatusCreated := 201
  const StatusBadRequest := 400
  const StatusNotFound := 404
  const StatusInternalServerError := 500

  const InvalidIdMessage := "Invalid user ID"
  const UserNotFoundMessage := "User not found"
  const UpdatedMessage := "User updated"

  /** The JSON bodies the handlers write: `{"error": ...}`, a user, or
      `{"message": ...}`. */
  datatype Body = ErrorBody(error: string) | UserBody(user: User) | MessageBody(message: string)

  datatype Response = Response(status: int, body: Body)

  /** The outcome of a handler's checks before the service: answer now, or
      call the service with `arg`. */
  datatype Step<T> = Respond(response: Response) | CallService(arg: T)

  /** POST /users, before the service (handlers.go:24-34): a bind failure, then
      a validation failure, each answers 400 with the error's message. */
  function CreateStep(bound: Result<User, string>, validate: User -> Outcome<string>): (s: Step<User>)
    ensures s.CallService? <==> bound.Ok? && validate(bound.value).Nil?
    ensures s.CallService? ==> s.arg == bound.value
    ensures s.Respond? ==> s.response.status == StatusBadRequest
    ensures bound.Err? ==> s == Respond(Response(StatusBadRequest, ErrorBody(bound.error)))
    ensures bound.Ok? && validate(bound.value).Fail? ==>
      s == Respond(Response(StatusBadRequest, ErrorBody(validate(bound.value).error)))
  {
    match bound
    case Err(e) => Respond(Response(StatusBadRequest, ErrorBody(e)))
    case Ok(u) =>
      match validate(u)
      case Fail(e) => Respond(Response(StatusBadRequest, ErrorBody(e)))
      case Nil => CallService(u)
  }

  /** POST /users, after the service (handlers.go:36-41): 500 with the error,
      or 201 with the record as the service left it. */
  function CreateReply(u: User, err: Outcome<string>): (r: Response)
    ensures r.status == StatusCreated <==> err.Nil?
    ensures err.Nil? ==> r.body == UserBody(u)
    ensures err.Fail? ==> r == Response(StatusInternalServerError, ErrorBody(err.error))
  {
    match err
    case Nil => Response(StatusCreated, UserBody(u))
    case Fail(e) => Response(StatusInternalServerError, ErrorBody(e))
  }

  /** GET /user/:id, before the service (handlers.go:44-50). */
  function GetStep(id: Option<int>): (s: Step<int>)
    ensures s.CallService? <==> id.Some?
    ensures id.Some? ==> s == CallService(id.value)
    ensures id.None? ==> s == Respond(Response(StatusBadRequest, ErrorBody(InvalidIdMessage)))
  {
    match id
    case None => Respond(Response(StatusBadRequest, ErrorBody(InvalidIdMessage)))
    case Some(n) => CallService(n)
  }

  /** GET /user/:id, after the service (handlers.go:52-58): any error is a 404. */
  function GetReply(r: Result<User, string>): (resp: Response)
    ensures resp.status == StatusOK <==> r.Ok?
    ensures r.Ok? ==> resp.body == UserBody(r.value)
    ensures r.Err? ==> resp == Response(StatusNotFound, ErrorBody(UserNotFoundMessage))
  {
    match r
    case Ok(u) => Response(StatusOK, UserBody(u))
    case Err(_) => Response(StatusNotFound, ErrorBody(UserNotFoundMessage))
  }

  /** PATCH /user/:id, before the service (handlers.go:61-73): the id is parsed
      before the body is bound; the body is never validated. */
  function UpdateStep(id: Option<int>, bound: Result<User, string>): (s: Step<(int, User)>)
    ensures s.CallService? <==> id.Some? && bound.Ok?
    ensures s.CallService? ==> s.arg == (id.value, bound.value)
    ensures id.None? ==> s == Respond(Response(StatusBadRequest, ErrorBody(InvalidIdMessage)))
    ensures id.Some? && bound.Err? ==> s == Respond(Response(StatusBadRequest, ErrorBody(bound.error)))
  {
    match id
    case None => Respond(Response(StatusBadRequest, ErrorBody(InvalidIdMessage)))
    case Some(n) =>
      match bound
      case Err(e) => Respond(Response(StatusBadRequest, ErrorBody(e)))
      case Ok(u) => CallService((n, u))
  }

  /** PATCH /user/:id, after the service (handlers.go:75-84): 404 only for an
      error whose message is exactly "user not found", 500 for any other. */
  function UpdateReply(err: Outcome<string>): (r: Response)
    ensures r.status == StatusNotFound <==> err == Fail(NotFoundMessage)
    ensures r.status == StatusInternalServerError <==> err.Fail? && err.error != NotFoundMessage
    ensures err.Nil? ==> r == Response(StatusOK, MessageBody(UpdatedMessage))
  {
    match err
    case Nil => Response(StatusOK, MessageBody(UpdatedMessage))
    case Fail(e) =>
      if e == NotFoundMessage then Response(StatusNotFound, ErrorBody(UserNotFoundMessage))
      else Response(StatusInternalServerError, ErrorBody(e))
  }

  /** A whole POST /users against the user-pack service: the table afterwards
      and the response. */
  function CreateUserHandled(t: Table, bound: Result<User, string>, now: Time): (Table, Response) {
    match CreateStep(bound, ValidateUser)
    case Respond(r) => (t, r)
    case CallService(u) =>
      var (t', u', err) := CreateUserSpec(t, u.(created := now));
      (t', CreateReply(u', err))
  }

  /** A whole GET /user/:id against the user-pack service. */
  function GetUserHandled(t: Table, id: Option<int>): Response {
    match GetStep(id)
    case Respond(r) => r
    case CallService(n) => GetReply(GetUserSpec(t, n))
  }

  /** A whole PATCH /user/:id against the user-pack service. */
  function UpdateUserHandled(t: Table, id: Option<int>, bound: Result<User, string>): (Table, Response) {
    match UpdateStep(id, bound)
    case Respond(r) => (t, r)
    case CallService((n, u)) =>
      var (t', err) := UpdateUserSpec(t, n, u);
      (t', UpdateReply(err))
  }

  /** POST /users end to end: 201 exactly when the body binds, passes the
      validator and carries an email no row holds; then the stored row is the
      response's user, with a fresh id and the handler's time. A 400 leaves
      the table exactly as it was: the service, which always draws a
      sequence value, was not called. In particular a malformed email never
      reaches the store. */
  lemma {:induction false} CreateUserHandledOutcome(t: Table, bound: Result<User, string>, now: Time)
    requires t.Valid()
    ensures var (t', r) := CreateUserHandled(t, bound, now);
      && t'.Valid()
      && r.status in {StatusCreated, StatusBadRequest, StatusInternalServerError}
      && (r.status == StatusBadRequest <==> !(bound.Ok? && ValidateUser(bound.value).Nil?))
      && (r.status == StatusBadRequest ==> t' == t)
      && (bound.Ok? && !Email.IsValidEmail(bound.value.email) ==> t' == t && r.status == StatusBadRequest)
      && (r.status == StatusCreated <==>
            bound.Ok? && ValidateUser(bound.value).Nil? && !EmailTaken(t.rows, bound.value.email, None))
      && (r.status == StatusCreated ==>
            r.body.UserBody? && r.body.user.id !in t.rows && t'.rows == t.rows[r.body.user.id := r.body.user]
            && r.body.user == bound.value.(id := r.body.user.id, created := now))
  {
    if bound.Ok? && ValidateUser(bound.value).Nil? {
      CreateUserWritesId(t, bound.value.(created := now));
    }
  }

  /** GET /user/:id end to end: 200 with the stored row exactly when the id
      parses and has a row; 404 when it parses and has none; 400 otherwise. */
  lemma GetUserHandledOutcome(t: Table, id: Option<int>)
    ensures var r := GetUserHandled(t, id);
      && (r.status == StatusOK <==> id.Some? && id.value in t.rows)
      && (r.status == StatusOK ==> r.body == UserBody(t.rows[id.value]))
      && (r.status == StatusNotFound <==> id.Some? && id.value !in t.rows)
      && (r.status == StatusBadRequest <==> id.None?)
  {
  }

  /** PATCH /user/:id end to end, as written: an early failure answers 400
      and leaves the table alone; otherwise the answer is 200 or 500 and never
      404, because no error of the repository reads "user not found". An id
      with no row is answered 200 "User updated". */
  lemma {:induction false} UpdateUserHandledOutcome(t: Table, id: Option<int>, bound: Result<User, string>)
    requires t.Valid()
    ensures var (t', r) := UpdateUserHandled(t, id, bound);
      && t'.Valid()
      && (r.status == StatusBadRequest <==> id.None? || bound.Err?)
      && (r.status == StatusBadRequest ==> t' == t)
      && r.status != StatusNotFound
      && (id.Some? && bound.Ok? && id.value !in t.rows ==> t' == t && r == Response(StatusOK, MessageBody(UpdatedMessage)))
  {
    if id.Some? && bound.Ok? {
      UpdateUserKeepsIdAndCreated(t, id.value, bound.value);
      ErrorsAreNeverNotFound(t, id.value, bound.value);
    }
  }

  /** The concrete request that shows it: PATCH /user/1 on an empty table. */
  lemma UpdateOfMissingUserAnswersOk(u: User)
    ensures UpdateUserHandled(Empty, Some(1), Ok(u)) == (Empty, Response(StatusOK, MessageBody(UpdatedMessage)))
  {
  }

  /** With the checked update, PATCH answers 404 exactly for a parsed id with
      no row, as the handler's not-found branch expects. */
  lemma CheckedUpdateAnswersNotFound(t: Table, n: int, u: User)
    ensures UpdateReply(CheckedUpdateUserSpec(t, n, u).1).status == StatusNotFound <==> n !in t.rows
  {
    CheckedUpdateReportsMissing(t, n, u);
  }

  class UserHandler {
    const service: UserService

    constructor (service: UserService)
      ensures this.service == service
    {
      this.service := service;
    }

    /** handlers.go:24-42 */
    method CreateUser(bound: Result<User, string>, now: Time) returns (resp: Response)
      requires service.repo.Valid()
      modifies service.repo
      ensures service.repo.Valid()
      ensures (service.repo.table, resp) == CreateUserHandled(old(service.repo.table), bound, now)
    {
      match CreateStep(bound, ValidateUser) {
        case Respond(r) =>
          resp := r;
        case CallService(u) =>
          var user := new UserRecord(u);
          var err := service.CreateUser(user, now);
          resp := CreateReply(user.Value(), err);
      }
    }

    /** handlers.go:44-59 */
    method GetUser(id: Option<int>) returns (resp: Response)
      ensures resp == GetUserHandled(service.repo.table, id)
      ensures resp.status == StatusOK <==> id.Some? && id.value in service.repo.table.rows
    {
      match GetStep(id) {
        case Respond(r) =>
          resp := r;
        case CallService(n) =>
          var r := service.GetUser(n);
          resp := GetReply(r);
      }
    }

    /** handlers.go:61-85 */
    method UpdateUser(id: Option<int>, bound: Result<User, string>) returns (resp: Response)
      requires service.repo.Valid()
      modifies service.repo
      ensures service.repo.Valid()
      ensures (service.repo.table, resp) == UpdateUserHandled(old(service.repo.table), id, bound)
    {
      match UpdateStep(id, bound) {
        case Respond(r) =>
          resp := r;
        case CallService((n, u)) =>
          var user := new UserRecord(u);
          var err := service.UpdateUser(n, user);
          resp := UpdateReply(err);
      }
    }
  }
}
