/** The self-contained variant in main.go: its own validator (main.go:171-184),
    a repository that returns the database's errors unwrapped and names its
    read `GetUserByID` (main.go:26-58), a service (main.go:60-79) and a
    controller with the same decision chains as the user-pack handlers
    (main.go:81-150). */
module MainApp {
  import opened Results
  import opened Users
  import opened Schema
  import Email
  import Validation
  import Repository
  import Handlers

  /** main.go:171-184: the same pattern and the same order of checks as the
      user-pack validator, on a record passed by value. */
  function ValidateUser(u: User): (r: Outcome<string>)
    ensures r.Nil? <==> u.firstname != "" && u.lastname != "" && u.email != "" && Email.IsValidEmail(u.email)
    ensures (u.firstname == "" || u.lastname == "" || u.email == "") ==> r == Fail(Validation.MissingFieldsMessage)
    ensures r == Validation.ValidateUser(u)
  {
    if u.firstname == "" || u.lastname == "" || u.email == "" then
      Fail(Validation.MissingFieldsMessage)
    else if !Email.IsValidEmail(u.email) then
      Fail(Validation.InvalidEmailMessage)
    else
      Nil
  }

  /** `CreateUser` (main.go:40-43): the insert's id is scanned into `ID`; a
      failure comes back as the database's own error. */
  function CreateUserSpec(t: Table, u: User): (Table, User, Outcome<string>) {
    var (t', r) := Insert(t, u);
    match r
    case Ok(id) => (t', u.(id := id), Nil)
    case Err(e) => (t', u, Fail(e.Text()))
  }

  /** `GetUserByID` (main.go:45-52). */
  function GetUserByIDSpec(t: Table, id: int): Result<User, string> {
    match Select(t, id)
    case Ok(row) => Ok(row)
    case Err(e) => Err(e.Text())
  }

  /** `UpdateUser` (main.go:54-58): the command tag with the rows-affected
      count is discarded. */
  function UpdateUserSpec(t: Table, id: int, u: User): (Table, Outcome<string>) {
    var (t', r) := Update(t, id, u.firstname, u.lastname, u.email, u.age);
    match r
    case Ok(_) => (t', Nil)
    case Err(e) => (t', Fail(e.Text()))
  }

  /** The database never reports "user not found", so neither does this
      repository, although it does not wrap its errors. */
  lemma {:induction false} RawErrorsAreNeverNotFound(t: Table, id: int, u: User)
    ensures CreateUserSpec(t, u).2.Fail? ==> CreateUserSpec(t, u).2.error != Repository.NotFoundMessage
    ensures GetUserByIDSpec(t, id).Err? ==> GetUserByIDSpec(t, id).error == NoRows.Text()
    ensures UpdateUserSpec(t, id, u).1.Fail? ==> UpdateUserSpec(t, id, u).1.error != Repository.NotFoundMessage
  {
    var (_, r) := Insert(t, u);
    if r.Err? {
      TextIsNeverNotFound(r.error);
    }
    var (_, r') := Update(t, id, u.firstname, u.lastname, u.email, u.age);
    if r'.Err? {
      TextIsNeverNotFound(r'.error);
    }
  }

  /** Neither database error text reads "user not found". */
  lemma TextIsNeverNotFound(e: DbError)
    ensures e.Text() != Repository.NotFoundMessage
  {
    assert |Repository.NotFoundMessage| == 14;
    match e {
      case NoRows => assert |e.Text()| == 21;
      case DuplicateEmail => assert |e.Text()| > 14;
    }
  }

  /** This repository changes the table exactly as the user-pack one does;
      only the error messages differ. */
  lemma SameTableAsUserPack(t: Table, id: int, u: User)
    ensures CreateUserSpec(t, u).0 == Repository.CreateUserSpec(t, u).0
    ensures CreateUserSpec(t, u).1 == Repository.CreateUserSpec(t, u).1
    ensures UpdateUserSpec(t, id, u).0 == Repository.UpdateUserSpec(t, id, u).0
    ensures GetUserByIDSpec(t, id).Ok? == Repository.GetUserSpec(t, id).Ok?
  {
  }

  /** A whole POST /users against this controller (main.go:89-107). */
  function CreateUserHandled(t: Table, bound: Result<User, string>, now: Time): (Table, Handlers.Response) {
    match Handlers.CreateStep(bound, ValidateUser)
    case Respond(r) => (t, r)
    case CallService(u) =>
      var (t', u', err) := CreateUserSpec(t, u.(created := now));
      (t', Handlers.CreateReply(u', err))
  }

  /** A whole GET /user/:id against this controller (main.go:109-124). */
  function GetUserHandled(t: Table, id: Option<int>): Handlers.Response {
    match Handlers.GetStep(id)
    case Respond(r) => r
    case CallService(n) => Handlers.GetReply(GetUserByIDSpec(t, n))
  }

  /** A whole PATCH /user/:id against this controller (main.go:126-150). */
  function UpdateUserHandled(t: Table, id: Option<int>, bound: Result<User, string>): (Table, Handlers.Response) {
    match Handlers.UpdateStep(id, bound)
    case Respond(r) => (t, r)
    case CallService((n, u)) =>
      var (t', err) := UpdateUserSpec(t, n, u);
      (t', Handlers.UpdateReply(err))
  }

  /** The three endpoints answer here exactly as the user-pack handlers do,
      except for the text of a 500's error. */
  lemma {:induction false} SameAnswersAsUserPack(t: Table, id: Option<int>, bound: Result<User, string>, now: Time)
    ensures CreateUserHandled(t, bound, now).0 == Handlers.CreateUserHandled(t, bound, now).0
    ensures CreateUserHandled(t, bound, now).1.status == Handlers.CreateUserHandled(t, bound, now).1.status
    ensures GetUserHandled(t, id) == Handlers.GetUserHandled(t, id)
    ensures UpdateUserHandled(t, id, bound).0 == Handlers.UpdateUserHandled(t, id, bound).0
    ensures UpdateUserHandled(t, id, bound).1.status == Handlers.UpdateUserHandled(t, id, bound).1.status
    ensures CreateUserHandled(t, bound, now).1.status != Handlers.StatusInternalServerError ==>
      CreateUserHandled(t, bound, now).1 == Handlers.CreateUserHandled(t, bound, now).1
    ensures UpdateUserHandled(t, id, bound).1.status != Handlers.StatusInternalServerError ==>
      UpdateUserHandled(t, id, bound).1 == Handlers.UpdateUserHandled(t, id, bound).1
  {
    if bound.Ok? {
      RawErrorsAreNeverNotFound(t, if id.Some? then id.value else 0, bound.value);
      if id.Some? {
        Repository.ErrorsAreNeverNotFound(t, id.value, bound.value);
      }
    }
  }

  class PostgresUserRepository {
    /** The database state behind the connection. */
    var table: Table

    ghost predicate Valid()
      reads this
    {
      table.Valid()
    }

    constructor ()
      ensures Valid() && table == Empty
    {
      table := Empty;
    }

    /** main.go:40-43 */
    method CreateUser(u: UserRecord) returns (err: Outcome<string>)
      requires Valid()
      modifies this, u
      ensures Valid()
      ensures (table, u.Value(), err) == CreateUserSpec(old(table), old(u.Value()))
    {
      InsertFresh(table, u.Value());
      var (t', r) := Insert(table, u.Value());
      table := t';
      match r {
        case Ok(id) =>
          u.id := id;
          err := Nil;
        case Err(e) =>
          err := Fail(e.Text());
      }
    }

    /** main.go:45-52 */
    method GetUserByID(id: int) returns (r: Result<User, string>)
      ensures r.Ok? <==> id in table.rows
      ensures r.Ok? ==> r.value == table.rows[id]
      ensures r.Err? ==> r.error == NoRows.Text()
      ensures r == GetUserByIDSpec(table, id)
    {
      match Select(table, id) {
        case Ok(row) => r := Ok(row);
        case Err(e) => r := Err(e.Text());
      }
    }

    /** main.go:54-58 */
    method UpdateUser(id: int, u: UserRecord) returns (err: Outcome<string>)
      requires Valid()
      modifies this
      ensures Valid()
      ensures (table, err) == UpdateUserSpec(old(table), id, u.Value())
    {
      UpdateOnlyFourColumns(table, id, u.firstname, u.lastname, u.email, u.age);
      var (t', r) := Update(table, id, u.firstname, u.lastname, u.email, u.age);
      table := t';
      match r {
        case Ok(_) => err := Nil;
        case Err(e) => err := Fail(e.Text());
      }
    }
  }

  class UserService {
    const repo: PostgresUserRepository

    constructor (repo: PostgresUserRepository)
      ensures this.repo == repo
    {
      this.repo := repo;
    }

    /** main.go:68-71: stamps `Created`, touches nothing else, delegates. */
    method CreateUser(u: UserRecord, now: Time) returns (err: Outcome<string>)
      requires repo.Valid()
      modifies u, repo
      ensures repo.Valid()
      ensures u.created == now
      ensures (repo.table, u.Value(), err) == CreateUserSpec(old(repo.table), old(u.Value()).(created := now))
    {
      u.created := now;
      err := repo.CreateUser(u);
    }

    /** main.go:73-75 */
    method GetUser(id: int) returns (r: Result<User, string>)
      ensures r.Ok? <==> id in repo.table.rows
      ensures r == GetUserByIDSpec(repo.table, id)
    {
      r := repo.GetUserByID(id);
    }

    /** main.go:77-79 */
    method UpdateUser(id: int, u: UserRecord) returns (err: Outcome<string>)
      requires repo.Valid()
      modifies repo
      ensures repo.Valid()
      ensures (repo.table, err) == UpdateUserSpec(old(repo.table), id, u.Value())
    {
      err := repo.UpdateUser(id, u);
    }
  }

  class UserController {
    const service: UserService

    constructor (service: UserService)
      ensures this.service == service
    {
      this.service := service;
    }

    /** main.go:89-107 */
    method CreateUser(bound: Result<User, string>, now: Time) returns (resp: Handlers.Response)
      requires service.repo.Valid()
      modifies service.repo
      ensures service.repo.Valid()
      ensures (service.repo.table, resp) == CreateUserHandled(old(service.repo.table), bound, now)
    {
      match Handlers.CreateStep(bound, ValidateUser) {
        case Respond(r) =>
          resp := r;
        case CallService(u) =>
          var user := new UserRecord(u);
          var err := service.CreateUser(user, now);
          resp := Handlers.CreateReply(user.Value(), err);
      }
    }

    /** main.go:109-124 */
    method GetUser(id: Option<int>) returns (resp: Handlers.Response)
      ensures resp == GetUserHandled(service.repo.table, id)
      ensures resp.status == Handlers.StatusOK <==> id.Some? && id.value in service.repo.table.rows
    {
      match Handlers.GetStep(id) {
        case Respond(r) =>
          resp := r;
        case CallService(n) =>
          var r := service.GetUser(n);
          resp := Handlers.GetReply(r);
      }
    }

    /** main.go:126-150 */
    method UpdateUser(id: Option<int>, bound: Result<User, string>) returns (resp: Handlers.Response)
      requires service.repo.Valid()
      modifies service.repo
      ensures service.repo.Valid()
      ensures (service.repo.table, resp) == UpdateUserHandled(old(service.repo.table), id, bound)
    {
      match Handlers.UpdateStep(id, bound) {
        case Respond(r) =>
          resp := r;
        case CallService((n, u)) =>
          var user := new UserRecord(u);
          var err := service.UpdateUser(n, user);
          resp := Handlers.UpdateReply(err);
      }
    }
  }
}
