/** `PostgresUserRepository` of the user-pack package
    (internal/user-pack/repository.go): one SQL statement per operation, the
    generated id written back into the caller's record, and every database
    error wrapped with a message naming the operation. */
module Repository {
  import opened Results
  import opened Users
  import opened Schema

  /** The one message the HTTP update handlers turn into a 404. */
  const NotFoundMessage := "user not found"

  /** Go's `%d` rendering of an integer. */
  function Decimal(n: int): string {
    if n < 0 then "-" + Digits(-n) else Digits(n)
  }

  function Digits(n: nat): string {
    var d := ['0', '1', '2', '3', '4', '5', '6', '7', '8', '9'][n % 10];
    if n < 10 then [d] else Digits(n / 10) + [d]
  }

  /** The error of a failed insert (internal/user-pack/repository.go:28). */
  function CreateError(e: DbError): (m: string)
    ensures m != NotFoundMessage
  {
    "CreateUser: failed to insert user: " + e.Text()
  }

  /** The error of a failed select (internal/user-pack/repository.go:37). */
  function GetError(id: int, e: DbError): (m: string)
    ensures m != NotFoundMessage
  {
    "GetUser: failed to query user with id " + Decimal(id) + ": " + e.Text()
  }

  /** The error of a failed update (internal/user-pack/repository.go:46). */
  function UpdateError(id: int, e: DbError): (m: string)
    ensures m != NotFoundMessage
  {
    "UpdateUser: failed to update user with id " + Decimal(id) + ": " + e.Text()
  }

  /** What `CreateUser` does to the table, to the caller's record, and what it
      returns: the insert's id is scanned into `ID` on success only. */
  function CreateUserSpec(t: Table, u: User): (Table, User, Outcome<string>) {
    var (t', r) := Insert(t, u);
    match r
    case Ok(id) => (t', u.(id := id), Nil)
    case Err(e) => (t', u, Fail(CreateError(e)))
  }

  /** What `GetUser` returns: the stored row, or the wrapped error. */
  function GetUserSpec(t: Table, id: int): Result<User, string> {
    match Select(t, id)
    case Ok(row) => Ok(row)
    case Err(e) => Err(GetError(id, e))
  }

  /** What `UpdateUser` does to the table and returns. The number of rows
      affected is discarded. */
  function UpdateUserSpec(t: Table, id: int, u: User): (Table, Outcome<string>) {
    var (t', r) := Update(t, id, u.firstname, u.lastname, u.email, u.age);
    match r
    case Ok(_) => (t', Nil)
    case Err(e) => (t', Fail(UpdateError(id, e)))
  }

  /** A successful create writes the fresh id into the record and nothing
      else, and stores exactly that record; a failed one leaves the record and
      the rows untouched. Either way the table stays valid. */
  lemma {:induction false} CreateUserWritesId(t: Table, u: User)
    requires t.Valid()
    ensures var (t', u', err) := CreateUserSpec(t, u);
      && t'.Valid()
      && (err.Nil? ==> u' == u.(id := u'.id) && 1 <= u'.id && u'.id !in t.rows && t'.rows == t.rows[u'.id := u'])
      && (err.Fail? ==> u' == u && t'.rows == t.rows)
  {
    InsertFresh(t, u);
  }

  /** A create whose email some row already holds fails with the wrapped
      duplicate-key error. */
  lemma CreateDuplicateEmail(t: Table, u: User, k: int)
    requires k in t.rows && t.rows[k].email == u.email
    ensures CreateUserSpec(t, u).2 == Fail(CreateError(DuplicateEmail))
  {
  }

  /** Reading back a created user gives exactly the record the caller holds,
      assigned id and creation time included. */
  lemma {:induction false} GetAfterCreate(t: Table, u: User)
    requires t.Valid()
    ensures var (t', u', err) := CreateUserSpec(t, u);
      err.Nil? ==> GetUserSpec(t', u'.id) == Ok(u')
  {
    SelectAfterInsert(t, u);
  }

  /** `GetUser` returns all six stored fields of a present id, and an error
      (never the bare "user not found") for an absent one. */
  lemma GetUserFindsRow(t: Table, id: int)
    ensures GetUserSpec(t, id).Ok? <==> id in t.rows
    ensures GetUserSpec(t, id).Ok? ==> GetUserSpec(t, id).value == t.rows[id]
    ensures GetUserSpec(t, id).Err? ==> GetUserSpec(t, id).error == GetError(id, NoRows)
  {
  }

  /** Update keeps the table valid, rewrites only the four columns of the row
      keyed `id`, and leaves ids, creation times and other rows alone. */
  lemma {:induction false} UpdateUserKeepsIdAndCreated(t: Table, id: int, u: User)
    requires t.Valid()
    ensures var (t', err) := UpdateUserSpec(t, id, u);
      && t'.Valid()
      && t'.rows.Keys == t.rows.Keys
      && (forall k | k in t.rows && k != id :: t'.rows[k] == t.rows[k])
      && (id in t.rows ==> t'.rows[id].id == id && t'.rows[id].created == t.rows[id].created)
      && (id in t.rows && err.Nil? ==>
            t'.rows[id] == t.rows[id].(firstname := u.firstname, lastname := u.lastname, email := u.email, age := u.age))
  {
    UpdateOnlyFourColumns(t, id, u.firstname, u.lastname, u.email, u.age);
  }

  /** As written: updating an id that has no row changes nothing and reports
      success, since the rows-affected count is never looked at. */
  lemma UpdateMissingIdSucceeds(t: Table, id: int, u: User)
    requires id !in t.rows
    ensures UpdateUserSpec(t, id, u) == (t, Nil)
  {
  }

  /** Every error any operation returns has an operation prefix, so it is
      never exactly "user not found". */
  lemma {:induction false} ErrorsAreNeverNotFound(t: Table, id: int, u: User)
    ensures CreateUserSpec(t, u).2.Fail? ==> CreateUserSpec(t, u).2.error != NotFoundMessage
    ensures GetUserSpec(t, id).Err? ==> GetUserSpec(t, id).error != NotFoundMessage
    ensures UpdateUserSpec(t, id, u).1.Fail? ==> UpdateUserSpec(t, id, u).1.error != NotFoundMessage
  {
  }

  /** The update the HTTP handlers evidently expect: an id with no row is
      reported as "user not found". */
  function CheckedUpdateUserSpec(t: Table, id: int, u: User): (Table, Outcome<string>) {
    var (t', r) := Update(t, id, u.firstname, u.lastname, u.email, u.age);
    match r
    case Ok(n) => (t', if n == 0 then Fail(NotFoundMessage) else Nil)
    case Err(e) => (t', Fail(UpdateError(id, e)))
  }

  /** The checked update reports "user not found" exactly for a missing id,
      and otherwise behaves as the update as written. */
  lemma CheckedUpdateReportsMissing(t: Table, id: int, u: User)
    ensures CheckedUpdateUserSpec(t, id, u).1 == Fail(NotFoundMessage) <==> id !in t.rows
    ensures id in t.rows ==> CheckedUpdateUserSpec(t, id, u) == UpdateUserSpec(t, id, u)
  {
  }

  class PostgresUserRepository {
    /** The database state behind the connection. */
    var table: Table

    ghost predicate Valid()
      reads this
    {
      table.Valid()
    }

    constructor ()
      ensures Valid() && table == Empty
    {
      table := Empty;
    }

    /** internal/user-pack/repository.go:24-31 */
    method CreateUser(u: UserRecord) returns (err: Outcome<string>)
      requires Valid()
      modifies this, u
      ensures Valid()
      ensures (table, u.Value(), err) == CreateUserSpec(old(table), old(u.Value()))
    {
      CreateUserWritesId(table, u.Value());
      var (t', r) := Insert(table, u.Value());
      table := t';
      match r {
        case Ok(id) =>
          u.id := id;
          err := Nil;
        case Err(e) =>
          err := Fail(CreateError(e));
      }
    }

    /** internal/user-pack/repository.go:33-40 */
    method GetUser(id: int) returns (r: Result<User, string>)
      ensures r.Ok? <==> id in table.rows
      ensures r.Ok? ==> r.value == table.rows[id]
      ensures r.Err? ==> r.error == GetError(id, NoRows)
      ensures r == GetUserSpec(table, id)
    {
      match Select(table, id) {
        case Ok(row) => r := Ok(row);
        case Err(e) => r := Err(GetError(id, e));
      }
    }

    /** internal/user-pack/repository.go:42-49 */
    method UpdateUser(id: int, u: UserRecord) returns (err: Outcome<string>)
      requires Valid()
      modifies this
      ensures Valid()
      ensures (table, err) == UpdateUserSpec(old(table), id, u.Value())
    {
      UpdateOnlyFourColumns(table, id, u.firstname, u.lastname, u.email, u.age);
      var (t', r) := Update(table, id, u.firstname, u.lastname, u.email, u.age);
      table := t';
      match r {
        case Ok(_) => err := Nil;
        case Err(e) => err := Fail(UpdateError(id, e));
      }
    }
  }
}
