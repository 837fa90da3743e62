/** `UserService` of the user-pack package (internal/user-pack/service.go):
    `CreateUser` stamps the creation time on the caller's record and hands it
    to the repository; `GetUser` and `UpdateUser` pass straight through. */
module Service {
  import opened Results
  import opened Users
  import opened Schema
  import opened Repository

  /** One call on the service, with the instant `time.Now()` would return. */
  datatype Call =
    | Create(u: User, now: Time)
    | Get(id: int)
    | Update(id: int, u: User)

  /** The table after one service call. */
  function Step(t: Table, c: Call): Table {
    match c
    case Create(u, now) => CreateUserSpec(t, u.(created := now)).0
    case Get(_) => t
    case Update(id, u) => UpdateUserSpec(t, id, u).0
  }

  /** The table after a sequence of service calls. */
  function Run(t: Table, calls: seq<Call>): Table
    decreases |calls|
  {
    if calls == [] then t else Run(Step(t, calls[0]), calls[1..])
  }

  /** A row's id and creation time are written once, by the create that
      inserted it: no later sequence of service calls changes them or removes
      the row, and the table stays valid throughout. */
  lemma {:induction false} IdAndCreatedWrittenOnce(t: Table, calls: seq<Call>, k: int)
    requires t.Valid() && k in t.rows
    ensures Run(t, calls).Valid()
    ensures k in Run(t, calls).rows
    ensures Run(t, calls).rows[k].id == t.rows[k].id
    ensures Run(t, calls).rows[k].created == t.rows[k].created
    decreases |calls|
  {
    if calls != [] {
      var t' := Step(t, calls[0]);
      match calls[0] {
        case Create(u, now) => CreateUserWritesId(t, u.(created := now));
        case Get(_) =>
        case Update(id, u) => UpdateUserKeepsIdAndCreated(t, id, u);
      }
      IdAndCreatedWrittenOnce(t', calls[1..], k);
    }
  }

  /** A created row carries the creation time the service stamped, whatever
      the caller put in `Created`. */
  lemma {:induction false} CreateStampsNow(t: Table, u: User, now: Time)
    requires t.Valid()
    ensures var (t', u', err) := CreateUserSpec(t, u.(created := now));
      err.Nil? ==> u'.created == now && t'.rows[u'.id].created == now
  {
    CreateUserWritesId(t, u.(created := now));
  }

  class UserService {
    const repo: PostgresUserRepository

    constructor (repo: PostgresUserRepository)
      ensures this.repo == repo
    {
      this.repo := repo;
    }

    /** internal/user-pack/service.go:21-24: `Created` is overwritten with
        the current time, no other field is touched before delegating, and
        the repository's error comes back unchanged. */
    method CreateUser(u: UserRecord, now: Time) returns (err: Outcome<string>)
      requires repo.Valid()
      modifies u, repo
      ensures repo.Valid()
      ensures u.created == now
      ensures (repo.table, u.Value(), err) == CreateUserSpec(old(repo.table), old(u.Value()).(created := now))
    {
      u.created := now;
      err := repo.CreateUser(u);
    }

    /** internal/user-pack/service.go:26-28: the repository's result, verbatim. */
    method GetUser(id: int) returns (r: Result<User, string>)
      ensures r.Ok? <==> id in repo.table.rows
      ensures r.Ok? ==> r.value == repo.table.rows[id]
      ensures r == GetUserSpec(repo.table, id)
    {
      r := repo.GetUser(id);
    }

    /** internal/user-pack/service.go:30-32: id and record are forwarded
        untouched; no validation, no timestamp. */
    method UpdateUser(id: int, u: UserRecord) returns (err: Outcome<string>)
      requires repo.Valid()
      modifies repo
      ensures repo.Valid()
      ensures (repo.table, err) == UpdateUserSpec(old(repo.table), id, u.Value())
    {
      err := repo.UpdateUser(id, u);
    }
  }
}
