/** The second `UserService` (internal/userPack/service.go). It is the
    user-pack service except that `GetUser` calls `GetUserByID`, a name only
    main.go's repository interface declares (main.go:26-30); the model runs it
    over that repository. */
module AltService {
  import opened Results
  import opened Users
  import opened MainApp

  class UserService {
    const repo: PostgresUserRepository

    constructor (repo: PostgresUserRepository)
      ensures this.repo == repo
    {
      this.repo := repo;
    }

    /** internal/userPack/service.go:16-19: `Created` becomes the current time,
        nothing else is written, and the repository's error is returned as is. */
    method CreateUser(u: UserRecord, now: Time) returns (err: Outcome<string>)
      requires repo.Valid()
      modifies u, repo
      ensures repo.Valid()
      ensures u.created == now
      ensures (repo.table, u.Value(), err) == CreateUserSpec(old(repo.table), old(u.Value()).(created := now))
    {
      u.created := now;
      err := repo.CreateUser(u);
    }

    /** internal/userPack/service.go:21-23: `GetUserByID`'s result, verbatim. */
    method GetUser(id: int) returns (r: Result<User, string>)
      ensures r.Ok? <==> id in repo.table.rows
      ensures r.Ok? ==> r.value == repo.table.rows[id]
      ensures r == GetUserByIDSpec(repo.table, id)
    {
      r := repo.GetUserByID(id);
    }

    /** internal/userPack/service.go:25-27: id and record forwarded unchanged,
        no validation. */
    method UpdateUser(id: int, u: UserRecord) returns (err: Outcome<string>)
      requires repo.Valid()
      modifies repo
      ensures repo.Valid()
      ensures (repo.table, err) == UpdateUserSpec(old(repo.table), id, u.Value())
    {
      err := repo.UpdateUser(id, u);
    }
  }
}
