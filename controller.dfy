/** `UserController` of the user-pack package (internal/user-pack/contoller.go):
    the same three decision chains as `UserHandler`, over the same service.
    Its create path calls a lowercase `validateUser` that the package does not
    declare; the model gives it the package's `ValidateUser`, which makes the
    same checks in the same order. */
module Controller {
  import opened Results
  import opened Users
  import opened Validation
  import opened Service
  import opened Handlers

  class UserController {
    const service: UserService

    constructor (service: UserService)
      ensures this.service == service
    {
      this.service := service;
    }

    /** contoller.go:24-42: a bind or validation failure answers 400 and the
        table is untouched; otherwise the service decides between 500 and 201. */
    method CreateUser(bound: Result<User, string>, now: Time) returns (resp: Response)
      requires service.repo.Valid()
      modifies service.repo
      ensures service.repo.Valid()
      ensures (service.repo.table, resp) == CreateUserHandled(old(service.repo.table), bound, now)
    {
      match CreateStep(bound, ValidateUser) {
        case Respond(r) =>
          resp := r;
        case CallService(u) =>
          var user := new UserRecord(u);
          var err := service.CreateUser(user, now);
          resp := CreateReply(user.Value(), err);
      }
    }

    /** contoller.go:44-59: 400 for an id that does not parse, 404 for any
        service error, 200 with the user. */
    method GetUser(id: Option<int>) returns (resp: Response)
      ensures resp == GetUserHandled(service.repo.table, id)
      ensures resp.status == StatusOK <==> id.Some? && id.value in service.repo.table.rows
      ensures resp.status == StatusNotFound <==> id.Some? && id.value !in service.repo.table.rows
    {
      match GetStep(id) {
        case Respond(r) =>
          resp := r;
        case CallService(n) =>
          var r := service.GetUser(n);
          resp := GetReply(r);
      }
    }

    /** contoller.go:61-85: id, then body, each 400 on failure; the body is
        passed on without validation. */
    method UpdateUser(id: Option<int>, bound: Result<User, string>) returns (resp: Response)
      requires service.repo.Valid()
      modifies service.repo
      ensures service.repo.Valid()
      ensures (service.repo.table, resp) == UpdateUserHandled(old(service.repo.table), id, bound)
    {
      match UpdateStep(id, bound) {
        case Respond(r) =>
          resp := r;
        case CallService((n, u)) =>
          var user := new UserRecord(u);
          var err := service.UpdateUser(n, user);
          resp := UpdateReply(err);
      }
    }
  }
}
