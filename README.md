# user-api in Dafny

A model of the user-api service: a small users store behind a REST API (gin) and a
gRPC API, on a PostgreSQL table `users` (SERIAL id, UNIQUE email). It covers:

- `email.dfy`: the language of the email pattern
  `^[a-zA-Z0-9._%+-]+@[a-zA-Z0-9.-]+\.[a-zA-Z]{2,}$`, written as a predicate. It also
  holds a scanner, proved to decide exactly that language, and the shape of the
  accepted addresses: one split, one '@', and the separator is the last '.'.
- `validation.dfy`: `ValidateUser` of the user-pack package. It checks the required
  fields first, then the email.
- `schema.dfy`: the `users` table as a value (rows keyed by id, plus the SERIAL
  counter). It holds the INSERT, SELECT and UPDATE the repositories send, with the
  table invariant: ids below the counter, each row under its own id, unique emails.
- `users.dfy`: the `User` entity, and `UserRecord`, the `*User` that services and
  repositories write in place.
- `repository.dfy`, `service.dfy`: the user-pack `PostgresUserRepository` and
  `UserService`. They are classes holding the table. Their methods are proved
  against specification functions, which carry the lemmas.
- `handlers.dfy`, `controller.dfy`: the HTTP endpoints POST /users, GET /user/:id and
  PATCH /user/:id. They are written as pure decision functions (status and body),
  composed with the service into end-to-end functions of the table.
- `main_app.dfy`, `alt_service.dfy`: the self-contained variant in `main.go` (its
  own validator, repository, service and controller) and the second `UserService`
  in `internal/userPack`.
- `grpc_server.dfy`: the gRPC adapter `CreateUser`, `GetUser` and `UpdateUser`, with
  `convertProtoUserToUser`.

Clocks are parameters: every operation that reads `time.Now()` takes the instant as
an argument. Go errors are modelled as their message strings, because the update
handlers compare a message. A JSON bind is given as its outcome
(`Result<User, string>`), and `strconv.Atoi` of the path id as an `Option<int>`.

Two places in the code do not match each other. The model resolves them as follows.

- `internal/user-pack/contoller.go` calls a lowercase `validateUser` that its
  package does not declare. The model gives it the package's `ValidateUser`,
  which makes the same checks in the same order (`main.go` declares an identical
  `validateUser`).
- `internal/userPack/service.go` calls `GetUserByID`, which only `main.go`'s
  repository interface declares. The model runs that service over `main.go`'s
  repository.

## Model

| member | source | states |
|---|---|---|
| Users.UserRecord.constructor | main.go:17-24 | a record holds exactly the six fields it is built from |
| Email.NoClassHoldsAt | internal/user-pack/validation.go:9 | '@' is in none of the three character classes of the pattern |
| Email.SplitShape | internal/user-pack/validation.go:9 | an accepted address is local part, '@', domain, '.' and top-level domain, in that order, with non-empty parts and a top-level domain of at least two letters |
| Email.ComposeAccepted | internal/user-pack/validation.go:9 | conversely, any local part, domain and top-level domain drawn from their classes glue into an accepted address |
| Email.AtIsOnly | internal/user-pack/validation.go:9 | the '@' of a split is the only '@' of the address |
| Email.DotIsLast | internal/user-pack/validation.go:9 | no '.' follows the separator, which is therefore the last '.' |
| Email.SplitIsUnique | internal/user-pack/validation.go:9 | an accepted address has exactly one split |
| Email.AcceptedHasOneAt | internal/user-pack/validation.go:8-11 | every accepted address contains exactly one '@' |
| Email.AcceptsTestAddress | test/user_handler_test.go:94-99 | "john.doe@example.com" is accepted |
| Email.RejectsTestAddress | test/user_handler_test.go:73-78 | "invalid-email" is rejected |
| Email.ScanClass | internal/user-pack/validation.go:9 | returns true exactly when every character of the range is in the class |
| Email.LocalScanStopsAtAt | internal/user-pack/validation.go:9 | a maximal run of local-part characters from the start ends exactly at the '@' of any split |
| Email.DotScanStopsAtSeparator | internal/user-pack/validation.go:9 | the last '.' after the '@' is the separator of any split |
| Email.EarlyStopRejects | internal/user-pack/validation.go:9 | if the local-part run is empty or not followed by an '@', the pattern does not match |
| Email.SeparatorsAreFound | internal/user-pack/validation.go:9 | the first '@' and the last '.' after it are the split of any matching string |
| Email.ScanEmail | internal/user-pack/validation.go:8-11 | the scanner accepts a string exactly when the pattern matches it |
| Validation.ValidateUser | internal/user-pack/validation.go:13-21 | nil exactly for non-empty names and email with a valid email; any empty field reports the missing-fields error first; the invalid-format error exactly for complete records with a malformed email |
| Validation.IgnoresIdAgeCreated | internal/user-pack/validation.go:13-21 | the verdict does not depend on id, age or creation time |
| Validation.TestUsers | test/user_handler_test.go:52-99 | the three create cases of the handler tests: missing first name, malformed email, valid record |
| Schema.EmptyIsValid | pkg/db/db.go:18-25 | a freshly created table satisfies the table invariant |
| Schema.InsertFresh | internal/user-pack/repository.go:25-26 | an insert keeps the invariant; its id is at least 1 and was no key before; the row under it is the inserted row with that id |
| Schema.InsertDuplicateFails | pkg/db/db.go:22 | the insert fails with the duplicate-key error exactly when some row holds the email, and then the rows are unchanged |
| Schema.InsertKeepsOtherRows | internal/user-pack/repository.go:25-26 | an insert never changes or removes an existing row |
| Schema.SelectAfterInsert | internal/user-pack/repository.go:35 | selecting the returned id gives the inserted fields with that id |
| Schema.SelectFindsRow | internal/user-pack/repository.go:35 | select returns the whole row exactly for a present id, and no-rows otherwise |
| Schema.UpdateOnlyFourColumns | internal/user-pack/repository.go:43-44 | an update keeps the invariant, the counter and the key set, and changes no other row and no id or creation time |
| Schema.UpdateWritesFourColumns | internal/user-pack/repository.go:43-44 | one affected row carries exactly the four new column values |
| Schema.UpdateDuplicateFails | pkg/db/db.go:22 | taking an email another row holds fails with the duplicate-key error and changes nothing |
| Schema.UpdateMissingRow | internal/user-pack/repository.go:43-44 | an id with no row changes nothing and affects zero rows, without error |
| Repository.CreateError | internal/user-pack/repository.go:28 | the wrapped insert error is never "user not found" |
| Repository.GetError | internal/user-pack/repository.go:37 | the wrapped select error is never "user not found" |
| Repository.UpdateError | internal/user-pack/repository.go:46 | the wrapped update error is never "user not found" |
| Repository.CreateUserWritesId | internal/user-pack/repository.go:24-31 | on success only the fresh id is written into the record, and the table gains exactly that record; on failure record and rows are unchanged; the invariant holds |
| Repository.CreateDuplicateEmail | internal/user-pack/repository.go:24-31 | a taken email fails with the wrapped duplicate-key error |
| Repository.GetAfterCreate | internal/user-pack/repository.go:24-40 | reading a created user back gives the caller's record, id and time included |
| Repository.GetUserFindsRow | internal/user-pack/repository.go:33-40 | the stored row exactly for a present id, else the wrapped no-rows error |
| Repository.UpdateUserKeepsIdAndCreated | internal/user-pack/repository.go:42-49 | the invariant and key set are kept; other rows, ids and creation times are untouched; success writes the four columns |
| Repository.UpdateMissingIdSucceeds | internal/user-pack/repository.go:42-49 | as written: updating a missing id changes nothing and reports success |
| Repository.ErrorsAreNeverNotFound | internal/user-pack/repository.go:24-49 | no error of the three operations reads "user not found" |
| Repository.CheckedUpdateReportsMissing | internal/user-pack/repository.go:42-49 | the corrected update reports "user not found" exactly for a missing id, and behaves as written otherwise |
| Repository.PostgresUserRepository.constructor | internal/user-pack/repository.go:20-22 | a new repository sees an empty, valid table |
| Repository.PostgresUserRepository.CreateUser | internal/user-pack/repository.go:24-31 | table, record and error are those of the create specification; the invariant is kept |
| Repository.PostgresUserRepository.GetUser | internal/user-pack/repository.go:33-40 | found exactly for a present id, with the stored row; otherwise the wrapped no-rows error |
| Repository.PostgresUserRepository.UpdateUser | internal/user-pack/repository.go:42-49 | table and error are those of the update specification; the invariant is kept |
| Service.IdAndCreatedWrittenOnce | internal/user-pack/service.go:21-32 | after any sequence of service calls a row is still present, with its id and creation time unchanged, and the table stays valid |
| Service.CreateStampsNow | internal/user-pack/service.go:21-24 | a created row carries the service's time, whatever the caller sent |
| Service.UserService.constructor | internal/user-pack/service.go:17-19 | the service wraps the given repository |
| Service.UserService.CreateUser | internal/user-pack/service.go:21-24 | `Created` becomes now; nothing else is touched before the repository's create, whose error is returned |
| Service.UserService.GetUser | internal/user-pack/service.go:26-28 | the repository's result, verbatim |
| Service.UserService.UpdateUser | internal/user-pack/service.go:30-32 | the repository's update with the same id and record |
| Handlers.CreateStep | internal/user-pack/handlers.go:24-34 | the service is called exactly when the body binds and validates; otherwise 400 with the bind error or, for a bound body, the validator's own message (so a missing field is reported before a malformed email) |
| Handlers.CreateReply | internal/user-pack/handlers.go:36-41 | 201 with the record exactly on success, else 500 with the error |
| Handlers.GetStep | internal/user-pack/handlers.go:44-50 | 400 "Invalid user ID" exactly when the id does not parse |
| Handlers.GetReply | internal/user-pack/handlers.go:52-58 | 200 with the user exactly on success, else 404 "User not found" |
| Handlers.UpdateStep | internal/user-pack/handlers.go:61-73 | the id is checked before the body; the service is called exactly when both succeed; no validation |
| Handlers.UpdateReply | internal/user-pack/handlers.go:75-84 | 404 exactly for the error "user not found", 500 for any other, 200 "User updated" on success |
| Handlers.CreateUserHandledOutcome | internal/user-pack/handlers.go:24-41 | 201 exactly for a valid body with an unused email, then the response is the stored row with a fresh id and the handler's time; a 400 leaves the table as it was; a malformed email never reaches the table |
| Handlers.GetUserHandledOutcome | internal/user-pack/handlers.go:44-58 | 200 with the row exactly for a present id, 404 exactly for a parsed missing id, 400 exactly for an unparsable one |
| Handlers.UpdateUserHandledOutcome | internal/user-pack/handlers.go:61-84 | 400 exactly for a bad id or body, leaving the table alone; never 404; a missing id answers 200 "User updated" |
| Handlers.UpdateOfMissingUserAnswersOk | internal/user-pack/handlers.go:75-84 | as written: PATCH /user/1 on an empty table answers 200 "User updated" |
| Handlers.CheckedUpdateAnswersNotFound | internal/user-pack/handlers.go:76-79 | with the corrected update, the reply is 404 exactly for a missing id |
| Handlers.UserHandler.constructor | internal/user-pack/handlers.go:20-22 | the handler wraps the given service |
| Handlers.UserHandler.CreateUser | internal/user-pack/handlers.go:24-42 | table and response are those of the end-to-end create |
| Handlers.UserHandler.GetUser | internal/user-pack/handlers.go:44-59 | the end-to-end read; 200 exactly for a present id |
| Handlers.UserHandler.UpdateUser | internal/user-pack/handlers.go:61-85 | table and response are those of the end-to-end update |
| Controller.UserController.constructor | internal/user-pack/contoller.go:20-22 | the controller wraps the given service |
| Controller.UserController.CreateUser | internal/user-pack/contoller.go:24-42 | same table and response as the user-pack create handler |
| Controller.UserController.GetUser | internal/user-pack/contoller.go:44-59 | 200 exactly for a present id, 404 exactly for a parsed missing id |
| Controller.UserController.UpdateUser | internal/user-pack/contoller.go:61-85 | same table and response as the user-pack update handler |
| MainApp.ValidateUser | main.go:176-184 | nil exactly for complete records with a valid email; a missing field is reported first; the same verdict as the user-pack validator |
| MainApp.RawErrorsAreNeverNotFound | main.go:40-58 | the unwrapped database errors are never "user not found"; a failed read is no-rows |
| MainApp.TextIsNeverNotFound | main.go:54-58 | no database error text is "user not found" |
| MainApp.SameTableAsUserPack | main.go:40-58 | this repository changes the table and the record as the user-pack one does, and finds the same rows |
| MainApp.SameAnswersAsUserPack | main.go:89-150 | the three endpoints give the user-pack handlers' status codes and tables, and every response other than a 500 is identical; only 500 error texts differ |
| MainApp.PostgresUserRepository.constructor | main.go:36-38 | a new repository sees an empty, valid table |
| MainApp.PostgresUserRepository.CreateUser | main.go:40-43 | table, record and raw error are those of the create specification |
| MainApp.PostgresUserRepository.GetUserByID | main.go:45-52 | the stored row exactly for a present id, else the raw no-rows error |
| MainApp.PostgresUserRepository.UpdateUser | main.go:54-58 | table and raw error are those of the update specification |
| MainApp.UserService.constructor | main.go:64-66 | the service wraps the given repository |
| MainApp.UserService.CreateUser | main.go:68-71 | `Created` becomes now, then the repository's create |
| MainApp.UserService.GetUser | main.go:73-75 | `GetUserByID`'s result, verbatim |
| MainApp.UserService.UpdateUser | main.go:77-79 | the repository's update with the same id and record |
| MainApp.UserController.constructor | main.go:85-87 | the controller wraps the given service |
| MainApp.UserController.CreateUser | main.go:89-107 | table and response of the end-to-end create over this service |
| MainApp.UserController.GetUser | main.go:109-124 | the end-to-end read; 200 exactly for a present id |
| MainApp.UserController.UpdateUser | main.go:126-150 | table and response of the end-to-end update over this service |
| AltService.UserService.constructor | internal/userPack/service.go:12-14 | the service wraps the given repository |
| AltService.UserService.CreateUser | internal/userPack/service.go:16-19 | `Created` becomes now, then the repository's create, whose error is returned |
| AltService.UserService.GetUser | internal/userPack/service.go:21-23 | `GetUserByID`'s result: the stored row exactly for a present id |
| AltService.UserService.UpdateUser | internal/userPack/service.go:25-27 | the repository's update with the same id and record |
| GrpcUser.ConvertProtoUserToUser | internal/grpc/user/server.go:98-115 | an error exactly for a nil user or an empty required field, with the source's two messages; otherwise a copy of the fields with `Created` set to now |
| GrpcUser.CreateUserRpcOutcome | internal/grpc/user/server.go:27-49 | a nil user fails first; a conversion failure (nil or missing field) or a malformed email never reaches the table, and the only validation error is the format one; success exactly when conversion and validation pass and no row holds the email; then the response echoes the request's user and the table gains exactly the converted user under a fresh id, stamped with the service's time |
| GrpcUser.GetUserRpcOutcome | internal/grpc/user/server.go:51-67 | success exactly for a present id, copying all six fields; otherwise "user not found: " plus the wrapped error |
| GrpcUser.UpdateUserRpcSkipsEmailFormat | internal/grpc/user/server.go:69-80 | a conversion failure leaves the table alone; the email format is never checked, so a present row takes any email no other row holds |
| GrpcUser.UpdateAcceptsMalformedEmail | internal/grpc/user/server.go:69-80 | row 1 can be given the rejected email "not-an-email" |
| GrpcUser.GrpcServer.constructor | internal/grpc/user/server.go:21-25 | the server wraps the given service |
| GrpcUser.GrpcServer.CreateUser | internal/grpc/user/server.go:27-49 | table and result are those of the whole create call |
| GrpcUser.GrpcServer.GetUser | internal/grpc/user/server.go:51-67 | the whole read; success exactly for a present id |
| GrpcUser.GrpcServer.UpdateUser | internal/grpc/user/server.go:69-80 | table and result are those of the whole update call |

## Left out

- Database connection, `InitDB`/`initDB`, `DATABASE_URL` and the `CREATE TABLE` round trip: the table is a value that starts empty; pgx and the network are not modelled.
- Routing and bootstrap (`main`, `cmd/user-api/main.go`, `StartGRPCServer`, listening and serving): I/O only.
- Gin's JSON binding and response writing: a bind is given as its outcome, and a response is a status and a body value.
- `strconv.Atoi`: given as its outcome, an optional integer.
- Logging, `context.Context` and the generated protobuf types: no effect on the modelled behaviour; the protobuf messages are plain datatypes.
- The `UserRepository`, `UserServiceInterface`, `UserHandlerInterface` and `UserControllerInterface` interfaces: each is modelled by its one concrete implementation.
- `time.Now()`: every instant is a parameter.
- Go's `regexp` engine: the pattern is modelled by the language it denotes, not by RE2 matching.
- Unicode and bytes: strings are sequences of characters. The pattern's ASCII classes are exact, and no encoding is modelled.
- The `users` table does not model the VARCHAR(100) length limits, the 32-bit range of the `age INT` and `SERIAL` columns, or timestamp precision and time zone. Inserts that PostgreSQL would refuse for those reasons succeed in the model.
- An insert draws a sequence value even when the insert fails, as PostgreSQL sequences do. The sequence's 32-bit limit is not modelled.
- The `ProtoUser` message: its id and age are unbounded integers rather than the wire's int32 and uint32, so the widening casts of `convertProtoUserToUser` (server.go:108,112) are identities.
- GrpcUser.GetUserRpc: copies id and age without the `int32(user.ID)` and `uint32(user.Age)` narrowing of server.go:58,62. The narrowing is lossless only within the 32-bit column ranges, which the table does not model either.
- gRPC `GetUser` copies `Created` as an instant. Its RFC 3339 text form is not modelled.

## Findings

| source | as written | input that shows it | evidently intended | confidence | as-written member | corrected member |
|---|---|---|---|---|---|---|
| internal/user-pack/handlers.go:75-79 | `UpdateUser` discards the rows-affected count and wraps every error with an operation prefix, so no error ever reads "user not found" and the 404 branch is dead (the same holds for contoller.go:75-79 and main.go:140-144) | PATCH /user/1 with a valid body on an empty table answers 200 "User updated" | an update of an id with no row answers 404 "User not found" | not executed | Handlers.UpdateOfMissingUserAnswersOk | Handlers.CheckedUpdateAnswersNotFound |

The end-to-end update functions and the handler classes follow the code as written.
`Repository.CheckedUpdateUserSpec` is the corrected update: zero affected rows become "user not found".
`Handlers.CheckedUpdateAnswersNotFound` proves that the reply is then 404 exactly for a missing id.
