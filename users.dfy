/** The one entity of the system, the `User` struct (main.go:17-24; the
    user-pack package declares the same six fields). */
module Users {

  /** A timestamp. The model never reads a clock: every operation that calls
      `time.Now()` in the source takes the instant as a parameter. */
  type Time = int

  /** One row of the `users` table and the JSON body of the HTTP layer.
      `age` is Go's `uint`, so it is never negative. */
  datatype User = User(id: int, firstname: string, lastname: string, email: string, age: nat, created: Time)

  /** A `*User` that the service and the repository write to in place. */
  class UserRecord {
    var id: int
    var firstname: string
    var lastname: string
    var email: string
    var age: nat
    var created: Time

    constructor (u: User)
      ensures Value() == u
    {
      id, firstname, lastname, email, age, created := u.id, u.firstname, u.lastname, u.email, u.age, u.created;
    }

    /** The record's current contents as a value. */
    function Value(): User
      reads this
    {
      User(id, firstname, lastname, email, age, created)
    }
  }
}
