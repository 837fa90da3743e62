/** `ValidateUser` (internal/user-pack/validation.go:13-21): the required-field
    check, then the email syntax check. It has no other effect and looks at no
    other field. */
module Validation {
  import opened Results
  import opened Users
  import Email

  const MissingFieldsMessage := "firstname, lastname and email are required"
  const InvalidEmailMessage := "invalid email format"

  /** The three fields whose emptiness the validator rejects. */
  predicate HasRequiredFields(u: User) {
    u.firstname != "" && u.lastname != "" && u.email != ""
  }

  /** Returns nil for an acceptable user, otherwise the first failing check's
      error. The missing-field check comes first, so an empty field is reported
      as missing whatever the email looks like. */
  function ValidateUser(u: User): (r: Outcome<string>)
    ensures r.Nil? <==> HasRequiredFields(u) && Email.IsValidEmail(u.email)
    ensures !HasRequiredFields(u) ==> r == Fail(MissingFieldsMessage)
    ensures r == Fail(InvalidEmailMessage) <==> HasRequiredFields(u) && !Email.IsValidEmail(u.email)
  {
    if u.firstname == "" || u.lastname == "" || u.email == "" then
      Fail(MissingFieldsMessage)
    else if !Email.IsValidEmail(u.email) then
      Fail(InvalidEmailMessage)
    else
      Nil
  }

  /** The verdict depends on the names and the email only: id, age and the
      creation time are ignored. */
  lemma IgnoresIdAgeCreated(u: User, id: int, age: nat, created: Time)
    ensures ValidateUser(u.(id := id, age := age, created := created)) == ValidateUser(u)
  {
  }

  /** The three cases of the handler tests: a missing first name and a
      malformed address are refused, the complete record is accepted. */
  lemma TestUsers()
    ensures ValidateUser(User(0, "", "Doe", "john.doe@example.com", 30, 0)) == Fail(MissingFieldsMessage)
    ensures ValidateUser(User(0, "John", "Doe", "invalid-email", 30, 0)) == Fail(InvalidEmailMessage)
    ensures ValidateUser(User(0, "John", "Doe", "john.doe@example.com", 30, 0)) == Nil
  {
    Email.RejectsTestAddress();
    Email.AcceptsTestAddress();
  }
}
