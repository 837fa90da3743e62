/** The `users` table (pkg/db/db.go:18-25, created identically at
    main.go:158-167) and the three SQL statements the repositories send to it:
    INSERT ... RETURNING id, SELECT ... WHERE id, UPDATE ... WHERE id.

    The table is a map from id to row plus the next value of the SERIAL
    sequence. Two constraints of the schema matter: the SERIAL primary key
    (ids are drawn from a sequence that starts at 1 and never goes back) and
    the UNIQUE email column. */
module Schema {
  import opened Results
  import opened Users

  /** The failures the database reports for these statements. */
  datatype DbError = NoRows | DuplicateEmail {
    /** The driver's error text. */
    function Text(): string {
      match this
      case NoRows => "no rows in result set"
      case DuplicateEmail => "ERROR: duplicate key value violates unique constraint \"users_email_key\" (SQLSTATE 23505)"
    }
  }

  datatype Table = Table(rows: map<int, User>, nextId: int) {
    /** Every row is stored under its own id, every id was drawn from the
        sequence before `nextId`, and no two rows share an email. */
    ghost predicate Valid() {
      && 1 <= nextId
      && (forall id | id in rows :: 1 <= id < nextId && rows[id].id == id)
      && (forall i, j | i in rows && j in rows && rows[i].email == rows[j].email :: i == j)
    }
  }

  /** A freshly created table: no rows, sequence at 1. */
  const Empty := Table(map[], 1)

  /** Some row other than the one keyed `except` holds `email`. */
  predicate EmailTaken(rows: map<int, User>, email: string, except: Option<int>) {
    exists k | k in rows :: rows[k].email == email && except != Some(k)
  }

  /** INSERT INTO users (firstname, lastname, email, age, created) ... RETURNING id.
      The id column is not supplied, so the row's own `id` is ignored and the
      sequence's next value is used. The sequence is advanced whether or not
      the row is stored: a sequence value is never handed out twice. */
  function Insert(t: Table, row: User): (Table, Result<int, DbError>) {
    var id := t.nextId;
    if EmailTaken(t.rows, row.email, None) then
      (t.(nextId := id + 1), Err(DuplicateEmail))
    else
      (Table(t.rows[id := row.(id := id)], id + 1), Ok(id))
  }

  /** SELECT id, firstname, lastname, email, age, created FROM users WHERE id = $1,
      read with QueryRow: no matching row is an error. */
  function Select(t: Table, id: int): Result<User, DbError> {
    if id in t.rows then Ok(t.rows[id]) else Err(NoRows)
  }

  /** UPDATE users SET firstname, lastname, email, age WHERE id = $5. The
      result is the number of rows affected; no matching row is not an error. */
  function Update(t: Table, id: int, firstname: string, lastname: string, email: string, age: nat)
    : (Table, Result<nat, DbError>)
  {
    if id !in t.rows then
      (t, Ok(0))
    else if EmailTaken(t.rows, email, Some(id)) then
      (t, Err(DuplicateEmail))
    else
      (t.(rows := t.rows[id := t.rows[id].(firstname := firstname, lastname := lastname, email := email, age := age)]), Ok(1))
  }

  lemma EmptyIsValid()
    ensures Empty.Valid()
  {
  }

  /** An insert keeps the table valid, and the id it returns is fresh: it was
      no key before, it is at least 1, and the row stored under it is the
      inserted row with that id. */
  lemma {:induction false} InsertFresh(t: Table, row: User)
    requires t.Valid()
    ensures Insert(t, row).0.Valid()
    ensures Insert(t, row).1.Ok? ==>
      var id := Insert(t, row).1.value;
      && 1 <= id && id !in t.rows
      && Insert(t, row).0.rows == t.rows[id := row.(id := id)]
  {
    if !EmailTaken(t.rows, row.email, None) {
      assert forall k | k in t.rows :: t.rows[k].email != row.email;
    }
  }

  /** The UNIQUE email constraint: inserting an email that a row already holds
      fails, and leaves every row as it was. An email nobody holds is stored. */
  lemma InsertDuplicateFails(t: Table, row: User)
    ensures Insert(t, row).1 == Err(DuplicateEmail) <==> exists k | k in t.rows :: t.rows[k].email == row.email
    ensures Insert(t, row).1.Err? ==> Insert(t, row).0.rows == t.rows
  {
  }

  /** An insert never touches the rows that were there. */
  lemma InsertKeepsOtherRows(t: Table, row: User, k: int)
    requires t.Valid() && k in t.rows
    ensures k in Insert(t, row).0.rows && Insert(t, row).0.rows[k] == t.rows[k]
  {
  }

  /** Reading back an inserted row gives exactly the inserted fields, with the
      assigned id. */
  lemma {:induction false} SelectAfterInsert(t: Table, row: User)
    requires t.Valid()
    ensures Insert(t, row).1.Ok? ==>
      Select(Insert(t, row).0, Insert(t, row).1.value) == Ok(row.(id := Insert(t, row).1.value))
  {
  }

  /** SELECT returns the whole stored row for a present id and NoRows for an
      absent one. */
  lemma SelectFindsRow(t: Table, id: int)
    ensures Select(t, id).Ok? <==> id in t.rows
    ensures Select(t, id).Ok? ==> Select(t, id).value == t.rows[id]
    ensures Select(t, id).Err? ==> Select(t, id).error == NoRows
  {
  }

  /** An update keeps the table valid, keeps its key set, rewrites at most the
      four columns of the row keyed `id` and leaves its id and creation time
      and every other row alone. */
  lemma {:induction false} UpdateOnlyFourColumns(t: Table, id: int, firstname: string, lastname: string, email: string, age: nat)
    requires t.Valid()
    ensures var t' := Update(t, id, firstname, lastname, email, age).0;
      && t'.Valid()
      && t'.nextId == t.nextId
      && t'.rows.Keys == t.rows.Keys
      && (forall k | k in t.rows && k != id :: t'.rows[k] == t.rows[k])
      && (id in t.rows ==> t'.rows[id].id == t.rows[id].id && t'.rows[id].created == t.rows[id].created)
  {
    if id in t.rows && !EmailTaken(t.rows, email, Some(id)) {
      assert forall k | k in t.rows && k != id :: t.rows[k].email != email;
    }
  }

  /** A successful update on a present id stores exactly the four new values. */
  lemma UpdateWritesFourColumns(t: Table, id: int, firstname: string, lastname: string, email: string, age: nat)
    requires id in t.rows
    ensures var (t', r) := Update(t, id, firstname, lastname, email, age);
      r == Ok(1) ==>
        && t'.rows[id].firstname == firstname && t'.rows[id].lastname == lastname
        && t'.rows[id].email == email && t'.rows[id].age == age
  {
  }

  /** Updating to an email another row holds fails and changes nothing. */
  lemma UpdateDuplicateFails(t: Table, id: int, other: int, firstname: string, lastname: string, email: string, age: nat)
    requires id in t.rows && other in t.rows && other != id && t.rows[other].email == email
    ensures Update(t, id, firstname, lastname, email, age) == (t, Err(DuplicateEmail))
  {
    assert EmailTaken(t.rows, email, Some(id));
  }

  /** Updating an id with no row changes nothing and is not an error: it
      affects zero rows. */
  lemma UpdateMissingRow(t: Table, id: int, firstname: string, lastname: string, email: string, age: nat)
    requires id !in t.rows
    ensures Update(t, id, firstname, lastname, email, age) == (t, Ok(0))
  {
  }
}
