/**
 * The user table, as far as the session services use it: lookup by id,
 * by email and by Google id, creation, the login-counter update and
 * deletion. The database's unique constraints on `email` and `googleId`
 * are the table's invariant; a write that would break one fails with
 * Prisma's known-request error P2002, and a write to a missing row with
 * P2025.
 */
module Users {
  import opened Outcomes

  datatype User = User(
    id: nat,
    email: string,
    pwd: Option<string>,        // argon2 digest; absent for Google-only accounts
    googleId: Option<string>,
    loginsCount: nat,
    lastLogin: Option<string>)  // ISO timestamp, opaque here

  /** An error thrown by the database client. */
  datatype DbError =
    | KnownRequestError(code: string)  // PrismaClientKnownRequestError
    | OtherError                       // any other error object, without a code

  const UNIQUE_CONSTRAINT_VIOLATION: string := "P2002"
  const RECORD_NOT_FOUND: string := "P2025"

  /** The value the model gives `loginsCount` on creation (the schema is not part of this model). */
  const LOGINS_COUNT_DEFAULT: nat := 0

  class UserTable {
    var rows: map<nat, User>
    var nextId: nat

    /** Rows are stored under their own id, ids come from the sequence, email and googleId are unique. */
    ghost predicate Valid()
      reads this
    {
      && (forall id :: id in rows ==> rows[id].id == id && id < nextId)
      && (forall a, b :: a in rows && b in rows && rows[a].email == rows[b].email ==> a == b)
      && (forall a, b :: a in rows && b in rows && rows[a].googleId.Some? && rows[a].googleId == rows[b].googleId ==> a == b)
    }

    ghost predicate EmailTaken(email: string)
      reads this
    {
      exists id :: id in rows && rows[id].email == email
    }

    ghost predicate GoogleIdTaken(googleId: string)
      reads this
    {
      exists id :: id in rows && rows[id].googleId == Some(googleId)
    }

    constructor ()
      ensures Valid() && rows == map[] && nextId == 0
    {
      rows, nextId := map[], 0;
    }

    /** findUnique({id}): the row, or null. */
    method FindById(id: nat) returns (u: Option<User>)
      ensures u == (if id in rows then Some(rows[id]) else None)
    {
      u := if id in rows then Some(rows[id]) else None;
    }

    /** findUnique({email}): the one row with that email, or null. */
    method FindByEmail(email: string) returns (u: Option<User>)
      requires Valid()
      ensures u.None? <==> !EmailTaken(email)
      ensures u.Some? ==> u.value.id in rows && rows[u.value.id] == u.value && u.value.email == email
    {
      if id :| id in rows && rows[id].email == email {
        u := Some(rows[id]);
      } else {
        u := None;
      }
    }

    /** findFirst({where: {googleId}}): the one row with that Google id, or null. */
    method FindFirstByGoogleId(googleId: string) returns (u: Option<User>)
      requires Valid()
      ensures u.None? <==> !GoogleIdTaken(googleId)
      ensures u.Some? ==> u.value.id in rows && rows[u.value.id] == u.value && u.value.googleId == Some(googleId)
    {
      if id :| id in rows && rows[id].googleId == Some(googleId) {
        u := Some(rows[id]);
      } else {
        u := None;
      }
    }

    /** create: a new row under the next id, unless a unique field is already taken. */
    method Create(email: string, pwd: Option<string>, googleId: Option<string>, lastLogin: Option<string>)
      returns (r: Result<User, DbError>)
      requires Valid()
      modifies this
      ensures Valid()
      ensures r.Err? <==> old(EmailTaken(email)) || (googleId.Some? && old(GoogleIdTaken(googleId.value)))
      ensures r.Err? ==> r.error == KnownRequestError(UNIQUE_CONSTRAINT_VIOLATION)
                         && rows == old(rows) && nextId == old(nextId)
      ensures r.Ok? ==> && r.value == User(old(nextId), email, pwd, googleId, LOGINS_COUNT_DEFAULT, lastLogin)
                        && old(nextId) !in old(rows)
                        && rows == old(rows)[old(nextId) := r.value]
                        && nextId == old(nextId) + 1
    {
      if (exists id :: id in rows && rows[id].email == email)
         || (googleId.Some? && exists id :: id in rows && rows[id].googleId == googleId)
      {
        return Err(KnownRequestError(UNIQUE_CONSTRAINT_VIOLATION));
      }
      var user := User(nextId, email, pwd, googleId, LOGINS_COUNT_DEFAULT, lastLogin);
      rows := rows[nextId := user];
      nextId := nextId + 1;
      return Ok(user);
    }

    /** update({where: {id}, data: {loginsCount, lastLogin}}): P2025 when the row is missing. */
    method UpdateLogin(id: nat, loginsCount: nat, lastLogin: Option<string>) returns (r: Result<User, DbError>)
      requires Valid()
      modifies this
      ensures Valid() && nextId == old(nextId)
      ensures r.Err? <==> id !in old(rows)
      ensures r.Err? ==> r.error == KnownRequestError(RECORD_NOT_FOUND) && rows == old(rows)
      ensures r.Ok? ==> && r.value == old(rows)[id].(loginsCount := loginsCount, lastLogin := lastLogin)
                        && rows == old(rows)[id := r.value]
    {
      if id !in rows {
        return Err(KnownRequestError(RECORD_NOT_FOUND));
      }
      var user := rows[id].(loginsCount := loginsCount, lastLogin := lastLogin);
      rows := rows[id := user];
      return Ok(user);
    }

    /** delete({where: {id}, select: {id}}): P2025 when the row is missing. */
    method Delete(id: nat) returns (r: Result<nat, DbError>)
      requires Valid()
      modifies this
      ensures Valid() && nextId == old(nextId)
      ensures r.Err? <==> id !in old(rows)
      ensures r.Err? ==> r.error == KnownRequestError(RECORD_NOT_FOUND) && rows == old(rows)
      ensures r.Ok? ==> r.value == id && rows == old(rows) - {id}
    {
      if id !in rows {
        return Err(KnownRequestError(RECORD_NOT_FOUND));
      }
      rows := rows - {id};
      return Ok(id);
    }
  }
}
