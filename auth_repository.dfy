/** The user lookups and the insert used by registration and login. */
module AuthRepository {
  import opened Wrappers
  import opened Tables
  import opened AppErrors

  /** The first user row with exactly that email (WHERE email = ?). */
  function UserByEmail(rows: seq<UserRow>, email: string): (r: Option<UserRow>)
    ensures r.None? <==> forall i :: 0 <= i < |rows| ==> rows[i].email != email
    ensures r.Some? ==> r.value in rows && r.value.email == email
  {
    if rows == [] then None
    else if rows[0].email == email then Some(rows[0])
    else UserByEmail(rows[1..], email)
  }

  /** findUserByEmail: the whole row, password hash included. */
  function FindUserByEmail(t: Tables, email: string): (r: Option<UserRow>)
    ensures r.None? <==> forall i :: 0 <= i < |t.users| ==> t.users[i].email != email
    ensures r.Some? ==> r.value in t.users && r.value.email == email
  {
    UserByEmail(t.users, email)
  }

  /** emailExists: some row has exactly that email; the comparison is
      exact, so callers normalise the email first. */
  function EmailExists(t: Tables, email: string): (b: bool)
    ensures b <==> exists i :: 0 <= i < |t.users| && t.users[i].email == email
  {
    UserByEmail(t.users, email).Some?
  }

  /** createUser: appends one row with role USER under the next id. The
      e-mail column is UNIQUE, so an e-mail already present makes the INSERT
      fail and nothing is added. */
  method CreateUser(db: Database, name: string, email: string, hash: string) returns (r: Result<int, Failure>)
    modifies db
    requires Valid(db.State())
    ensures Valid(db.State())
    ensures EmailExists(old(db.State()), email) ==> r == Err(OtherFailure) && db.State() == old(db.State())
    ensures !EmailExists(old(db.State()), email) ==>
      && r == Ok(old(db.nextUserId))
      && db.State() == old(db.State()).(
           users := old(db.users) + [UserRow(old(db.nextUserId), name, email, hash, UserRole)],
           nextUserId := old(db.nextUserId) + 1)
  {
    if EmailExists(db.State(), email) {
      return Err(OtherFailure);
    }
    var row := UserRow(db.nextUserId, name, email, hash, UserRole);
    AppendUserValid(db.State(), row);
    db.users := db.users + [row];
    db.nextUserId := db.nextUserId + 1;
    r := Ok(row.id);
  }

  /** The `{id, role}` projection findUserBasic selects. */
  datatype IdAndRole = IdAndRole(id: int, role: Role)

  /** findUserBasic: only the id and role of the row with that email. */
  function FindUserBasic(t: Tables, email: string): (r: Option<IdAndRole>)
    ensures r.None? <==> !EmailExists(t, email)
    ensures r.Some? ==> exists u :: u in t.users && u.email == email && r.value == IdAndRole(u.id, u.role)
  {
    match UserByEmail(t.users, email)
    case None => None
    case Some(u) => Some(IdAndRole(u.id, u.role))
  }

  /** With emails unique, the row an email finds is the only row with that
      email. */
  lemma {:induction false} EmailFindsTheOnlyRow(t: Tables, email: string, u: UserRow)
    requires Valid(t)
    requires u in t.users && u.email == email
    ensures FindUserByEmail(t, email) == Some(u)
  {
    var r := FindUserByEmail(t, email);
    var i :| 0 <= i < |t.users| && t.users[i] == r.value;
    var j :| 0 <= j < |t.users| && t.users[j] == u;
    assert forall a, b :: 0 <= a < b < |t.users| ==> t.users[a].email != t.users[b].email by {
      forall a, b | 0 <= a < b < |t.users| ensures t.users[a].email != t.users[b].email {
        assert UsersApart(t.users[a], t.users[b]);
      }
    }
  }

  /** A row appended under a fresh e-mail is what both lookups by that
      e-mail find. */
  lemma CreatedUserFound(t: Tables, row: UserRow)
    requires Valid(t) && row.id == t.nextUserId
    requires forall i :: 0 <= i < |t.users| ==> t.users[i].email != row.email
    ensures Valid(t.(users := t.users + [row], nextUserId := t.nextUserId + 1))
    ensures FindUserByEmail(t.(users := t.users + [row], nextUserId := t.nextUserId + 1), row.email) == Some(row)
    ensures FindUserBasic(t.(users := t.users + [row], nextUserId := t.nextUserId + 1), row.email) == Some(IdAndRole(row.id, row.role))
  {
    var after := t.(users := t.users + [row], nextUserId := t.nextUserId + 1);
    AppendUserValid(t, row);
    assert after.users[|after.users| - 1] == row;
    EmailFindsTheOnlyRow(after, row.email, row);
  }
}
