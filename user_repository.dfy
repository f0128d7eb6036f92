/** The profile lookup: a user by id, without the password hash. */
module UserRepository {
  import opened Wrappers
  import opened Tables
  import ResponseDto

  /** findUserById: nothing for an unknown id; otherwise the id, email and
      role of the row with exactly that id. The result type has no password
      field. */
  function FindUserById(t: Tables, id: int): (r: Option<ResponseDto.UserBasic>)
    ensures r.None? <==> forall i :: 0 <= i < |t.users| ==> t.users[i].id != id
    ensures r.Some? ==> exists u :: u in t.users && u.id == id && r.value == ResponseDto.UserBasic(u.id, u.email, u.role)
  {
    match UserById(t.users, id)
    case None => None
    case Some(u) => Some(ResponseDto.UserBasic(u.id, u.email, u.role))
  }
}
