/** The persisted `users` table and the repository lookups on it. The User entity
    itself is not part of this model: a user is the value of the fields the services
    read and write. */
module Users {
  import opened Wrappers

  /** A user's fields: id, email, name and password hash. */
  datatype UserData = UserData(
    id: Option<int>,
    email: Option<string>,
    name: Option<string>,
    password: Option<string>)

  /** The fields of `new User()` that the services set. */
  const NewUser: UserData := UserData(None, None, None, None)

  /** Every row has a generated id below the next one; ids are unique, and so are the
      emails that are set. */
  ghost predicate WellFormed(users: seq<UserData>, nextId: int) {
    && (forall i :: 0 <= i < |users| ==> users[i].id.Some? && users[i].id.value < nextId)
    && (forall i, j :: 0 <= i < j < |users| ==> users[i].id != users[j].id)
    && (forall i, j :: 0 <= i < j < |users| && users[i].email.Some? ==> users[i].email != users[j].email)
  }

  /** `findByEmail`: the user whose email is exactly the given one. */
  function FindByEmail(users: seq<UserData>, email: string): (r: Option<UserData>)
    ensures r.Some? ==> r.value in users && r.value.email == Some(email)
    ensures r.None? ==> forall i :: 0 <= i < |users| ==> users[i].email != Some(email)
  {
    if users == [] then None
    else if users[0].email == Some(email) then Some(users[0])
    else FindByEmail(users[1..], email)
  }

  /** `find($id)`. */
  function FindById(users: seq<UserData>, id: int): (r: Option<UserData>)
    ensures r.Some? ==> r.value in users && r.value.id == Some(id)
    ensures r.None? ==> forall i :: 0 <= i < |users| ==> users[i].id != Some(id)
  {
    if users == [] then None
    else if users[0].id == Some(id) then Some(users[0])
    else FindById(users[1..], id)
  }

  /** In a well-formed table two rows with the same id are the same row. */
  lemma SameIdSameRow(users: seq<UserData>, nextId: int, a: UserData, b: UserData)
    requires WellFormed(users, nextId) && a in users && b in users && a.id == b.id
    ensures a == b
  {
    var i :| 0 <= i < |users| && users[i] == a;
    var j :| 0 <= j < |users| && users[j] == b;
    assert i == j;
  }

  /** The row with the same id as `u` becomes `u`. */
  function ReplaceById(users: seq<UserData>, u: UserData): (r: seq<UserData>)
    ensures |r| == |users|
    ensures forall i :: 0 <= i < |users| && users[i].id != u.id ==> r[i] == users[i]
  {
    seq(|users|, i requires 0 <= i < |users| => if users[i].id == u.id then u else users[i])
  }

  function RemoveById(users: seq<UserData>, id: int): (r: seq<UserData>)
    ensures |r| <= |users|
    ensures forall i :: 0 <= i < |r| ==> r[i] in users && r[i].id != Some(id)
    ensures forall i :: 0 <= i < |users| && users[i].id != Some(id) ==> users[i] in r
  {
    if users == [] then []
    else (if users[0].id == Some(id) then [] else [users[0]]) + RemoveById(users[1..], id)
  }

  lemma {:induction false} RemoveKeepsWellFormed(users: seq<UserData>, nextId: int, id: int)
    requires WellFormed(users, nextId)
    ensures WellFormed(RemoveById(users, id), nextId)
  {
    if users != [] {
      assert WellFormed(users[1..], nextId);
      RemoveKeepsWellFormed(users[1..], nextId, id);
      var rest := RemoveById(users[1..], id);
      forall i | 0 <= i < |rest|
        ensures rest[i].id != users[0].id
        ensures users[0].email.Some? ==> rest[i].email != users[0].email
      {
        assert rest[i] in users[1..];
      }
    }
  }

  class UserTable {
    var users: seq<UserData>
    var nextId: int

    ghost predicate Valid()
      reads this
    {
      WellFormed(users, nextId)
    }

    constructor ()
      ensures Valid() && users == []
    {
      users, nextId := [], 1;
    }

    function Find(id: int): Option<UserData>
      reads this
    {
      FindById(users, id)
    }

    /** `persist` + `flush` of a user whose email is not taken. */
    method Insert(u: UserData) returns (stored: UserData)
      requires Valid() && (u.email.None? || FindByEmail(users, u.email.value).None?)
      modifies this
      ensures Valid()
      ensures stored == u.(id := Some(old(nextId)))
      ensures users == old(users) + [stored] && nextId == old(nextId) + 1
    {
      stored := u.(id := Some(nextId));
      users := users + [stored];
      nextId := nextId + 1;
    }

    /** `flush` of a changed stored user whose email no other user holds. */
    method Write(u: UserData)
      requires Valid() && u.id.Some? && Find(u.id.value).Some?
      requires forall i :: 0 <= i < |users| && users[i].id != u.id && users[i].email.Some? ==> users[i].email != u.email
      modifies this
      ensures Valid()
      ensures users == ReplaceById(old(users), u) && nextId == old(nextId)
    {
      users := ReplaceById(users, u);
      assert forall i :: 0 <= i < |users| ==> users[i].id == old(users)[i].id;
    }

    /** `remove` + `flush`. */
    method Delete(id: int)
      requires Valid()
      modifies this
      ensures Valid()
      ensures users == RemoveById(old(users), id) && nextId == old(nextId)
    {
      RemoveKeepsWellFormed(users, nextId, id);
      users := RemoveById(users, id);
    }
  }
}
