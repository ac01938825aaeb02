/** The user service's user table and the profile projection both of its services return. */
module UserStore {
  import opened Common

  /** The user table's primary key. */
  type UserId = string

  /** One row of the user table; `passwordHash` is what the password hasher produced. */
  datatype User = User(id: UserId, email: string, passwordHash: string, firstName: string, lastName: string)

  type Users = map<UserId, User>

  /** The public fields of a user: everything but the password hash (timestamps are not modelled). */
  datatype Profile = Profile(id: UserId, email: string, firstName: string, lastName: string)

  /** The store's guarantees: every row sits under its own id, and emails are unique. */
  predicate Wf(users: Users)
  {
    && (forall id :: id in users ==> users[id].id == id)
    && (forall a, b :: a in users && b in users && users[a].email == users[b].email ==> a == b)
  }

  function ProfileOf(u: User): Profile
  {
    Profile(u.id, u.email, u.firstName, u.lastName)
  }

  predicate EmailTaken(users: Users, email: string)
  {
    exists id :: id in users && users[id].email == email
  }

  /** findUnique by email: the one row carrying that email, if any. */
  function FindByEmail(users: Users, email: string): (r: Option<User>)
    requires Wf(users)
    ensures r.None? <==> !EmailTaken(users, email)
    ensures r.Some? ==> r.value.id in users && users[r.value.id] == r.value && r.value.email == email
  {
    if EmailTaken(users, email) then
      var id :| id in users && users[id].email == email;
      Some(users[id])
    else None
  }
}
