/** Profile lookup and partial update (the user service's UserService). */
module UserService {
  import opened Common
  import opened UserStore
  import AuthService

  datatype UserError = UserNotFound

  /** The update body: a field that is None was not sent and keeps its stored value. */
  datatype ProfileUpdate = ProfileUpdate(firstName: Option<string>, lastName: Option<string>)

  /** The user table afterwards and the response. */
  datatype UpdateOutcome = UpdateOutcome(users: Users, result: Result<Profile, UserError>)

  /** getProfile: the public profile of the user, or not-found. */
  function GetProfile(users: Users, id: UserId): (r: Result<Profile, UserError>)
    ensures r.Ok? <==> id in users
    ensures r.Err? ==> r.error == UserNotFound
    ensures r.Ok? ==> r.value == ProfileOf(users[id])
  {
    if id !in users then Err(UserNotFound) else Ok(ProfileOf(users[id]))
  }

  /** The stored record with the sent fields overwritten. */
  function Patch(u: User, p: ProfileUpdate): User
  {
    u.(firstName := if p.firstName.Some? then p.firstName.value else u.firstName,
       lastName := if p.lastName.Some? then p.lastName.value else u.lastName)
  }

  /** updateProfile: not-found with no change for a missing id; otherwise only that user's
      record changes, only in the fields sent, and the response is its public profile. */
  function UpdateProfile(users: Users, id: UserId, p: ProfileUpdate): (o: UpdateOutcome)
    ensures id !in users ==> o == UpdateOutcome(users, Err(UserNotFound))
    ensures id in users ==>
      && o.users.Keys == users.Keys
      && (forall other :: other in users && other != id ==> o.users[other] == users[other])
      && o.users[id].id == users[id].id
      && o.users[id].email == users[id].email
      && o.users[id].passwordHash == users[id].passwordHash
      && o.users[id].firstName == (if p.firstName.Some? then p.firstName.value else users[id].firstName)
      && o.users[id].lastName == (if p.lastName.Some? then p.lastName.value else users[id].lastName)
      && o.result == Ok(ProfileOf(o.users[id]))
  {
    if id !in users then UpdateOutcome(users, Err(UserNotFound))
    else
      var u := Patch(users[id], p);
      UpdateOutcome(users[id := u], Ok(ProfileOf(u)))
  }

  /** getProfile and the auth service's validateUser project the same row: they agree on every id,
      one reporting NotFound where the other finds nothing. */
  lemma GetProfileAgreesWithValidateUser(users: Users, id: UserId)
    requires Wf(users)
    ensures GetProfile(users, id).Ok? <==> AuthService.ValidateUser(users, id).Some?
    ensures GetProfile(users, id).Ok? ==> GetProfile(users, id).value == AuthService.ValidateUser(users, id).value
  {}

  /** Updating keeps the store's guarantees (ids in place, emails unique). */
  lemma UpdatePreservesWf(users: Users, id: UserId, p: ProfileUpdate)
    requires Wf(users)
    ensures Wf(UpdateProfile(users, id, p).users)
  {}

  /** Reading the profile after an update returns exactly what the update responded with. */
  lemma GetAfterUpdate(users: Users, id: UserId, p: ProfileUpdate)
    ensures GetProfile(UpdateProfile(users, id, p).users, id) == UpdateProfile(users, id, p).result
  {}

  /** Sending the same update twice has the effect of sending it once. */
  lemma UpdateIdempotent(users: Users, id: UserId, p: ProfileUpdate)
    ensures var o := UpdateProfile(users, id, p);
      UpdateProfile(o.users, id, p).users == o.users
  {}

  /** An empty update changes no record. */
  lemma EmptyUpdateChangesNothing(users: Users, id: UserId)
    ensures UpdateProfile(users, id, ProfileUpdate(None, None)).users == users
  {}
}
