/** Registration (the provisioning saga), login and user validation of the user service. */
module AuthService {
  import opened Common
  import opened UserStore

  /** The registration body: email, plain password and display names. */
  datatype RegisterInput = RegisterInput(email: string, password: string, firstName: string, lastName: string)

  /** The claims of a session token; signing is not modelled. */
  datatype SessionClaims = SessionClaims(sub: UserId, email: string)

  /** The response of register and login: the session token and the public profile. */
  datatype AuthResponse = AuthResponse(accessToken: SessionClaims, user: Profile)

  datatype AuthError = UserExists | WalletCreationFailed | InvalidCredentials

  /** The saga's effect: the user table afterwards, the ids the remote wallet step was asked
      to provision (in order), and the response. */
  datatype RegisterOutcome = RegisterOutcome(users: Users, walletRequests: seq<UserId>, result: Result<AuthResponse, AuthError>)

  /** The session issued to a stored user. */
  function SessionFor(u: User): AuthResponse
  {
    AuthResponse(SessionClaims(u.id, u.email), ProfileOf(u))
  }

  /** register: refuse a taken email; create the user; ask the wallet service for a wallet
      (`walletStep` is that remote call's outcome); on failure delete the new user again.
      `hash` is the password hasher; `freshId` is the id the store assigns. */
  function Register(users: Users, input: RegisterInput, hash: string -> string, freshId: UserId, walletStep: UserId -> bool): (o: RegisterOutcome)
    requires Wf(users)
    requires freshId !in users
    ensures EmailTaken(users, input.email) ==> o == RegisterOutcome(users, [], Err(UserExists))
    ensures !EmailTaken(users, input.email) ==> o.walletRequests == [freshId]
    ensures o.result.Err? ==> o.users == users
    ensures o.result.Err? ==> (o.result.error == UserExists <==> EmailTaken(users, input.email))
    ensures o.result.Ok? <==> !EmailTaken(users, input.email) && walletStep(freshId)
    ensures o.result.Ok? ==>
      && o.users.Keys == users.Keys + {freshId}
      && (forall id :: id in users ==> o.users[id] == users[id])
      && o.users[freshId] == User(freshId, input.email, hash(input.password), input.firstName, input.lastName)
      && o.result.value == SessionFor(o.users[freshId])
    ensures Wf(o.users)
  {
    if EmailTaken(users, input.email) then RegisterOutcome(users, [], Err(UserExists))
    else
      var user := User(freshId, input.email, hash(input.password), input.firstName, input.lastName);
      var created := users[freshId := user];
      if walletStep(freshId) then RegisterOutcome(created, [freshId], Ok(SessionFor(user)))
      else
        // compensation: delete the user created above
        assert created - {freshId} == users;
        RegisterOutcome(created - {freshId}, [freshId], Err(WalletCreationFailed))
  }

  /** login: unknown email and wrong password fail with the same error; otherwise the stored
      user's session. `matches` is the password comparison. */
  function Login(users: Users, email: string, password: string, matches: (string, string) -> bool): (r: Result<AuthResponse, AuthError>)
    requires Wf(users)
    ensures r.Err? ==> r.error == InvalidCredentials
    ensures r.Ok? <==> exists id :: id in users && users[id].email == email && matches(password, users[id].passwordHash)
    ensures r.Ok? ==>
      && r.value.user.id in users
      && r.value == SessionFor(users[r.value.user.id])
      && r.value.accessToken.email == email
  {
    match FindByEmail(users, email)
    case None => Err(InvalidCredentials)
    case Some(u) => if matches(password, u.passwordHash) then Ok(SessionFor(u)) else Err(InvalidCredentials)
  }

  /** validateUser: the public profile of the user with that id, if any. */
  function ValidateUser(users: Users, id: UserId): (r: Option<Profile>)
    requires Wf(users)
    ensures r.Some? <==> id in users
    ensures r.Some? ==> r.value.id == id && r.value == ProfileOf(users[id])
  {
    if id in users then Some(ProfileOf(users[id])) else None
  }

  /** The saga is all-or-nothing on the user table: either the new user exists and the wallet
      step succeeded, or the table is exactly its pre-state. */
  lemma RegisterAllOrNothing(users: Users, input: RegisterInput, hash: string -> string, freshId: UserId, walletStep: UserId -> bool)
    requires Wf(users) && freshId !in users
    ensures var o := Register(users, input, hash, freshId, walletStep);
      || (o.users == users && o.result.Err?)
      || (freshId in o.users && walletStep(freshId) && o.users - {freshId} == users)
  {}

  /** Logging in right after registering, with the password the hasher accepts, returns the
      very claims and profile registration returned. */
  lemma LoginAfterRegister(users: Users, input: RegisterInput, hash: string -> string, freshId: UserId, walletStep: UserId -> bool, matches: (string, string) -> bool)
    requires Wf(users) && freshId !in users
    requires Register(users, input, hash, freshId, walletStep).result.Ok?
    requires matches(input.password, hash(input.password))
    ensures var o := Register(users, input, hash, freshId, walletStep);
      Login(o.users, input.email, input.password, matches) == o.result
  {}

  /** The subject of the token register issues resolves, through validateUser, to exactly the
      profile register returned. */
  lemma RegisteredTokenResolves(users: Users, input: RegisterInput, hash: string -> string, freshId: UserId, walletStep: UserId -> bool)
    requires Wf(users) && freshId !in users
    requires Register(users, input, hash, freshId, walletStep).result.Ok?
    ensures var o := Register(users, input, hash, freshId, walletStep);
      ValidateUser(o.users, o.result.value.accessToken.sub) == Some(o.result.value.user)
  {}

  /** An unknown email and a wrong password are indistinguishable to the caller. */
  lemma LoginFailuresIndistinguishable(users: Users, email: string, password: string, matches: (string, string) -> bool)
    requires Wf(users)
    requires !EmailTaken(users, email) || (exists id :: id in users && users[id].email == email && !matches(password, users[id].passwordHash))
    ensures Login(users, email, password, matches) == Err(InvalidCredentials)
  {}
}
