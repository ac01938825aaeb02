/** The two services wired together: the saga's wallet step goes through the wallet service's
    internal token check with the payload the user service signs. */
module Provisioning {
  import opened Common
  import opened UserStore
  import AuthService
  import InternalJwt

  /** The outcome of the remote wallet step when its token carries the wallet client's claims:
      the internal strategy must accept the token before any wallet is created. */
  function WalletStepAsWired(id: UserId): bool
  {
    InternalJwt.Validate(InternalJwt.WalletClientPayload()).Ok?
  }

  /** As the services are wired, every registration with a fresh email ends in compensation:
      the wallet step is refused, the new user is deleted, and the user table is unchanged. */
  lemma RegistrationAsWiredAlwaysCompensates(users: Users, input: AuthService.RegisterInput, hash: string -> string, freshId: UserId)
    requires Wf(users) && freshId !in users
    requires !EmailTaken(users, input.email)
    ensures var o := AuthService.Register(users, input, hash, freshId, WalletStepAsWired);
      o == AuthService.RegisterOutcome(users, [freshId], Err(AuthService.WalletCreationFailed))
  {}
}
