/** The wallet service's internal token strategy, and the payload the user service signs for it. */
module InternalJwt {
  import opened Common

  /** A JSON claim value of an already-verified token payload. Objects and arrays are
      `Composite`; JSON carries no NaN. */
  datatype Claim = Null | Bool(b: bool) | Num(n: real) | Str(s: string) | Composite

  /** A verified payload; a claim missing from the map is `undefined`. */
  type Payload = map<string, Claim>

  /** JavaScript truthiness of a claim: false, 0, "" and null are falsy. */
  predicate Truthy(c: Claim)
  {
    match c
    case Null => false
    case Bool(b) => b
    case Num(n) => n != 0.0
    case Str(s) => s != ""
    case Composite => true
  }

  /** What validate puts on the request: the `userId` claim and nothing else. */
  datatype InternalPrincipal = InternalPrincipal(userId: Claim)

  datatype AuthError = Unauthorized

  datatype ConfigError = MissingInternalKey

  /** A constructed strategy holds the internal signing secret. */
  datatype Strategy = Strategy(secret: string)

  /** Construction fails when the internal secret is absent or empty. */
  function NewStrategy(secret: Option<string>): (r: Result<Strategy, ConfigError>)
    ensures r.Ok? <==> IsTruthy(secret)
    ensures r.Ok? ==> r.value.secret == secret.value
  {
    if !IsTruthy(secret) then Err(MissingInternalKey) else Ok(Strategy(secret.value))
  }

  /** validate: a payload whose `userId` claim is missing or falsy is unauthorized; any other
      payload yields the principal carrying just that claim. */
  function Validate(p: Payload): (r: Result<InternalPrincipal, AuthError>)
    ensures r.Ok? <==> "userId" in p && Truthy(p["userId"])
    ensures r.Ok? ==> r.value == InternalPrincipal(p["userId"])
  {
    if "userId" !in p || !Truthy(p["userId"]) then Err(Unauthorized)
    else Ok(InternalPrincipal(p["userId"]))
  }

  /** The claims the user service's wallet client signs into every internal token. */
  function WalletClientPayload(): Payload
  {
    map["service" := Str("user-service")]
  }

  /** A constructed strategy is rebuilt from its own secret unchanged, and construction fails
      only for a missing or empty secret. */
  lemma NewStrategyKeepsSecret(secret: Option<string>)
    ensures NewStrategy(secret).Ok? ==> NewStrategy(Some(NewStrategy(secret).value.secret)) == NewStrategy(secret)
    ensures NewStrategy(secret).Err? ==> secret == None || secret == Some("")
  {}

  /** Claims other than `userId` never influence validate. */
  lemma ValidateDependsOnlyOnUserId(p: Payload, q: Payload)
    requires ("userId" in p) == ("userId" in q)
    requires "userId" in p ==> p["userId"] == q["userId"]
    ensures Validate(p) == Validate(q)
  {}

  /** Falsy user ids are refused like a missing one. */
  lemma FalsyUserIdRejected(p: Payload)
    requires "userId" in p
    requires p["userId"] in {Null, Bool(false), Num(0.0), Str("")}
    ensures Validate(p) == Err(Unauthorized)
  {}

  /** The token the user service mints carries no `userId`, so the wallet service refuses it:
      no internal wallet-creation call from the user service can pass this check. */
  lemma WalletClientTokenRejected()
    ensures Validate(WalletClientPayload()) == Err(Unauthorized)
    ensures forall extra: Payload :: "userId" !in extra ==> Validate(WalletClientPayload() + extra).Err?
  {}
}
