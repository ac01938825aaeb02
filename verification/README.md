# Wallet ledger and user provisioning, modelled in Dafny

This project models the core of a two-service wallet system. The user service registers users
and, as a saga, asks the wallet service to create a wallet for each new user, deleting the user
again when that remote step fails. The wallet service keeps one balance per owner and an
append-only transaction log. Credits and debits are de-duplicated by a global idempotency key.

Every operation is a pure transition over an immutable store, returning the new store together
with a `Result` whose error variants are the exceptions the source throws.

- `Common` holds `Option` and `Result`, plus JavaScript truthiness of optional strings.
- `LedgerState` holds the wallet store: balances by owner, the log, and the key index.
  `Valid` is its invariant: balances are non-negative, each balance equals the net effect of
  that owner's log rows, ids are append positions, every logged owner has a wallet, and no
  idempotency key appears twice.
- `WalletService` models `createWallet` and `getBalance`.
- `TransactionService` models `createTransaction` and `getUserTransactions`.
- `TransactionDto` models the body rules of `CreateTransactionDto`.
- `TransactionController` models the routes: header-over-body key normalisation, the acting
  user taken from the principal, response mapping, and error-to-status mapping.
- `InternalJwt` models the internal token strategy, including its construction and `validate`,
  and the claims the user service's wallet client signs.
- `UserStore`, `AuthService` and `UserService` model the user table, `register`, `login`,
  `validateUser`, `getProfile` and `updateProfile`.
- `Provisioning` wires the saga's wallet step to the internal token check.
- `Scenarios` replays one sequence through the validated route: a new wallet at 0, a credit of 50, the same key again, a debit of 70, and a debit of 50. The cited e2e test backs only its duplicate-key step, with different amounts.

Representation choices:

- Amounts and balances are exact `real` decimals, so `Min(0.01)` becomes `amount >= 0.01`.
- Wallet owner ids are integers, as the wallet table and `CreateWalletDto` have them.
  `transaction.service.ts` types the same column as a string.
- User-service ids are strings.
- Transaction ids are append positions, so "newest first" is reverse append order.
- The remote wallet call is an input function `walletStep`.
- Password hashing and comparison are the input functions `hash` and `matches`.
- Token signing is not modelled; a token is its claims.

## Observations

- **The minted internal token is refused.** The user service signs internal tokens with the
  claims `{service: 'user-service'}`. The wallet service's internal strategy refuses any payload
  without a truthy `userId`. So, as the two services are wired, the saga's wallet step can never
  pass authentication, and every registration with a new email ends in compensation
  (`InternalJwt.WalletClientTokenRejected`, `Provisioning.RegistrationAsWiredAlwaysCompensates`).
  The user service's own registration test (user-service/test/user-e2e-spec.ts:44-64) expects
  status 201, which this wiring cannot produce. The model states the mismatch and does not change
  either side.
- **With the body rules enforced, the body key is checked before the header key is read.** Both
  e2e suites install a validation pipe. Under that pipe the body rules run before the controller
  copies the `Idempotency-Key` header. A request whose key arrives only in the header is then
  rejected, although the header takes precedence whenever both are sent
  (`TransactionController.HeaderOnlyKeyRejected`). Neither service's bootstrap installs that
  pipe (see Findings). Without it, a header-only key is accepted and recorded
  (`TransactionController.UnvalidatedHeaderOnlyKeyAccepted`).

## Model

| member | source | states |
|---|---|---|
| WalletService.CreateWallet | wallet-service/src/wallet/wallet.service.ts:13-29 | an owner that already has a wallet gets Conflict and the store is unchanged; a new positive owner gets a zero-balance wallet, every other wallet and the log are untouched |
| WalletService.GetBalance | wallet-service/src/wallet/wallet.service.ts:31-46 | succeeds exactly when the owner has a wallet, returning that owner and the stored balance; otherwise NotFound |
| WalletService.CreateWalletPreservesValid | wallet-service/src/wallet/wallet.service.ts:23-28 | inserting a zero-balance wallet keeps every ledger invariant (the new owner has no log rows) |
| WalletService.BalanceAfterCreateIsZero | wallet-service/src/wallet/wallet.service.ts:23-45 | right after a successful createWallet, getBalance returns that owner with balance 0 |
| WalletService.SecondCreateConflicts | wallet-service/src/wallet/wallet.service.ts:14-21 | a second createWallet for the same owner is always Conflict with no change |
| TransactionService.CreateTransaction | wallet-service/src/transaction/transaction.service.ts:16-71 | fails exactly when one of the ordered checks rejects (reused key, missing wallet, debit above balance, key index clash), and then leaves the store unchanged; on success appends exactly one record with the given user, amount, type and key, records the key, and moves only that owner's balance by the signed amount |
| TransactionService.DuplicateKeyWins | wallet-service/src/transaction/transaction.service.ts:17-37 | a truthy key carried by any logged transaction of any user yields Conflict with no change, even when the user has no wallet |
| TransactionService.MissingWalletNotFound | wallet-service/src/transaction/transaction.service.ts:31-37 | without a wallet and without a reused key the result is NotFound and nothing changes |
| TransactionService.DebitGuard | wallet-service/src/transaction/transaction.service.ts:40-50 | for every store and every key that is not already used, absent or empty included, a debit above the balance is InsufficientFunds with no change, and a debit of exactly the balance succeeds and leaves 0 |
| TransactionService.BalanceMovesByAmount | wallet-service/src/transaction/transaction.service.ts:46-57 | on success a credit adds exactly the amount, a debit subtracts exactly the amount, and every other wallet keeps its balance |
| TransactionService.CreateTransactionPreservesValid | wallet-service/src/transaction/transaction.service.ts:40-69 | given amount > 0, every wallet stays non-negative and equal to its log's net effect, and no key appears twice in the log |
| TransactionService.KeyNeverReused | wallet-service/src/transaction/transaction.service.ts:17-69 | after a key has been committed, the next request carrying it, for any user, fails |
| TransactionService.UsedKeyAlwaysRejected | wallet-service/src/transaction/transaction.service.ts:17-69 | any request whose key is already in the index fails, for any user: a truthy key at the pre-check, the empty key at the store's unique index |
| TransactionService.UsedKeysOnlyGrow | wallet-service/src/transaction/transaction.service.ts:59-67 | a transaction never removes a key from the index, so with UsedKeyAlwaysRejected a committed key is refused by every later request |
| WalletService.CreateWalletKeepsUsedKeys | wallet-service/src/wallet/wallet.service.ts:23-28 | creating a wallet leaves the key index unchanged |
| TransactionService.GetUserTransactions | wallet-service/src/transaction/transaction.service.ts:73-78 | returns the owner's rows of the log read backwards, each one a log row of that owner, and changes nothing |
| TransactionService.NewestFirstMembers | wallet-service/src/transaction/transaction.service.ts:74-75 | the history contains a transaction exactly when the log holds it with that owner |
| TransactionService.NewestFirstOrdered | wallet-service/src/transaction/transaction.service.ts:76 | when ids are append positions, the history lists ids strictly decreasing (newest first) |
| TransactionService.HistoryEmptyIff | wallet-service/src/transaction/transaction.service.ts:73-78 | the history is empty exactly when the owner has no transactions, which is not an error |
| LedgerState.NetAppend | wallet-service/src/transaction/transaction.service.ts:46-67 | appending a record changes an owner's net by its signed amount if it is theirs, and by nothing otherwise |
| TransactionDto.ParseTxType | wallet-service/src/transaction/dto/create-transaction.dto.ts:10-12 | only "CREDIT" and "DEBIT" are accepted, and each parses back to its own name |
| TransactionDto.Validate | wallet-service/src/transaction/dto/create-transaction.dto.ts:5-16 | a body is accepted exactly when amount is a number of at least 0.01, type is CREDIT or DEBIT and the key is a non-empty string; an accepted amount is strictly positive; a rejected body carries the first rule it breaks, in the order amount, type, key |
| TransactionDto.ValidateToBody | wallet-service/src/transaction/dto/create-transaction.dto.ts:5-16 | a DTO with amount of at least 0.01 and a non-empty key survives validation of its own body unchanged, and no other DTO does |
| TransactionDto.NonPositiveAmountRejected | wallet-service/src/transaction/dto/create-transaction.dto.ts:5-8 | zero, negative and sub-cent amounts are rejected |
| TransactionDto.MissingKeyRejected | wallet-service/src/transaction/dto/create-transaction.dto.ts:14-16 | a missing or empty idempotency key is rejected |
| TransactionController.Status | wallet-service/src/transaction/transaction.service.ts:23-44 | duplicate key is 409 (and so is the existing wallet thrown at wallet-service/src/wallet/wallet.service.ts:19-21), missing wallet is 404, validation and insufficient funds are 400, and the store's own refusals (key index clash, unknown type) are 500 |
| TransactionController.NormaliseKey | wallet-service/src/transaction/transaction.controller.ts:27-29 | a truthy header replaces the key, anything else leaves the DTO as is; amount and type are never touched |
| TransactionController.NormaliseKeyIdempotent | wallet-service/src/transaction/transaction.controller.ts:27-29 | normalising twice with the same header equals normalising once |
| TransactionController.HeaderOverridesBodyKey | wallet-service/src/transaction/transaction.controller.ts:27-29 | when the body carries a non-empty key of its own, a truthy header behaves exactly like that body with the header's value as key |
| TransactionController.FalsyHeaderKeepsBodyKey | wallet-service/src/transaction/transaction.controller.ts:27-29 | an empty header and an absent header give the same outcome |
| TransactionController.HeaderOnlyKeyRejected | wallet-service/src/transaction/transaction.controller.ts:20-29 | a body without a key is rejected with no change even when a header key is sent |
| TransactionController.HandleCreate | wallet-service/src/transaction/transaction.controller.ts:20-43 | an invalid body gives a validation error and no change; a valid body succeeds exactly when the service accepts the principal's request with the normalised key, and otherwise fails with the service's own rejection; on success the store is the service's post-state and the response is the view of the one appended record, with the principal's user id, the body's amount and type, and the effective key |
| TransactionController.ActsOnPrincipalOnly | wallet-service/src/transaction/transaction.controller.ts:25-34 | no wallet other than the principal's ever changes, and no wallet is added or removed |
| TransactionController.HandleCreatePreservesValid | wallet-service/src/transaction/transaction.controller.ts:20-34 | with the body rules enforced, every request keeps all ledger invariants, including balance >= 0 |
| TransactionController.HandleCreateUnvalidated | wallet-service/src/main.ts:4-10 | the route as deployed without body rules. A known type reaches the service unchecked: any amount, and an absent key skips the duplicate check. It succeeds exactly when the service accepts it and otherwise fails with the service's rejection. Any other type fails after the duplicate-key and wallet checks, because the store refuses the insert. Every error leaves the store unchanged |
| TransactionController.UnvalidatedCreditOverdraws | wallet-service/src/main.ts:4-10 | without body rules a credit of -50 on a zero balance succeeds and leaves -50, breaking the invariant |
| TransactionController.UnvalidatedKeylessRetryAppliesTwice | wallet-service/src/transaction/transaction.service.ts:18-26 | without body rules a keyless credit of 10 sent twice succeeds twice and leaves 20 |
| TransactionController.UnvalidatedHeaderOnlyKeyAccepted | wallet-service/src/transaction/transaction.controller.ts:27-29 | without body rules a body with no key and a fresh truthy header key succeeds and records the header's key |
| TransactionController.ToViews | wallet-service/src/transaction/transaction.controller.ts:51-57 | the list response has the rows' length and order, each element the view of the row at the same position |
| TransactionController.HandleList | wallet-service/src/transaction/transaction.controller.ts:45-58 | the list route returns the principal's history mapped element-wise, every element carrying the principal's user id |
| InternalJwt.NewStrategy | wallet-service/src/auth/strategies/internal-jwt.strategy.ts:11-18 | construction succeeds exactly when the internal secret is present and non-empty, and keeps that secret |
| InternalJwt.NewStrategyKeepsSecret | wallet-service/src/auth/strategies/internal-jwt.strategy.ts:12-18 | a strategy rebuilt from its own secret is the same strategy, and construction fails only for a missing or empty secret |
| InternalJwt.Validate | wallet-service/src/auth/strategies/internal-jwt.strategy.ts:27-33 | accepts exactly the payloads with a truthy userId claim and yields a principal carrying only that claim |
| InternalJwt.ValidateDependsOnlyOnUserId | wallet-service/src/auth/strategies/internal-jwt.strategy.ts:32 | two payloads that agree on userId validate identically, whatever their other claims |
| InternalJwt.FalsyUserIdRejected | wallet-service/src/auth/strategies/internal-jwt.strategy.ts:28-30 | null, false, 0 and "" as userId are rejected like a missing one |
| InternalJwt.WalletClientTokenRejected | user-service/src/wallet-client/wallet-client.service.ts:32-37 | the payload the user service signs is rejected by validate, and so is any extension of it without userId |
| UserStore.FindByEmail | user-service/src/auth/auth.service.ts:83-85 | finds a row exactly when the email is taken, returning the stored row with that email |
| AuthService.Register | user-service/src/auth/auth.service.ts:21-77 | a taken email is Conflict with no user created and no wallet request; otherwise one wallet request for the new id; on wallet failure the table equals its pre-state; on success exactly the new user is added with the given email, hashed password and names, and the response holds claims {sub, email} and the echoed profile |
| AuthService.RegisterAllOrNothing | user-service/src/auth/auth.service.ts:46-60 | after register either the user table is its pre-state and the result is an error, or the new user exists, its wallet step succeeded, and nothing else changed |
| AuthService.Login | user-service/src/auth/auth.service.ts:79-113 | succeeds exactly when a user with that email has a matching password, returning that user's claims {sub, email} and profile; every failure is the same InvalidCredentials |
| AuthService.LoginAfterRegister | user-service/src/auth/auth.service.ts:99-112 | logging in right after a successful register returns the same claims and profile register returned |
| AuthService.LoginFailuresIndistinguishable | user-service/src/auth/auth.service.ts:87-96 | an unknown email and a wrong password give the identical error |
| AuthService.ValidateUser | user-service/src/auth/auth.service.ts:115-127 | returns a profile exactly when the id exists, the public projection of that user |
| AuthService.RegisteredTokenResolves | user-service/src/auth/auth.service.ts:63-76 | the subject of the token register issues resolves through validateUser to exactly the profile register returned |
| Provisioning.RegistrationAsWiredAlwaysCompensates | user-service/src/auth/auth.service.ts:46-60 | with the wallet step refused by the internal token check, registering a new email asks for one wallet, fails, and leaves the user table unchanged |
| UserService.GetProfile | user-service/src/user/user.service.ts:9-27 | returns the public profile exactly when the id exists, otherwise NotFound |
| UserService.UpdateProfile | user-service/src/user/user.service.ts:29-50 | a missing id is NotFound with no change; otherwise only that user's record changes, only in the fields sent, the email and password hash are kept, and the response is the updated public profile |
| UserService.GetProfileAgreesWithValidateUser | user-service/src/user/user.service.ts:9-27 | getProfile and validateUser agree on every id: both find the user or neither does, with the same public profile |
| UserService.UpdatePreservesWf | user-service/src/user/user.service.ts:38-40 | updates keep ids in place and emails unique |
| UserService.GetAfterUpdate | user-service/src/user/user.service.ts:38-49 | reading the profile after an update returns what the update responded with |
| UserService.UpdateIdempotent | user-service/src/user/user.service.ts:38-40 | sending the same update twice has the effect of sending it once |
| UserService.EmptyUpdateChangesNothing | user-service/src/user/user.service.ts:38-40 | an update with no fields leaves the table unchanged |
| Scenarios.AliceScenario | wallet-service/test/wallet-e2e-spec.ts:244-275 | a new wallet at 0, then a credit of 50 with k1 (50), the same key again (409, still 50), a debit of 70 (insufficient, still 50) and a debit of 50 (0); the cited test backs the duplicate-key step only |

## Findings

| source | as written | input that shows it | evidently intended | confidence | as-written member | corrected member |
|---|---|---|---|---|---|---|
| wallet-service/src/main.ts:4-10 | the bootstrap installs no validation pipe, so the `CreateTransactionDto` rules never run in the deployed service (the e2e suite installs one itself) | wallet of owner 1 at 0, body `{amount: -50, type: CREDIT, idempotencyKey: "k"}`: accepted, balance becomes -50 | bodies validated before the controller, as in the e2e setup, so amounts are always >= 0.01 | medium (a pipe registered in a module that is not part of this model would close it); not executed | TransactionController.HandleCreateUnvalidated, TransactionController.UnvalidatedCreditOverdraws, TransactionController.UnvalidatedKeylessRetryAppliesTwice | TransactionController.HandleCreate, TransactionController.HandleCreatePreservesValid |

## Left out

- Persistence: the Prisma client, `$transaction` isolation, and the check-then-write race on the idempotency key. Each call is one atomic step. The store's unique index on the key is kept as the `KeyConstraintViolation` rollback.
- Timestamps (`created_at`, `updated_at`, `createdAt`). Ordering uses append position instead.
- `Number(...)` conversion of decimal balances. Exact reals are used instead.
- JWT signing, verification and expiry. Bcrypt hashing and comparison. These are abstract inputs.
- The external token strategy, which puts `{userId}` on the request. The principal is an input.
- The HTTP call of the wallet client. Its outcome is the `walletStep` input.
- `console.error` logging in the saga.
- A failing compensating delete. In the source its error simply propagates.
- AuthService.Register: the fresh user id is a precondition (`freshId !in users`) standing for the store's id generator.
- `RegisterDto` and `LoginDto` validation. Those DTO files are not part of this model.
- `update-user.dto.ts` is not part of this model. `ProfileUpdate` assumes it carries optional first and last names only.
- The user service sends a string user id where `CreateWalletDto` requires a positive integer. This is left out because the user table's id type is not part of this model.
- Bootstrap and module wiring, apart from the finding above.
- WalletService.CreateWallet: `requires owner > 0` is the `CreateWalletDto` rule. It holds only under a validation pipe, which the wallet service's bootstrap does not install (wallet-service/src/main.ts:4-10).
- UserService.UpdateProfile: keeping the email and password hash assumes the update body is limited to the names by a validation pipe. The user service's bootstrap installs none (user-service/src/main.ts:4-10), and without one `data: updateUserDto` would write any field sent.
- TransactionController.HandleCreateUnvalidated: amounts that are not numbers, types that are not strings, and keys that are not strings (which the store's lookup at wallet-service/src/transaction/transaction.service.ts:19-21 would refuse) are not represented.
- Request bodies with extra properties are not represented. The pipe the e2e suites configure (`forbidNonWhitelisted`) answers them with 400.
- `UserController` and `WalletController` routing.
- The response DTO classes, which are shapes only.
