/** Balance-changing transactions and the per-user history (the wallet service's TransactionService). */
module TransactionService {
  import opened Common
  import opened LedgerState

  /** What the service reads from the transaction DTO. The key is optional here: the service
      itself only checks it when it is truthy. */
  datatype TransactionRequest = TransactionRequest(amount: real, kind: TxType, key: Option<string>)

  /** The record createTransaction would append for `req`. */
  function RecordFor(l: Ledger, userId: OwnerId, req: TransactionRequest): Transaction
  {
    Transaction(|l.log|, userId, req.amount, req.kind, req.key)
  }

  /** The checks of createTransaction in their order: a truthy key already in use, then a
      missing wallet, then a debit above the balance, then the store's unique index on the key
      at insert time (reachable only with an empty key, which the pre-check skips). */
  function Rejection(l: Ledger, userId: OwnerId, req: TransactionRequest): Option<LedgerError>
  {
    if IsTruthy(req.key) && req.key.value in l.usedKeys then Some(DuplicateKey)
    else if userId !in l.wallets then Some(WalletNotFound)
    else if req.kind == Debit && l.wallets[userId] < req.amount then Some(InsufficientFunds)
    else if req.key.Some? && req.key.value in l.usedKeys then Some(KeyConstraintViolation)
    else None
  }

  /** createTransaction: one atomic step. On success the balance moves by the signed amount
      and exactly one record is appended; any error leaves the store as it was. */
  function CreateTransaction(l: Ledger, userId: OwnerId, req: TransactionRequest): (s: Step<Transaction>)
    ensures s.result.Err? ==> s.ledger == l
    ensures s.result.Err? <==> Rejection(l, userId, req).Some?
    ensures s.result.Err? ==> s.result.error == Rejection(l, userId, req).value
    ensures s.result.Ok? ==>
      var t := s.result.value;
      && t == RecordFor(l, userId, req)
      && userId in l.wallets
      && s.ledger.log == l.log + [t]
      && s.ledger.usedKeys == l.usedKeys + KeySet(req.key)
      && s.ledger.wallets == l.wallets[userId := l.wallets[userId] + Signed(t)]
  {
    match Rejection(l, userId, req)
    case Some(e) => Step(l, Err(e))
    case None =>
      var t := RecordFor(l, userId, req);
      Step(Ledger(l.wallets[userId := l.wallets[userId] + Signed(t)], l.log + [t], l.usedKeys + KeySet(req.key)), Ok(t))
  }

  /** A reused truthy key is a conflict before anything else is looked at: even an owner
      without a wallet gets Conflict, not NotFound, and nothing changes. */
  lemma DuplicateKeyWins(l: Ledger, userId: OwnerId, req: TransactionRequest)
    requires Valid(l)
    requires IsTruthy(req.key)
    requires exists i :: 0 <= i < |l.log| && l.log[i].key == req.key
    ensures CreateTransaction(l, userId, req) == Step(l, Err(DuplicateKey))
  {}

  /** Without a wallet and without a reused key the result is NotFound and nothing changes. */
  lemma MissingWalletNotFound(l: Ledger, userId: OwnerId, req: TransactionRequest)
    requires userId !in l.wallets
    requires !(IsTruthy(req.key) && req.key.value in l.usedKeys)
    ensures CreateTransaction(l, userId, req) == Step(l, Err(WalletNotFound))
  {}

  /** A debit above the balance is refused and changes nothing; a debit of exactly the
      balance succeeds and leaves zero. */
  lemma DebitGuard(l: Ledger, userId: OwnerId, amount: real, key: Option<string>)
    requires userId in l.wallets
    requires !(key.Some? && key.value in l.usedKeys)
    ensures amount > l.wallets[userId] ==>
      CreateTransaction(l, userId, TransactionRequest(amount, Debit, key)) == Step(l, Err(InsufficientFunds))
    ensures amount == l.wallets[userId] ==>
      var s := CreateTransaction(l, userId, TransactionRequest(amount, Debit, key));
      s.result.Ok? && s.ledger.wallets[userId] == 0.0
  {}

  /** On success a credit raises the owner's balance by exactly the amount, a debit lowers it
      by exactly the amount, and every other wallet keeps its balance. */
  lemma BalanceMovesByAmount(l: Ledger, userId: OwnerId, req: TransactionRequest)
    requires CreateTransaction(l, userId, req).result.Ok?
    ensures var w := CreateTransaction(l, userId, req).ledger.wallets;
      && w.Keys == l.wallets.Keys
      && (req.kind == Credit ==> w[userId] == l.wallets[userId] + req.amount)
      && (req.kind == Debit ==> w[userId] == l.wallets[userId] - req.amount)
      && (forall u :: u in l.wallets && u != userId ==> w[u] == l.wallets[u])
  {}

  /** With a positive amount (which the DTO guarantees), createTransaction keeps every store
      invariant: balances stay non-negative and equal to the log's net effect, and no
      idempotency key appears twice. */
  lemma CreateTransactionPreservesValid(l: Ledger, userId: OwnerId, req: TransactionRequest)
    requires Valid(l)
    requires req.amount > 0.0
    ensures Valid(CreateTransaction(l, userId, req).ledger)
  {
    var s := CreateTransaction(l, userId, req);
    if s.result.Ok? {
      var t := s.result.value;
      var l' := s.ledger;
      forall u | u in l'.wallets
        ensures l'.wallets[u] == Net(l'.log, u)
      {
        NetAppend(l.log, t, u);
      }
      KeysOfAppend(l.log, t);
      forall i, j | 0 <= i < j < |l'.log| && l'.log[i].key.Some?
        ensures l'.log[j].key != l'.log[i].key
      {
        if j == |l.log| {
          assert l'.log[i] == l.log[i];
          assert l.log[i].key.value in KeysOf(l.log);
        }
      }
    }
  }

  /** A key, once committed, makes the next request carrying it fail, for any user. Every later
      request follows from UsedKeysOnlyGrow, CreateWalletKeepsUsedKeys and UsedKeyAlwaysRejected. */
  lemma KeyNeverReused(l: Ledger, userId: OwnerId, req: TransactionRequest, userId2: OwnerId, req2: TransactionRequest)
    requires CreateTransaction(l, userId, req).result.Ok?
    requires req.key.Some? && req2.key == req.key
    ensures CreateTransaction(CreateTransaction(l, userId, req).ledger, userId2, req2).result.Err?
  {}

  /** A key already in the index is refused for every user and every later request, not only
      the next one: truthy keys by the pre-check, the empty key by the index itself. */
  lemma UsedKeyAlwaysRejected(l: Ledger, userId: OwnerId, req: TransactionRequest)
    requires req.key.Some? && req.key.value in l.usedKeys
    ensures CreateTransaction(l, userId, req).result.Err?
  {}

  /** No operation ever removes a key from the index, so once used a key stays refused. */
  lemma UsedKeysOnlyGrow(l: Ledger, userId: OwnerId, req: TransactionRequest)
    ensures l.usedKeys <= CreateTransaction(l, userId, req).ledger.usedKeys
  {}

  /** One owner's transactions, newest first: the log read backwards, keeping only `u`'s rows. */
  function NewestFirst(log: seq<Transaction>, u: OwnerId): seq<Transaction>
  {
    if |log| == 0 then []
    else (if log[|log| - 1].userId == u then [log[|log| - 1]] else []) + NewestFirst(log[..|log| - 1], u)
  }

  /** getUserTransactions: filter by owner, newest first. Read-only; an empty result is valid. */
  method GetUserTransactions(l: Ledger, u: OwnerId) returns (r: seq<Transaction>)
    ensures r == NewestFirst(l.log, u)
    ensures forall t :: t in r ==> t in l.log && t.userId == u
  {
    r := [];
    var i := |l.log|;
    assert l.log[..i] == l.log;
    while i > 0
      invariant 0 <= i <= |l.log|
      invariant r + NewestFirst(l.log[..i], u) == NewestFirst(l.log, u)
      invariant forall t :: t in r ==> t in l.log && t.userId == u
    {
      assert l.log[..i][..i - 1] == l.log[..i - 1];
      if l.log[i - 1].userId == u {
        r := r + [l.log[i - 1]];
      }
      i := i - 1;
    }
    assert l.log[..0] == [];
  }

  /** The history holds exactly the owner's rows of the log. */
  lemma {:induction false} NewestFirstMembers(log: seq<Transaction>, u: OwnerId)
    ensures forall t :: t in NewestFirst(log, u) <==> t in log && t.userId == u
  {
    if |log| > 0 {
      NewestFirstMembers(log[..|log| - 1], u);
      assert log == log[..|log| - 1] + [log[|log| - 1]];
    }
  }

  /** Each row is newer (has a larger id) than every row after it. */
  predicate IdsDecreasing(h: seq<Transaction>)
  {
    forall i, j :: 0 <= i < j < |h| ==> h[i].id > h[j].id
  }

  /** When ids are append positions, the history lists ids strictly decreasing: newest first. */
  lemma {:induction false} NewestFirstOrdered(log: seq<Transaction>, u: OwnerId)
    requires forall i :: 0 <= i < |log| ==> log[i].id == i
    ensures IdsDecreasing(NewestFirst(log, u))
  {
    if |log| > 0 {
      var prefix := log[..|log| - 1];
      NewestFirstOrdered(prefix, u);
      NewestFirstMembers(prefix, u);
      var rest := NewestFirst(prefix, u);
      forall k | 0 <= k < |rest|
        ensures rest[k].id < |prefix|
      {
        assert rest[k] in prefix;
      }
      var last := log[|log| - 1];
      var pick := if last.userId == u then [last] else [];
      var h := NewestFirst(log, u);
      assert h == pick + rest;
      forall i, j | 0 <= i < j < |h|
        ensures h[i].id > h[j].id
      {
        if i < |pick| {
          assert h[i] == last && last.id == |prefix|;
          assert h[j] == rest[j - |pick|];
          assert rest[j - |pick|].id < |prefix|;
        } else {
          assert h[i] == rest[i - |pick|] && h[j] == rest[j - |pick|];
        }
      }
    }
  }

  /** An owner's history is empty exactly when the owner has no transactions; an empty history
      is a valid result, not an error. */
  lemma HistoryEmptyIff(l: Ledger, u: OwnerId)
    ensures NewestFirst(l.log, u) == [] <==> forall i :: 0 <= i < |l.log| ==> l.log[i].userId != u
  {
    NewestFirstMembers(l.log, u);
    if NewestFirst(l.log, u) != [] {
      assert NewestFirst(l.log, u)[0] in NewestFirst(l.log, u);
    }
  }
}
