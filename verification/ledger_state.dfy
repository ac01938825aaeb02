/** The wallet service's store: balances by owner, the append-only transaction log and the
    unique index over idempotency keys. */
module LedgerState {
  import opened Common

  /** The wallet table's `user_id` column (an integer). */
  type OwnerId = int

  datatype TxType = Credit | Debit

  /** One committed row of the transaction table. `id` is the row's append position. */
  datatype Transaction = Transaction(id: nat, userId: OwnerId, amount: real, kind: TxType, key: Option<string>)

  /** wallets: balance per owner; log: every committed transaction, oldest first;
      usedKeys: the unique index on `idempotency_key`. */
  datatype Ledger = Ledger(wallets: map<OwnerId, real>, log: seq<Transaction>, usedKeys: set<string>)

  /** The exceptions the ledger operations throw. */
  datatype LedgerError =
    | DuplicateKey            // ConflictException: an earlier transaction carries the key
    | WalletNotFound          // NotFoundException
    | InsufficientFunds       // BadRequestException
    | WalletExists            // ConflictException from createWallet
    | KeyConstraintViolation  // the store's unique index rejects the insert; the unit rolls back

  /** A transition: the state after the call and what the call returned. */
  datatype Step<T> = Step(ledger: Ledger, result: Result<T, LedgerError>)

  const Empty: Ledger := Ledger(map[], [], {})

  /** The signed effect of a transaction on its owner's balance. */
  function Signed(t: Transaction): real
  {
    match t.kind
    case Credit => t.amount
    case Debit => -t.amount
  }

  /** Net effect of `log` on the balance of `u`. */
  function Net(log: seq<Transaction>, u: OwnerId): real
  {
    if |log| == 0 then 0.0
    else Net(log[..|log| - 1], u) + (if log[|log| - 1].userId == u then Signed(log[|log| - 1]) else 0.0)
  }

  /** The idempotency keys carried by the log. */
  function KeysOf(log: seq<Transaction>): set<string>
  {
    set i | 0 <= i < |log| && log[i].key.Some? :: log[i].key.value
  }

  /** The key set contributed by one optional key. */
  function KeySet(k: Option<string>): set<string>
  {
    if k.Some? then {k.value} else {}
  }

  /** No two transactions of the log carry the same idempotency key. */
  predicate KeysDistinct(log: seq<Transaction>)
  {
    forall i, j :: 0 <= i < j < |log| && log[i].key.Some? ==> log[j].key != log[i].key
  }

  /** The invariants of every committed state. */
  predicate Valid(l: Ledger)
  {
    && (forall u :: u in l.wallets ==> l.wallets[u] >= 0.0)
    && (forall u :: u in l.wallets ==> l.wallets[u] == Net(l.log, u))
    && (forall i :: 0 <= i < |l.log| ==> l.log[i].id == i && l.log[i].userId in l.wallets)
    && l.usedKeys == KeysOf(l.log)
    && KeysDistinct(l.log)
  }

  lemma NetAppend(log: seq<Transaction>, t: Transaction, u: OwnerId)
    ensures Net(log + [t], u) == Net(log, u) + (if t.userId == u then Signed(t) else 0.0)
  {}

  lemma {:induction false} NetOfStranger(log: seq<Transaction>, u: OwnerId)
    requires forall i :: 0 <= i < |log| ==> log[i].userId != u
    ensures Net(log, u) == 0.0
  {
    if |log| > 0 {
      NetOfStranger(log[..|log| - 1], u);
    }
  }

  lemma KeysOfAppend(log: seq<Transaction>, t: Transaction)
    ensures KeysOf(log + [t]) == KeysOf(log) + KeySet(t.key)
  {
    var log' := log + [t];
    forall k | k in KeysOf(log')
      ensures k in KeysOf(log) + KeySet(t.key)
    {
      var i :| 0 <= i < |log'| && log'[i].key.Some? && log'[i].key.value == k;
      if i < |log| {
        assert log[i] == log'[i];
      }
    }
    forall k | k in KeysOf(log)
      ensures k in KeysOf(log')
    {
      var i :| 0 <= i < |log| && log[i].key.Some? && log[i].key.value == k;
      assert log'[i] == log[i];
    }
    if t.key.Some? {
      assert log'[|log|] == t;
    }
  }

}
