/** Wallet creation and balance lookup (the wallet service's WalletService). */
module WalletService {
  import opened Common
  import opened LedgerState

  /** What createWallet and getBalance hand back: the owner and the balance. */
  datatype WalletView = WalletView(userId: OwnerId, balance: real)

  /** createWallet: a second wallet for the same owner is a conflict; otherwise a
      zero-balance wallet is inserted. The DTO's positive-integer rule is the precondition. */
  function CreateWallet(l: Ledger, owner: OwnerId): (s: Step<WalletView>)
    requires owner > 0
    ensures owner in l.wallets <==> s.result.Err?
    ensures s.result.Err? ==> s == Step(l, Err(WalletExists))
    ensures s.result.Ok? ==>
      && s.result.value == WalletView(owner, 0.0)
      && s.ledger.log == l.log && s.ledger.usedKeys == l.usedKeys
      && s.ledger.wallets.Keys == l.wallets.Keys + {owner}
      && owner in s.ledger.wallets && s.ledger.wallets[owner] == 0.0
      && (forall u :: u in l.wallets ==> s.ledger.wallets[u] == l.wallets[u])
  {
    if owner in l.wallets then Step(l, Err(WalletExists))
    else Step(l.(wallets := l.wallets[owner := 0.0]), Ok(WalletView(owner, 0.0)))
  }

  /** getBalance: the stored owner id and balance, or not-found. */
  function GetBalance(l: Ledger, owner: OwnerId): (r: Result<WalletView, LedgerError>)
    ensures r.Ok? <==> owner in l.wallets
    ensures r.Err? ==> r.error == WalletNotFound
    ensures r.Ok? ==> r.value.userId == owner && r.value.balance == l.wallets[owner]
  {
    if owner !in l.wallets then Err(WalletNotFound)
    else Ok(WalletView(owner, l.wallets[owner]))
  }

  /** Creating a wallet keeps every store invariant: the new owner has no transactions yet,
      so a zero balance agrees with the log. */
  lemma CreateWalletPreservesValid(l: Ledger, owner: OwnerId)
    requires Valid(l) && owner > 0
    ensures Valid(CreateWallet(l, owner).ledger)
  {
    var s := CreateWallet(l, owner);
    if owner !in l.wallets {
      assert forall i :: 0 <= i < |l.log| ==> l.log[i].userId != owner;
      NetOfStranger(l.log, owner);
    }
  }

  /** Right after a successful createWallet, getBalance reports that owner with balance 0. */
  lemma BalanceAfterCreateIsZero(l: Ledger, owner: OwnerId)
    requires owner > 0
    requires CreateWallet(l, owner).result.Ok?
    ensures GetBalance(CreateWallet(l, owner).ledger, owner) == Ok(WalletView(owner, 0.0))
  {}

  /** Creating a wallet leaves the idempotency-key index as it was. */
  lemma CreateWalletKeepsUsedKeys(l: Ledger, owner: OwnerId)
    requires owner > 0
    ensures CreateWallet(l, owner).ledger.usedKeys == l.usedKeys
  {}

  /** A second createWallet for the same owner is always rejected, whatever happened to the
      first wallet in between. */
  lemma SecondCreateConflicts(l: Ledger, owner: OwnerId)
    requires owner > 0
    ensures CreateWallet(CreateWallet(l, owner).ledger, owner) == Step(CreateWallet(l, owner).ledger, Err(WalletExists))
  {}
}
