/** An end-to-end ledger scenario through the validated route: a new wallet, a credit, the same
    key again, an overdraft and an exact debit. */
module Scenarios {
  import opened Common
  import opened LedgerState
  import opened WalletService
  import opened TransactionDto
  import opened TransactionController

  function Body(amount: real, kind: string, key: string): RawTransactionBody
  {
    RawTransactionBody(Some(amount), Some(kind), Some(key))
  }

  /** Wallet created at 0; credit 50 with k1; the same k1 again is a conflict; a debit of 70
      is refused; a debit of 50 with k3 empties the wallet. */
  lemma AliceScenario()
    ensures var p := Principal(7);
      var w := CreateWallet(Empty, 7);
      var r1 := HandleCreate(w.ledger, p, Body(50.0, "CREDIT", "k1"), None);
      var r2 := HandleCreate(r1.ledger, p, Body(50.0, "CREDIT", "k1"), None);
      var r3 := HandleCreate(r2.ledger, p, Body(70.0, "DEBIT", "k2"), None);
      var r4 := HandleCreate(r3.ledger, p, Body(50.0, "DEBIT", "k3"), None);
      && w.result == Ok(WalletView(7, 0.0))
      && r1.result.Ok? && r1.ledger.wallets[7] == 50.0
      && r2.result.Err? && Status(r2.result.error) == 409 && r2.ledger.wallets[7] == 50.0
      && r3.result == Err(Failed(InsufficientFunds)) && r3.ledger.wallets[7] == 50.0
      && r4.result.Ok? && r4.ledger.wallets[7] == 0.0
  {}
}
