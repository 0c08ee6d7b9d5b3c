/** The terms in which the promises about a transaction are stated: its status and its fee. */
module LedgerTerms {
  import opened Bytes
  import opened Transaction

  /** Technical transactions of node tests leave no trace in the records. */
  predicate Counted(tx: Tx) { tx.intStatus != Some(TX_STATE_TECH_NODE_STAT) }

  /** Money moves unless the status says there was not enough of it. */
  predicate Charged(tx: Tx) { Counted(tx) && tx.intStatus != Some(TX_STATE_WRONG_MONEY) }

  predicate Successful(tx: Tx)
  {
    tx.intStatus != Some(TX_STATE_WRONG_MONEY) && tx.intStatus != Some(TX_STATE_WRONG_DATA)
  }

  /** The fee a sender is charged: one unit per byte beyond 255, but never more than offered. */
  function Fee(tx: Tx): int
  {
    if tx.sizeRawTx <= 255 then 0 else if tx.sizeRawTx - 255 <= tx.fees then tx.sizeRawTx - 255 else tx.fees
  }

  lemma FeeIs(tx: Tx)
    ensures tx.RealFee() == Fee(tx)
  {
  }

  function If(c: bool, n: int): int { if c then n else 0 }
}
