/** Transactions as the ledger sees them (src/blockchain_structs/TransactionInfo.*, Address.*). */
module Transaction {
  import opened Bytes

  /** The raw bytes of an address; the initial wallet is the empty string. */
  type Address = Data

  const TX_STATE_WRONG_MONEY: u64 := 30
  const TX_STATE_WRONG_DATA: u64 := 40
  const TX_STATE_TECH_NODE_STAT: u64 := 0x1101

  /** "InitialWalletTransaction" in ASCII. */
  const INITIAL_WALLET_TRANSACTION: Data :=
    [73, 110, 105, 116, 105, 97, 108, 87, 97, 108, 108, 101, 116,
     84, 114, 97, 110, 115, 97, 99, 116, 105, 111, 110]

  /** The string an address is keyed by. */
  function BdString(a: Address): (r: Data)
    ensures r != []
  {
    if a == [] then INITIAL_WALLET_TRANSACTION else a
  }

  datatype DelegateInfo = DelegateInfo(value: u64, isDelegate: bool)

  datatype TokenInfo =
    | Create(owner: Address, value: u64, beginDistribution: seq<(Address, u64)>)
    | ChangeOwner(newOwner: Address)
    | ChangeEmission
    | AddTokens(toAddress: Address, value: u64)
    | MoveTokens(toAddress: Address, value: u64)
    | BurnTokens(value: u64)

  datatype Tx = Tx(
    hash: Data,
    from: Address,
    to: Address,
    value: u64,
    fees: u64,
    blockNumber: u64,
    blockIndex: u64,
    sizeRawTx: u64,
    fileName: Data,
    filePos: u64,
    intStatus: Option<u64>,
    delegate: Option<DelegateInfo>,
    tokenInfo: Option<TokenInfo>)
  {
    predicate IsNoBalance() { intStatus == Some(TX_STATE_WRONG_MONEY) }

    predicate IsNotSuccess() { intStatus == Some(TX_STATE_WRONG_MONEY) || intStatus == Some(TX_STATE_WRONG_DATA) }

    predicate IsNodeTest() { intStatus == Some(TX_STATE_TECH_NODE_STAT) }

    /** The fee actually charged: one unit per byte beyond 255, at most the offered fee. */
    function RealFee(): u64
    {
      var chargeable: u64 := if sizeRawTx > 255 then sizeRawTx - 255 else 0;
      if chargeable <= fees then chargeable else fees
    }
  }
}
