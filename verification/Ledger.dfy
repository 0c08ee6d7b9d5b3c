/** What one block does to the ledger (src/Workers/WorkerMain.cpp, per-block body of worker()): delegations through
    the block's stack cache, the batch and the store; history rows numbered by the decreasing counter; balance
    deltas merged into the stored records; everything committed in one batch or not at all. */
module Ledger {
  import opened Bytes
  import opened Serialize
  import opened Store
  import opened Transaction
  import opened BalanceInfo
  import opened Records
  import BalanceCodec

  // ----- keys -----

  const DELEGATE_PREFIX: Data := [100, 95]            // "d_"
  const ADDRESS_PREFIX: Data := [97, 95]              // "a_"
  const ADDRESS_TOKEN_PREFIX: Data := [116, 105, 95]  // "ti_"
  const BALANCE_PREFIX: Data := [105, 95]             // "i_"
  const MAIN_BLOCK_KEY: Data := [109, 115, 95]        // "ms_"
  const POSTFIX: byte := 33                           // '!'
  const DELIMITER: byte := 59                         // ';'

  function ZeroAddress(): (a: Address)
    ensures |a| == 25
  {
    seq(25, _ => 0)
  }

  function PairKey(from: Data, to: Data): Data { from + [DELIMITER] + to }

  function PairOf(tx: Tx): Data { PairKey(BdString(tx.from), BdString(tx.to)) }

  function DelegatePrefix(pair: Data): Data { DELEGATE_PREFIX + pair + [POSTFIX] }

  function DelegateKey(pair: Data, counter: u64): Key { DelegatePrefix(pair) + SerInt(counter) }

  function HistoryPrefix(prefix: Data, address: Address): Data { prefix + BdString(address) + [POSTFIX] }

  function HistoryKey(prefix: Data, address: Address, counter: u64): Key
  {
    HistoryPrefix(prefix, address) + SerInt(counter)
  }

  function BalanceKey(bdAddress: Data): Key { BALANCE_PREFIX + bdAddress }

  function Lookup(data: Contents, k: Key): Data { if k in data then data[k] else [] }

  // ----- blocks, nodes and the work in progress on a block -----

  datatype Modules = Modules(balance: bool, txs: bool, addrTxs: bool)

  datatype BlockKind = Simple | Forging | State | Other

  /** `stateValid`: the checks of a state block pass (or are switched off). */
  datatype Block = Block(number: u64, hash: Data, prevHash: Data, kind: BlockKind, txs: seq<Tx>, stateValid: bool)

  datatype TxStatus =
    | NoStatus
    | Delegating(isSuccess: bool)
    | UnDelegating(value: u64, delegateHash: Data)

  /** The persistent contents and the counter in memory. */
  datatype Node = Node(data: Contents, counter: u64)

  /** The batch (its operations, its save and deleted sets), the stack cache, the balance deltas, the counter,
      the statuses reported so far, and whether a check failed. */
  datatype Work = Work(
    ops: seq<Op>,
    save: map<Key, Data>,
    deleted: set<Key>,
    cache: map<Data, seq<Key>>,
    balances: map<Data, Balance>,
    counter: u64,
    statuses: seq<TxStatus>,
    thrown: bool)

  function StartWork(counter: u64): Work { Work([], map[], {}, map[], map[], counter, [], false) }

  // ----- the counter -----

  /** get() of the decreasing counter: yields the value and steps down, wrapping. */
  function Drawn(w: Work): Work { w.(counter := Wrap(w.counter - 1)) }

  /** store() at start-up: one below the saved value. */
  function Restarted(saved: u64): u64 { Wrap(saved - 1) }

  // ----- delegations -----

  function Stack(w: Work, pair: Data): seq<Key> { if pair in w.cache then w.cache[pair] else [] }

  /** removeValue of the batch, with isSave. */
  function Removed(w: Work, k: Key): Work
  {
    w.(ops := w.ops + [Delete(k)], save := w.save - {k}, deleted := w.deleted + {k})
  }

  /** addKey of the batch, with isSave: an already saved key keeps its saved value. */
  function Saved(w: Work, k: Key, v: Data): Work
  {
    w.(ops := w.ops + [Put(k, v)], save := if k in w.save then w.save else w.save[k := v])
  }

  function Push(w: Work, pair: Data, d: DelegateState): Work
  {
    var k := DelegateKey(pair, w.counter);
    if d.hash == [] then Drawn(w).(thrown := true)
    else Saved(Drawn(w), k, SerDelegateState(d)).(cache := w.cache[pair := Stack(w, pair) + [k]])
  }

  function Reported(w: Work, s: TxStatus): Work { w.(statuses := w.statuses + [s]) }

  function Failed(w: Work): Work { w.(thrown := true) }

  function PopCache(w: Work, pair: Data): Work
    requires Stack(w, pair) != []
  {
    var s := Stack(w, pair);
    var k := s[|s| - 1];
    var w := w.(cache := w.cache[pair := s[..|s| - 1]]);
    if k !in w.save then Failed(w)
    else
      match DeserDelegateState(w.save[k])
      case Thrown => Failed(w)
      case Returned(d) => if d.hash == [] then Failed(w) else Reported(Removed(w, k), UnDelegating(d.value, d.hash))
  }

  function PopStore(data: Contents, w: Work, pair: Data): Work
  {
    match FirstOf(data, DelegatePrefix(pair), w.deleted)
    case None => Reported(w, UnDelegating(NO_STATE.value, NO_STATE.hash))
    case Some(k) =>
      match DeserDelegateState(data[k])
      case Thrown => Failed(w)
      case Returned(d) => if d.hash == [] then Failed(w) else Reported(Removed(w, k), UnDelegating(d.value, d.hash))
  }

  /** getInstantDelegateStatus: every transaction reports one status. */
  function DelegateStep(data: Contents, w: Work, tx: Tx): Work
  {
    if tx.delegate.None? then Reported(w, NoStatus)
    else if tx.intStatus.None? then Failed(w)
    else if tx.delegate.value.isDelegate then
      var ok := !tx.IsNotSuccess();
      Reported(if ok then Push(w, PairOf(tx), DelegateState(tx.delegate.value.value, tx.hash)) else w, Delegating(ok))
    else if Stack(w, PairOf(tx)) != [] then PopCache(w, PairOf(tx))
    else PopStore(data, w, PairOf(tx))
  }

  // ----- history rows and balance entries -----

  /** A history row, the row of the transaction itself (which no history reads), and a balance entry. */
  datatype Action =
    | Row(prefix: Data, address: Address)
    | Keep
    | Post(bdAddress: Data, entry: Entry)

  /** toLeveldb for one of the two addresses. */
  function AddressActions(tx: Tx, address: Address, status: TxStatus, m: Modules, isForging: bool): seq<Action>
  {
    if address == [] || tx.IsNodeTest() then []
    else
      (if m.addrTxs then [Row(ADDRESS_PREFIX, address)] else []) +
      (if !m.balance then []
       else
         [Post(BdString(address), Plain(tx, address, !tx.IsNoBalance(), isForging))] +
         (match status
          case NoStatus => []
          case Delegating(ok) => [Post(BdString(address), WithDelegate(tx, address, None, ok))]
          case UnDelegating(v, _) => [Post(BdString(address), WithDelegate(tx, address, Some(v), true))]))
  }

  function TokenRows(tx: Tx, info: TokenInfo): seq<Action>
  {
    match info
    case Create(owner, _, begin) =>
      [Row(ADDRESS_TOKEN_PREFIX, owner)] + seq(|begin|,
        i requires 0 <= i < |begin| => Row(ADDRESS_TOKEN_PREFIX, begin[i].0))
    case ChangeOwner(newOwner) => [Row(ADDRESS_TOKEN_PREFIX, tx.from), Row(ADDRESS_TOKEN_PREFIX, newOwner)]
    case ChangeEmission => [Row(ADDRESS_TOKEN_PREFIX, tx.from)]
    case AddTokens(to, _) => [Row(ADDRESS_TOKEN_PREFIX, to)]
    case MoveTokens(to, _) =>
      [Row(ADDRESS_TOKEN_PREFIX, tx.from)] + (if tx.from != to then [Row(ADDRESS_TOKEN_PREFIX, to)] else [])
    case BurnTokens(_) => [Row(ADDRESS_TOKEN_PREFIX, tx.from)]
  }

  /** The rows of a transaction and of its tokens. */
  function TxRows(tx: Tx, m: Modules): seq<Action>
  {
    if !m.txs then []
    else
      [Keep] +
      (if tx.tokenInfo.Some? && !tx.IsNotSuccess() then TokenRows(tx, tx.tokenInfo.value) else [])
  }

  /** What the owner keeps of a created token after the initial distribution. */
  function Rest(value: u64, begin: seq<(Address, u64)>): u64
    decreases begin
  {
    if begin == [] then value else Rest(Wrap(value - begin[0].1), begin[1..])
  }

  function TokenPosts(tx: Tx, info: TokenInfo): seq<Action>
  {
    var ok := !tx.IsNotSuccess();
    match info
    case Create(owner, value, begin) =>
      seq(|begin|, i requires 0 <= i < |begin| => Post(BdString(begin[i].0), TokensAdded(tx, begin[i].1, ok))) +
      [Post(BdString(owner), TokensAdded(tx, Rest(value, begin), ok))]
    case AddTokens(to, value) => [Post(BdString(to), TokensAdded(tx, value, ok))]
    case MoveTokens(to, value) =>
      [Post(BdString(to), TokensMoved(tx, to, to, value, ok))] +
      (if to != tx.from then [Post(BdString(tx.from), TokensMoved(tx, tx.from, to, value, ok))] else [])
    case BurnTokens(value) => [Post(BdString(tx.from), TokensMoved(tx, tx.from, ZeroAddress(), value, ok))]
    case _ => []
  }

  function ActionsOf(tx: Tx, status: TxStatus, m: Modules, isForging: bool): seq<Action>
  {
    AddressActions(tx, tx.from, status, m, isForging) +
    ((if tx.from != tx.to then AddressActions(tx, tx.to, status, m, isForging) else []) +
     (TxRows(tx, m) +
      (if m.balance && tx.tokenInfo.Some? then TokenPosts(tx, tx.tokenInfo.value) else [])))
  }

  function BalanceOf(balances: map<Data, Balance>, bdAddress: Data): Balance
  {
    if bdAddress in balances then balances[bdAddress] else EMPTY
  }

  function Perform(w: Work, tx: Tx, a: Action): Work
  {
    if w.thrown then w
    else
      match a
      case Row(prefix, address) =>
        var info := AddressInfo(FilePosition(tx.fileName, tx.filePos), tx.blockNumber, tx.blockIndex, None);
        if !AddressWritable(info) then Failed(Drawn(w))
        else Drawn(w).(ops := w.ops + [Put(HistoryKey(prefix, address, w.counter), SerAddressInfo(info))])
      case Keep => if tx.blockNumber == 0 || tx.fileName == [] then Failed(w) else w
      case Post(bd, entry) =>
        if !Applies(entry) then Failed(w)
        else w.(balances := w.balances[bd := Apply(BalanceOf(w.balances, bd), entry)])
  }

  function PerformAll(w: Work, tx: Tx, actions: seq<Action>): Work
    decreases actions
  {
    if actions == [] then w else PerformAll(Perform(w, tx, actions[0]), tx, actions[1..])
  }

  function LastStatus(w: Work): TxStatus { if w.statuses == [] then NoStatus else w.statuses[|w.statuses| - 1] }

  function TxStep(data: Contents, m: Modules, isForging: bool, w: Work, tx: Tx): Work
  {
    if w.thrown || !(m.balance || m.txs || m.addrTxs) then w
    else
      var w := DelegateStep(data, w, tx);
      if w.thrown then w else PerformAll(w, tx, ActionsOf(tx, LastStatus(w), m, isForging))
  }

  function TxSteps(data: Contents, m: Modules, isForging: bool, w: Work, txs: seq<Tx>): Work
  {
    if txs == [] then w
    else TxStep(data, m, isForging, TxSteps(data, m, isForging, w, txs[..|txs| - 1]), txs[|txs| - 1])
  }

  // ----- merging and committing -----

  function StoredBalance(data: Contents, bdAddress: Data): Result<Balance>
  {
    BalanceCodec.Deser(Lookup(data, BalanceKey(bdAddress)))
  }

  function SerBalance(b: Balance): Data
  {
    BalanceCodec.Ser(b, SortedKeys(b.tokens.Keys))
  }

  /** Merges the delta of one address; a record of this block or later is left alone. */
  function MergeOne(data: Contents, number: u64, w: Work, bd: Data): Work
  {
    if w.thrown then w
    else
      match StoredBalance(data, bd)
      case Thrown => Failed(w)
      case Returned(old_) =>
        if old_.blockNumber < number
        then w.(ops := w.ops + [Put(BalanceKey(bd), SerBalance(Plus(old_, BalanceOf(w.balances, bd))))])
        else w
  }

  function MergeAll(data: Contents, number: u64, w: Work, addresses: seq<Data>): Work
  {
    if addresses == [] then w
    else MergeOne(data, number, MergeAll(data, number, w, addresses[..|addresses| - 1]), addresses[|addresses| - 1])
  }

  function MainBlockOf(data: Contents): Result<MainBlockInfo> { DeserMainBlock(Lookup(data, MAIN_BLOCK_KEY)) }

  /** The batch of a block after its transactions, with the deltas not yet merged. */
  function TransactionWork(node: Node, m: Modules, b: Block): Work
  {
    var start := StartWork(node.counter);
    if b.kind.Forging? || b.kind.Simple? then TxSteps(node.data, m, b.kind.Forging?, start, b.txs)
    else if b.kind.State? && !b.stateValid then Failed(start)
    else start
  }

  /** The batch of a block before it is written, with the deltas merged in the given order. */
  function BlockWorkIn(node: Node, m: Modules, b: Block, order: seq<Data>): Work
  {
    var w := TransactionWork(node, m, b);
    var w := if m.balance then MergeAll(node.data, b.number, w, order) else w;
    var info := MainBlockInfo(b.number, b.hash, w.counter);
    if w.thrown then w
    else if !MainBlockWritable(info) then Failed(w)
    else w.(ops := w.ops + [Put(MAIN_BLOCK_KEY, SerMainBlock(info))])
  }

  function BlockWork(node: Node, m: Modules, b: Block): Work
  {
    BlockWorkIn(node, m, b, SortedKeys(TransactionWork(node, m, b).balances.Keys))
  }

  /** The block is new and continues the last one. */
  predicate Accepted(data: Contents, b: Block)
  {
    MainBlockOf(data).Returned? &&
    var last := MainBlockOf(data).value;
    b.number > last.blockNumber && (last.blockHash == [] || last.blockHash == b.prevHash)
  }

  /** The block is accepted and no check fails while it is processed. */
  predicate Commits(node: Node, m: Modules, b: Block)
  {
    Accepted(node.data, b) && !BlockWork(node, m, b).thrown
  }

  /** One turn of the worker: all of the block or nothing of it; draws of the counter are never given back. */
  function BlockStep(node: Node, m: Modules, b: Block): Node
  {
    if !Accepted(node.data, b) then node
    else
      var w := BlockWork(node, m, b);
      Node(if w.thrown then node.data else ApplyOps(node.data, w.ops), w.counter)
  }

  /** A restart keeps the data and takes the counter from it. */
  function Restart(node: Node): Node
  {
    match MainBlockOf(node.data)
    case Thrown => node
    case Returned(info) => Node(node.data, Restarted(info.countVal))
  }

  datatype Event = Process(block: Block) | Reboot

  function Step(node: Node, m: Modules, e: Event): Node
  {
    match e
    case Process(b) => BlockStep(node, m, b)
    case Reboot => Restart(node)
  }

  function Run(node: Node, m: Modules, events: seq<Event>): Node
  {
    if events == [] then node else Step(Run(node, m, events[..|events| - 1]), m, events[|events| - 1])
  }

  /** A fresh database and the counter a first start gives. */
  const FIRST_NODE := Node(map[], Restarted(0))
}
