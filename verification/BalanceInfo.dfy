/** Per-address balances (src/blockchain_structs/BalanceInfo.*): accumulators that renormalise near 2^64,
    the entries one transaction makes, and the merge of a block's delta into the stored record. */
module BalanceInfo {
  import opened Bytes
  import opened Transaction

  const MAX: u64 := 0xFFFF_FFFF_FFFF_FFFF

  // ----- one accumulator -----

  datatype Element = Element(received: u64, spent: u64) {

    function Net(): u64 { Wrap(received - spent) }

    function Receive(value: u64): Element
    {
      if received >= MAX - value then Element(Wrap(Net() + value), 0)
      else Element(received + value, spent)
    }

    function Spend(value: u64): Element
    {
      if spent >= MAX - value then Element(Net(), value)
      else Element(received, spent + value)
    }
  }

  const ZERO := Element(0, 0)

  /** Renormalising or not, receiving and spending move the net value by exactly the amount, modulo 2^64. */
  lemma ElementNet(e: Element, value: u64)
    ensures e.Receive(value).Net() == Wrap(e.Net() + value)
    ensures e.Spend(value).Net() == Wrap(e.Net() - value)
  {
    hide Wrap;
    WrapAdd(e.received - e.spent, value);
    WrapAdd(e.received - e.spent, 0 - value);
    WrapAdd(e.Net() + value, 0);
  }

  datatype Move = In(value: u64) | Out(value: u64)

  function Moved(e: Element, m: Move): Element
  {
    match m
    case In(v) => e.Receive(v)
    case Out(v) => e.Spend(v)
  }

  function MovedAll(e: Element, moves: seq<Move>): Element
    decreases moves
  {
    if moves == [] then e else MovedAll(Moved(e, moves[0]), moves[1..])
  }

  /** The balance an unbounded account would have. */
  function TrueBalance(start: int, moves: seq<Move>): int
    decreases moves
  {
    if moves == [] then start
    else TrueBalance(match moves[0] case In(v) => start + v case Out(v) => start - v, moves[1..])
  }

  /** Any sequence of operations keeps received - spent exact modulo 2^64. */
  lemma {:induction false} MovedAllNet(e: Element, moves: seq<Move>, start: int)
    requires e.Net() == Wrap(start)
    ensures MovedAll(e, moves).Net() == Wrap(TrueBalance(start, moves))
    decreases moves
  {
    if moves != [] {
      ElementNet(e, moves[0].value);
      WrapAdd(start, moves[0].value);
      WrapAdd(start, 0 - moves[0].value);
      MovedAllNet(Moved(e, moves[0]), moves[1..], match moves[0] case In(v) => start + v case Out(v) => start - v);
    }
  }

  /** The true balance stays within 0 .. 2^64-1 after every operation. */
  predicate StaysInRange(start: int, moves: seq<Move>)
    decreases moves
  {
    0 <= start < TWO_64 &&
    (moves == [] || StaysInRange(match moves[0] case In(v) => start + v case Out(v) => start - v, moves[1..]))
  }

  /** While the true balance is in range the difference is exact as an integer: the account never goes
      wrong by a multiple of 2^64, however many times it renormalised. */
  lemma {:induction false} MovedAllExact(e: Element, moves: seq<Move>)
    requires StaysInRange(e.received - e.spent, moves)
    ensures MovedAll(e, moves).received - MovedAll(e, moves).spent == TrueBalance(e.received - e.spent, moves)
    decreases moves
  {
    if moves != [] {
      var next := Moved(e, moves[0]);
      assert StaysInRange(match moves[0] case In(v) => e.received - e.spent + v case Out(v) => e.received - e.spent - v,
        moves[1..]);
      assert next.received - next.spent == match moves[0] case In(v) => e.received - e.spent + v case Out(v) =>
        e.received - e.spent - v;
      MovedAllExact(next, moves[1..]);
    }
  }

  function TotalIn(moves: seq<Move>): (r: int)
    ensures r >= 0
  {
    if moves == [] then 0 else (if moves[0].In? then moves[0].value else 0) + TotalIn(moves[1..])
  }

  function TotalOut(moves: seq<Move>): (r: int)
    ensures r >= 0
  {
    if moves == [] then 0 else (if moves[0].Out? then moves[0].value else 0) + TotalOut(moves[1..])
  }

  /** No renormalisation happens while neither total reaches 2^64-1. */
  lemma {:induction false} MovedAllPlain(e: Element, moves: seq<Move>)
    requires e.received + TotalIn(moves) < MAX && e.spent + TotalOut(moves) < MAX
    ensures MovedAll(e, moves) == Element(e.received + TotalIn(moves), e.spent + TotalOut(moves))
    decreases moves
  {
    if moves != [] { MovedAllPlain(Moved(e, moves[0]), moves[1..]); }
  }

  // ----- the record -----

  /** The delegate element counts delegations as spent and undelegations as received; the delegated one the other
      way. */
  datatype DelegateBalance = DelegateBalance(delegate: Element, delegated: Element, reserved: u64, countOp: u64)

  datatype ForgedBalance = ForgedBalance(forged: u64, countOp: u64)

  datatype TokenBalance = TokenBalance(balance: Element, countOp: u64, countReceived: u64, countSpent: u64)

  datatype Balance = Balance(
    balance: Element,
    countReceived: u64,
    countSpent: u64,
    countTxs: u64,
    delegated: Option<DelegateBalance>,
    forged: Option<ForgedBalance>,
    blockNumber: u64,
    tokenBlockNumber: Option<u64>,
    tokens: map<Data, TokenBalance>)

  const NO_DELEGATE := DelegateBalance(ZERO, ZERO, 0, 0)
  const NO_FORGED := ForgedBalance(0, 0)
  const NO_TOKENS := TokenBalance(ZERO, 0, 0, 0)
  const EMPTY := Balance(ZERO, 0, 0, 0, None, None, 0, None, map[])

  function Or<T>(o: Option<T>, default: T): T
  {
    match o case None => default case Some(t) => t
  }

  function Inc(n: u64): u64 { Wrap(n + 1) }

  function Max(a: u64, b: u64): u64 { if a >= b then a else b }

  function TokenOf(b: Balance, token: Data): TokenBalance
  {
    if token in b.tokens then b.tokens[token] else NO_TOKENS
  }

  // ----- the entries a transaction makes -----

  datatype Entry =
    | Plain(tx: Tx, address: Address, changeBalance: bool, isForging: bool)
    | WithDelegate(tx: Tx, address: Address, undelegateValue: Option<u64>, isOkStatus: bool)
    | TokensAdded(tx: Tx, value: u64, isOkStatus: bool)
    | TokensMoved(tx: Tx, address: Address, toAddress: Address, value: u64, isOkStatus: bool)

  /** No check fails while making the entry. */
  predicate Applies(e: Entry)
  {
    match e
    case Plain(tx, address, change, _) => tx.from == address && change ==> tx.sizeRawTx > 0
    case WithDelegate(tx, address, undelegateValue, ok) =>
      tx.delegate.Some? &&
      (ok && !tx.delegate.value.isDelegate && (tx.from == address || tx.to == address) ==> undelegateValue.Some?)
    case _ => true
  }

  function PlusWithoutDelegate(b: Balance, tx: Tx, address: Address, changeBalance: bool, isForging: bool): Balance
    requires Applies(Plain(tx, address, changeBalance, isForging))
  {
    var b := if tx.from != address then b else
      b.(countSpent := Inc(b.countSpent), blockNumber := Max(b.blockNumber, tx.blockNumber),
         balance := if changeBalance then b.balance.Spend(Wrap(tx.value + tx.RealFee())) else b.balance);
    var b := if tx.to != address then b else
      b.(countReceived := Inc(b.countReceived), blockNumber := Max(b.blockNumber, tx.blockNumber),
         balance := if changeBalance then b.balance.Receive(tx.value) else b.balance);
    var b := b.(countTxs := Inc(b.countTxs));
    var b := if tx.delegate.None? then b else
      var d := Or(b.delegated, NO_DELEGATE);
      b.(delegated := Some(if tx.delegate.value.isDelegate && tx.from == address
                           then d.(reserved := Wrap(d.reserved + tx.delegate.value.value)) else d));
    if isForging && tx.to == address then
      var f := Or(b.forged, NO_FORGED);
      b.(forged := Some(ForgedBalance(Wrap(f.forged + tx.value), Inc(f.countOp))))
    else b
  }

  function PlusWithDelegate(b: Balance, tx: Tx, address: Address, undelegateValue: Option<u64>,
                            isOkStatus: bool): Balance
    requires Applies(WithDelegate(tx, address, undelegateValue, isOkStatus))
  {
    var info := tx.delegate.value;
    var d := Or(b.delegated, NO_DELEGATE);
    var d := d.(countOp := Inc(d.countOp));
    var (b, d) :=
      if !(isOkStatus && tx.from == address) then (b, d)
      else if info.isDelegate then
        (b.(balance := b.balance.Spend(info.value)), d.(delegate := d.delegate.Spend(info.value)))
      else
        (b.(balance := b.balance.Receive(undelegateValue.value)),
          d.(delegate := d.delegate.Receive(undelegateValue.value)));
    var d :=
      if !(isOkStatus && tx.to == address) then d
      else if info.isDelegate then d.(delegated := d.delegated.Receive(info.value))
      else d.(delegated := d.delegated.Spend(undelegateValue.value));
    var d := if tx.from == address && info.isDelegate then d.(reserved := Wrap(d.reserved - info.value)) else d;
    b.(delegated := Some(d))
  }

  function PlusTokens(b: Balance, tx: Tx, value: u64, isOkStatus: bool): Balance
  {
    if !isOkStatus || tx.tokenInfo.None? then b
    else
      var token := BdString(tx.to);
      var t := TokenOf(b, token);
      b.(tokens := b.tokens[token := TokenBalance(t.balance.Receive(value), Inc(t.countOp), Inc(t.countReceived),
        t.countSpent)],
         tokenBlockNumber := Some(tx.blockNumber))
  }

  function MoveTokensOf(b: Balance, tx: Tx, address: Address, toAddress: Address, value: u64, isOkStatus: bool): Balance
  {
    if !isOkStatus || tx.tokenInfo.None? then b
    else
      var token := BdString(tx.to);
      var t := TokenOf(b, token);
      var t := if tx.from == address then t.(countSpent := Inc(t.countSpent), balance := t.balance.Spend(value)) else t;
      var t := if toAddress == address then t.(countReceived := Inc(t.countReceived),
        balance := t.balance.Receive(value)) else t;
      b.(tokens := b.tokens[token := t.(countOp := Inc(t.countOp))], tokenBlockNumber := Some(tx.blockNumber))
  }

  function Apply(b: Balance, e: Entry): Balance
    requires Applies(e)
  {
    match e
    case Plain(tx, address, change, forging) => PlusWithoutDelegate(b, tx, address, change, forging)
    case WithDelegate(tx, address, undelegateValue, ok) => PlusWithDelegate(b, tx, address, undelegateValue, ok)
    case TokensAdded(tx, value, ok) => PlusTokens(b, tx, value, ok)
    case TokensMoved(tx, address, toAddress, value, ok) => MoveTokensOf(b, tx, address, toAddress, value, ok)
  }

  function ApplyAll(b: Balance, entries: seq<Entry>): Balance
    requires forall e :: e in entries ==> Applies(e)
    decreases entries
  {
    if entries == [] then b else ApplyAll(Apply(b, entries[0]), entries[1..])
  }

  // ----- merging a delta (operator +=) -----

  function MergeElement(a: Element, b: Element): Element { a.Receive(b.received).Spend(b.spent) }

  /** The delegate element is merged by its two amounts in the other order. */
  function MergeDelegateElement(a: Element, b: Element): Element { a.Spend(b.spent).Receive(b.received) }

  function MergeDelegate(a: DelegateBalance, b: DelegateBalance): DelegateBalance
  {
    DelegateBalance(MergeDelegateElement(a.delegate, b.delegate), MergeElement(a.delegated, b.delegated),
                    Wrap(a.reserved + b.reserved), Wrap(a.countOp + b.countOp))
  }

  function MergeToken(a: TokenBalance, b: TokenBalance): TokenBalance
  {
    TokenBalance(MergeElement(a.balance, b.balance), Wrap(a.countOp + b.countOp),
                 Wrap(a.countReceived + b.countReceived), Wrap(a.countSpent + b.countSpent))
  }

  function MergeTokens(a: map<Data, TokenBalance>, b: map<Data, TokenBalance>): map<Data, TokenBalance>
  {
    map t | t in a.Keys + b.Keys ::
      if t !in b then a[t] else MergeToken(if t in a then a[t] else NO_TOKENS, b[t])
  }

  function MergeBlockNumber(a: Option<u64>, b: Option<u64>): Option<u64>
  {
    if a.Some? && b.Some? then Some(Max(a.value, b.value)) else if b.Some? then b else a
  }

  function Plus(a: Balance, b: Balance): Balance
  {
    Balance(
      MergeElement(a.balance, b.balance),
      Wrap(a.countReceived + b.countReceived),
      Wrap(a.countSpent + b.countSpent),
      Wrap(a.countTxs + b.countTxs),
      if b.delegated.None? then a.delegated
      else Some(MergeDelegate(Or(a.delegated, NO_DELEGATE), b.delegated.value)),
      if b.forged.None? then a.forged
      else var f := Or(a.forged, NO_FORGED);
           Some(ForgedBalance(Wrap(f.forged + b.forged.value.forged), Wrap(f.countOp + b.forged.value.countOp))),
      Max(a.blockNumber, b.blockNumber),
      MergeBlockNumber(a.tokenBlockNumber, b.tokenBlockNumber),
      MergeTokens(a.tokens, b.tokens))
  }

  /** calcBalanceWithoutDelegate, as its 64-bit pattern. */
  function CalcBalanceWithoutDelegate(b: Balance): u64
  {
    Wrap(b.balance.received - b.balance.spent +
         (if b.delegated.Some? then b.delegated.value.delegate.spent - b.delegated.value.delegate.received else 0))
  }
}
