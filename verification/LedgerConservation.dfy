/** Over every run, the worth of all addresses together is what the initial wallet issued minus the fees charged. */
module LedgerConservation {
  import opened Bytes
  import opened Store
  import opened Transaction
  import opened BalanceInfo
  import opened Records
  import opened Ledger
  import opened LedgerTerms
  import opened LedgerMeasures
  import opened LedgerCommit
  import opened Totals
  import BalanceCodec
  import S = LedgerStack
  import R = LedgerRuns

  function Issued(tx: Tx): int { if Charged(tx) && tx.from == [] then tx.value else 0 }

  function FeeCharged(tx: Tx): int { if Charged(tx) && tx.from != [] then Fee(tx) else 0 }

  // ----- one transaction -----

  lemma {:induction false} WorthZero(actions: seq<Action>)
    requires forall a :: a in actions ==> WorthOf(a) == 0
    ensures WorthAll(actions) == 0
    decreases actions
  {
    hide WorthOf;
    if actions != [] {
      assert actions[0] in actions;
      WorthZero(actions[1..]);
    }
  }

  lemma RowsWorth(tx: Tx, m: Modules)
    ensures WorthAll(TxRows(tx, m)) == 0
    ensures tx.tokenInfo.Some? ==> WorthAll(TokenPosts(tx, tx.tokenInfo.value)) == 0
  {
    hide TxRows; hide TokenPosts;
    RowsArePlain(tx, m);
    WorthZero(TxRows(tx, m));
    if tx.tokenInfo.Some? {
      TokenPostsAre(tx, tx.tokenInfo.value);
      WorthZero(TokenPosts(tx, tx.tokenInfo.value));
    }
  }

  /** What the entries for one of the two addresses are worth. */
  function AddressWorth(tx: Tx, address: Address): int
  {
    if address == [] || !Charged(tx) then 0
    else (if tx.from == address && tx.sizeRawTx > 0 then 0 - Wrap(tx.value + tx.RealFee()) else 0) +
         (if tx.to == address && (tx.from == address ==> tx.sizeRawTx > 0) then tx.value else 0)
  }

  lemma AddressActionsWorth(tx: Tx, address: Address, status: TxStatus, m: Modules, isForging: bool)
    requires m.balance
    ensures WorthAll(AddressActions(tx, address, status, m, isForging)) == AddressWorth(tx, address)
  {
    hide Tx.RealFee; hide Wrap;
    if address != [] && !tx.IsNodeTest() {
      var rows := if m.addrTxs then [Row(ADDRESS_PREFIX, address)] else [];
      var plain := [Post(BdString(address), Plain(tx, address, !tx.IsNoBalance(), isForging))];
      var rest := match status
        case NoStatus => []
        case Delegating(ok) => [Post(BdString(address), WithDelegate(tx, address, None, ok))]
        case UnDelegating(v, _) => [Post(BdString(address), WithDelegate(tx, address, Some(v), true))];
      assert AddressActions(tx, address, status, m, isForging) == rows + (plain + rest);
      ChangesConcat(rows, plain + rest, [], Worth);
      ChangesConcat(plain, rest, [], Worth);
      WorthZero(rows);
      WorthZero(rest);
      PlainWorth(tx, address, isForging);
    }
  }

  lemma PlainWorth(tx: Tx, address: Address, isForging: bool)
    requires address != [] && !tx.IsNodeTest()
    ensures WorthAll([Post(BdString(address), Plain(tx, address, !tx.IsNoBalance(), isForging))]) ==
            AddressWorth(tx, address)
  {
    hide Tx.RealFee; hide Wrap; hide BdString;
    var plain := [Post(BdString(address), Plain(tx, address, !tx.IsNoBalance(), isForging))];
    assert plain[1..] == [];
    assert WorthAll(plain) == WorthOf(plain[0]);
  }

  lemma ActionsWorth(tx: Tx, status: TxStatus, m: Modules, isForging: bool)
    requires m.balance
    ensures WorthAll(ActionsOf(tx, status, m, isForging)) ==
            AddressWorth(tx, tx.from) + if tx.from != tx.to then AddressWorth(tx, tx.to) else 0
  {
    hide AddressActions; hide TxRows; hide TokenPosts; hide AddressWorth;
    AddressActionsWorth(tx, tx.from, status, m, isForging);
    AddressActionsWorth(tx, tx.to, status, m, isForging);
    RowsWorth(tx, m);
    var a := AddressActions(tx, tx.from, status, m, isForging);
    var b := if tx.from != tx.to then AddressActions(tx, tx.to, status, m, isForging) else [];
    var t := TxRows(tx, m);
    var q := if m.balance && tx.tokenInfo.Some? then TokenPosts(tx, tx.tokenInfo.value) else [];
    ChangesConcat(a, b + (t + q), [], Worth);
    ChangesConcat(b, t + q, [], Worth);
    ChangesConcat(t, q, [], Worth);
  }

  /** The fee of a transaction that is charged can be computed. */
  predicate Chargeable(tx: Tx) { Charged(tx) && tx.from != [] ==> tx.sizeRawTx > 0 }

  /** Transfers, self-transfers, delegations and tokens create and destroy nothing: a transaction adds what the
      initial wallet issued and takes away the fee. */
  lemma TxWorth(tx: Tx, status: TxStatus, m: Modules, isForging: bool, start: int)
    requires m.balance && tx.to != [] && Chargeable(tx)
    ensures Wrap(start + WorthAll(ActionsOf(tx, status, m, isForging))) == Wrap(start + Issued(tx) - FeeCharged(tx))
  {
    hide ActionsOf; hide Tx.RealFee; hide Wrap;
    ActionsWorth(tx, status, m, isForging);
    FeeIs(tx);
    var total := tx.value + tx.RealFee();
    AddWraps(start + tx.value, total, 0);
  }

  lemma ThrowsIfNotChargeable(w: Work, tx: Tx, status: TxStatus, m: Modules, isForging: bool)
    requires m.balance && !PerformAll(w, tx, ActionsOf(tx, status, m, isForging)).thrown
    ensures Chargeable(tx)
  {
    if Charged(tx) && tx.from != [] {
      hide PerformAll; hide Tx.RealFee; hide Wrap;
      var actions := ActionsOf(tx, status, m, isForging);
      var k := if m.addrTxs then 1 else 0;
      assert actions[k] == Post(BdString(tx.from), Plain(tx, tx.from, true, isForging));
      AllApply(w, tx, actions, k);
    }
  }

  lemma {:induction false} AllApply(w: Work, tx: Tx, actions: seq<Action>, k: nat)
    requires !PerformAll(w, tx, actions).thrown && k < |actions| && actions[k].Post?
    ensures Applies(actions[k].entry)
    decreases actions
  {
    hide Applies; hide Apply; hide SerAddressInfo; hide HistoryKey;
    var w1 := Perform(w, tx, actions[0]);
    PerformAllMeasure(w1, tx, actions[1..], [], Worth);
    NotThrown(w, tx, actions[0]);
    if k > 0 { AllApply(w1, tx, actions[1..], k - 1); }
  }

  function TxsNet(txs: seq<Tx>): int
  {
    if txs == [] then 0 else TxsNet(txs[..|txs| - 1]) + Issued(txs[|txs| - 1]) - FeeCharged(txs[|txs| - 1])
  }

  lemma TxStepTotal(data: Contents, m: Modules, isForging: bool, w: Work, tx: Tx)
    requires m.balance && tx.to != [] && !TxStep(data, m, isForging, w, tx).thrown && CacheKeys(w)
    ensures Wrap(Total(Worths(TxStep(data, m, isForging, w, tx).balances))) ==
            Wrap(Total(Worths(w.balances)) + Issued(tx) - FeeCharged(tx))
  {
    hide DelegateStep; hide ActionsOf; hide PerformAll; hide Worths; hide Total; hide Wrap; hide CacheKeys;
    hide Issued; hide FeeCharged; hide SameElsewhere;
    DelegateStepKeeps(data, w, tx);
    var w1 := DelegateStep(data, w, tx);
    var actions := ActionsOf(tx, LastStatus(w1), m, isForging);
    if !w.thrown && !w1.thrown {
      ThrowsIfNotChargeable(w1, tx, LastStatus(w1), m, isForging);
      PerformAllTotal(w1, tx, actions);
      TxWorth(tx, LastStatus(w1), m, isForging, Total(Worths(w1.balances)));
    }
  }

  lemma {:induction false} TxStepsTotal(data: Contents, c: u64, m: Modules, isForging: bool, txs: seq<Tx>, n: u64)
    requires m.balance && !TxSteps(data, m, isForging, StartWork(c), txs).thrown
    requires forall tx :: tx in txs ==> tx.to != [] && tx.blockNumber == n
    ensures Wrap(Total(Worths(TxSteps(data, m, isForging, StartWork(c), txs).balances))) == Wrap(TxsNet(txs))
    decreases txs
  {
    hide TxStep; hide Total; hide Wrap; hide Issued; hide FeeCharged; hide SameBalances; hide DeltasUpTo;
    hide CacheKeys;
    if txs == [] {
      assert Worths(map[]) == map[];
      TotalEmpty();
    } else {
      var k := |txs| - 1;
      var w := TxSteps(data, m, isForging, StartWork(c), txs[..k]);
      R.ThrownSticks(data, m, isForging, w, txs[k]);
      TxStepsTotal(data, c, m, isForging, txs[..k], n);
      TxStepsReady(data, c, m, isForging, txs[..k], n);
      TxStepTotal(data, m, isForging, w, txs[k]);
      AddWraps(Total(Worths(w.balances)), 0, Issued(txs[k]) - FeeCharged(txs[k]));
      AddWraps(TxsNet(txs[..k]), 0, Issued(txs[k]) - FeeCharged(txs[k]));
    }
  }

  // ----- one block -----

  /** The transactions carry the block's number and a recipient; the merged records fit their size fields. */
  predicate BlockShape(node: Node, m: Modules, b: Block)
  {
    (forall tx :: tx in R.LedgerTxs(b) ==> tx.to != [] && tx.blockNumber == b.number) &&
    |b.hash| < TWO_64 && SizesFit(node.data, R.TxWork(node, m, b))
  }

  ghost function LastNumber(data: Contents): int
  {
    match MainBlockOf(data) case Returned(i) => i.blockNumber case Thrown => 0
  }

  lemma {:induction false} AscendingDistinct(s: seq<Data>)
    requires Ascending(s)
    ensures BalanceCodec.Distinct(s)
  {
    hide Less;
    forall i, j | 0 <= i < j < |s| ensures s[i] != s[j] { LessIrreflexive(s[i]); }
  }

  /** The store between the merge and the block record. */
  function MergedStore(node: Node, m: Modules, b: Block): Contents
  {
    var w := R.TxWork(node, m, b);
    S.Virtual(node.data, MergeAll(node.data, b.number, w, SortedKeys(w.balances.Keys)))
  }

  lemma CommittedStore(node: Node, m: Modules, b: Block)
    requires m.balance && Commits(node, m, b)
    ensures !R.TxWork(node, m, b).thrown
    ensures BlockStep(node, m, b).data ==
            MergedStore(node, m, b)[MAIN_BLOCK_KEY :=
              SerMainBlock(MainBlockInfo(b.number, b.hash, BlockStep(node, m, b).counter))]
  {
    hide TxSteps; hide SortedKeys; hide SerMainBlock; hide R.LedgerTxs; hide MainBlockOf; hide MergeAll; hide BlockWork;
    R.BlockWorkShape(node, m, b);
    var w := R.TxWork(node, m, b);
    var addresses := SortedKeys(w.balances.Keys);
    var w1 := MergeAll(node.data, b.number, w, addresses);
    assert !w.thrown by { if w.thrown { R.MergeThrown(node.data, b.number, w, addresses); } }
    ApplyOpsAppend(node.data, w1.ops, Put(MAIN_BLOCK_KEY, SerMainBlock(MainBlockInfo(b.number, b.hash, w1.counter))));
  }

  lemma BlockMerged(node: Node, m: Modules, b: Block)
    requires m.balance && Commits(node, m, b) && BlockShape(node, m, b)
    requires BalancesGood(node.data, LastNumber(node.data))
    ensures var w := R.TxWork(node, m, b);
            Ready(node.data, w, b.number) && Merged(node.data, w, SortedKeys(w.balances.Keys),
              MergedStore(node, m, b)) &&
            Wrap(Total(Worths(w.balances))) == Wrap(TxsNet(R.LedgerTxs(b)))
  {
    hide TxSteps; hide SortedKeys; hide R.LedgerTxs; hide MainBlockOf; hide MergeAll; hide BlockStep; hide Wrap;
    hide Total; hide TxsNet; hide Worths;
    hide Ready; hide SizesFit; hide Merged; hide BalancesGood; hide Ascending; hide S.Virtual;
    CommittedStore(node, m, b);
    var w := R.TxWork(node, m, b);
    TxStepsReady(node.data, node.counter, m, b.kind.Forging?, R.LedgerTxs(b), b.number);
    TxStepsTotal(node.data, node.counter, m, b.kind.Forging?, R.LedgerTxs(b), b.number);
    AscendingDistinct(SortedKeys(w.balances.Keys));
    AcceptedNumber(node.data, b);
    MergeAllMerges(node.data, b.number, w, SortedKeys(w.balances.Keys), LastNumber(node.data));
  }

  /** What a committed block leaves behind: every record merged with its delta, readable and of this block or
      earlier, and the total worth moved by the block's issue and fees. */
  lemma BlockMerges(node: Node, m: Modules, b: Block)
    requires m.balance && Commits(node, m, b) && BlockShape(node, m, b)
    requires BalancesGood(node.data, LastNumber(node.data))
    ensures var node', w := BlockStep(node, m, b), R.TxWork(node, m, b);
            R.LastRecord(node'.data, MainBlockInfo(b.number, b.hash, node'.counter)) &&
            BalancesGood(node'.data, b.number) &&
            (forall bd :: Stored(node'.data, bd) == if bd in w.balances then Plus(Stored(node.data, bd), w.balances[bd])
              else Stored(node.data, bd)) &&
            Wrap(Total(StoredWorths(node'.data))) == Wrap(Total(StoredWorths(node.data)) + TxsNet(R.LedgerTxs(b)))
  {
    hide R.TxWork; hide SortedKeys; hide SerMainBlock; hide R.LedgerTxs; hide MainBlockOf; hide BlockStep;
    hide BlockWork; hide R.LastRecord;
    hide Ready; hide SizesFit; hide Wrap; hide Total; hide StoredWorths; hide TxsNet; hide Merged; hide Plus;
    hide BalancesGood; hide Less;
    hide DecodedBalance; hide BalanceKey; hide MergedStore; hide Worths; hide Stored;
    BlockMerged(node, m, b);
    CommittedStore(node, m, b);
    var data, w := node.data, R.TxWork(node, m, b);
    var addresses := SortedKeys(w.balances.Keys);
    var v, v' := MergedStore(node, m, b), BlockStep(node, m, b).data;
    var info := MainBlockInfo(b.number, b.hash, BlockStep(node, m, b).counter);
    R.WrittenRecord(v, info);
    MainKeySame(v, SerMainBlock(info));
    SameWorths(v', v);
    AcceptedNumber(data, b);
    MergedResult(data, w, addresses, v, v', b.number);
    MergedTotal(data, w, addresses, v);
    assert Among(w.balances, addresses) == w.balances;
    AddWrapBoth(Total(StoredWorths(data)), Total(Worths(w.balances)), TxsNet(R.LedgerTxs(b)));
  }

  lemma AddWrapBoth(a: int, x: int, y: int)
    requires Wrap(x) == Wrap(y)
    ensures Wrap(a + x) == Wrap(a + y)
  {
    hide Wrap;
    AddWrapRight(a, x);
    AddWrapRight(a, y);
  }

  lemma MergedTotal(data: Contents, w: Work, addresses: seq<Data>, v: Contents)
    requires Merged(data, w, addresses, v)
    ensures Wrap(Total(StoredWorths(v))) == Wrap(Total(StoredWorths(data)) +
            Total(Worths(Among(w.balances, addresses))))
  {
    hide Wrap; hide Total; hide StoredWorths;
  }

  lemma AcceptedNumber(data: Contents, b: Block)
    requires Accepted(data, b)
    ensures LastNumber(data) < b.number
  {
    hide MainBlockOf;
  }

  lemma MainKeySame(v: Contents, x: Data)
    ensures SameBalances(v[MAIN_BLOCK_KEY := x], v)
  {
    assert MAIN_BLOCK_KEY[0] != BALANCE_PREFIX[0];
  }

  lemma MergedResult(data: Contents, w: Work, addresses: seq<Data>, v: Contents, v': Contents, n: u64)
    requires Merged(data, w, addresses, v) && SameBalances(v', v) && Ready(data, w, n)
    requires BalancesGood(data, LastNumber(data)) && LastNumber(data) <= n && forall bd :: bd in addresses <==>
             bd in w.balances
    ensures BalancesGood(v', n)
    ensures forall bd :: Stored(v', bd) == if bd in w.balances then Plus(Stored(data, bd), w.balances[bd])
            else Stored(data, bd)
  {
    hide SameBalances; hide Wrap; hide Total; hide StoredWorths; hide DecodedBalance; hide BalanceKey;
    hide BalanceCodec.Deser; hide CacheKeys;
    hide MergeElement; hide MergeTokens; hide MergeDelegate; hide MainBlockOf; hide S.Virtual;
    forall bd
      ensures Stored(v', bd) == if bd in w.balances then Plus(Stored(data, bd), w.balances[bd]) else Stored(data, bd)
      ensures StoredBalance(v', bd).Returned? && Stored(v', bd).blockNumber <= n
    {
      SameStored(v', v, bd);
      StoredIs(v, bd);
    }
  }

  // ----- runs -----

  /** What the environment owes an event of a run. */
  predicate EventShape(node: Node, m: Modules, e: Event)
  {
    e.Process? && Commits(node, m, e.block) ==> BlockShape(node, m, e.block)
  }

  predicate RunShape(m: Modules, events: seq<Event>)
  {
    events == [] ||
    (RunShape(m, events[..|events| - 1]) &&
     EventShape(Run(FIRST_NODE, m, events[..|events| - 1]), m, events[|events| - 1]))
  }

  /** Issue minus fees of everything that was committed. */
  function IssuedMinusFees(m: Modules, events: seq<Event>): int
  {
    if events == [] then 0
    else
      var before := events[..|events| - 1];
      IssuedMinusFees(m, before) +
      match events[|events| - 1]
      case Reboot => 0
      case Process(b) => if Commits(Run(FIRST_NODE, m, before), m, b) then TxsNet(R.LedgerTxs(b)) else 0
  }

  ghost predicate Readable(data: Contents)
  {
    MainBlockOf(data).Returned? && BalancesGood(data, LastNumber(data))
  }

  lemma FirstReadable()
    ensures Readable(FIRST_NODE.data) && Total(StoredWorths(FIRST_NODE.data)) == 0
  {
    assert StoredWorths(map[]) == map[];
    TotalEmpty();
  }

  lemma BlockReadable(node: Node, m: Modules, b: Block)
    requires m.balance && Readable(node.data) && EventShape(node, m, Process(b))
    ensures var node' := BlockStep(node, m, b);
            Readable(node'.data) &&
            Wrap(Total(StoredWorths(node'.data))) ==
            Wrap(Total(StoredWorths(node.data)) + if Commits(node, m, b) then TxsNet(R.LedgerTxs(b)) else 0)
  {
    hide BlockShape; hide BalancesGood; hide Total; hide StoredWorths; hide Wrap; hide R.LedgerTxs; hide TxsNet;
    hide BlockWork;
    if Commits(node, m, b) {
      hide Commits; hide BlockStep; hide Stored; hide Plus;
      BlockMerges(node, m, b);
    }
  }

  /** calcBalanceWithoutDelegate of every stored record. */
  function StoredBalances(data: Contents): map<Key, int>
  {
    map k | k in data && IsBalanceKey(k) :: CalcBalanceWithoutDelegate(DecodedBalance(data[k]))
  }

  lemma WorthsAreBalances(data: Contents)
    ensures StoredWorths(data) == StoredBalances(data)
  {
    hide Measure; hide CalcBalanceWithoutDelegate; hide DecodedBalance; hide IsBalanceKey;
    forall k | k in data
      ensures Measure(DecodedBalance(data[k]), Worth) == CalcBalanceWithoutDelegate(DecodedBalance(data[k]))
    {
      WorthIsBalance(DecodedBalance(data[k]));
    }
  }

  /** In every run the sum over all addresses of calcBalanceWithoutDelegate equals, modulo 2^64, what the initial wallet
      issued minus the real fees of the applied transactions. */
  lemma Conservation(m: Modules, events: seq<Event>)
    requires m.balance && RunShape(m, events)
    ensures Readable(Run(FIRST_NODE, m, events).data)
    ensures Wrap(Total(StoredBalances(Run(FIRST_NODE, m, events).data))) == Wrap(IssuedMinusFees(m, events))
  {
    hide *;
    RunWorth(m, events);
    WorthsAreBalances(Run(FIRST_NODE, m, events).data);
  }

  lemma {:induction false} RunWorth(m: Modules, events: seq<Event>)
    requires m.balance && RunShape(m, events)
    ensures Readable(Run(FIRST_NODE, m, events).data)
    ensures Wrap(Total(StoredWorths(Run(FIRST_NODE, m, events).data))) == Wrap(IssuedMinusFees(m, events))
    decreases events
  {
    hide Readable; hide Wrap; hide Total; hide StoredWorths; hide BlockStep; hide Restart; hide Commits;
    hide BlockShape; hide TxsNet;
    if events == [] {
      FirstReadable();
    } else {
      var n := |events| - 1;
      var node := Run(FIRST_NODE, m, events[..n]);
      RunWorth(m, events[..n]);
      match events[n]
      case Reboot => RestartSameData(node);
      case Process(b) =>
        BlockReadable(node, m, b);
        var change := if Commits(node, m, b) then TxsNet(R.LedgerTxs(b)) else 0;
        AddWraps(Total(StoredWorths(node.data)), 0, change);
        AddWraps(IssuedMinusFees(m, events[..n]), 0, change);
    }
  }

  lemma RestartSameData(node: Node)
    ensures Restart(node).data == node.data
  {
  }
}
