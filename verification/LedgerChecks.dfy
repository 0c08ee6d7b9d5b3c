/** Which blocks are committed: exactly the well-formed ones that continue the last committed block. */
module LedgerChecks {
  import opened Bytes
  import opened Store
  import opened Transaction
  import opened BalanceInfo
  import opened Records
  import opened Ledger
  import opened LedgerTerms
  import C = LedgerCommit
  import K = LedgerConservation
  import O = LedgerOrder
  import R = LedgerRuns
  import S = LedgerStack
  import Sums = LedgerSums

  // ----- the checks of a transaction -----

  /** The transaction is stored, or listed in the history of an address. */
  predicate Listed(tx: Tx, m: Modules)
  {
    m.txs || (m.addrTxs && Counted(tx) && (tx.from != [] || tx.to != []))
  }

  /** A delegate transaction has a status, and its hash if it is pushed; a charged sender's size is known; a listed
      transaction says where it stands. */
  predicate TxFine(tx: Tx, m: Modules)
  {
    (tx.delegate.Some? ==> tx.intStatus.Some? && (tx.delegate.value.isDelegate && Successful(tx) ==> tx.hash != [])) &&
    (m.balance && Charged(tx) && tx.from != [] ==> tx.sizeRawTx > 0) &&
    (Listed(tx, m) ==> tx.fileName != [] && tx.blockNumber != 0)
  }

  predicate Fails(tx: Tx, a: Action)
  {
    match a
    case Row(_, _) => tx.fileName == [] || tx.blockNumber == 0
    case Keep => tx.fileName == [] || tx.blockNumber == 0
    case Post(_, entry) => !Applies(entry)
  }

  lemma PerformFails(w: Work, tx: Tx, a: Action)
    ensures Perform(w, tx, a).thrown <==> w.thrown || Fails(tx, a)
  {
    hide Applies; hide Apply; hide SerAddressInfo; hide HistoryKey;
  }

  lemma {:induction false} PerformAllFails(w: Work, tx: Tx, actions: seq<Action>)
    ensures PerformAll(w, tx, actions).thrown <==> w.thrown || exists a :: a in actions && Fails(tx, a)
    decreases actions
  {
    hide Perform; hide Fails;
    if actions != [] {
      PerformFails(w, tx, actions[0]);
      PerformAllFails(Perform(w, tx, actions[0]), tx, actions[1..]);
      assert actions == [actions[0]] + actions[1..];
      InConcat([actions[0]], actions[1..], tx);
      assert actions[0] in [actions[0]];
    }
  }

  lemma SideFails(tx: Tx, address: Address, status: TxStatus, m: Modules, isForging: bool)
    requires Sums.StatusFits(tx, status)
    ensures (exists a :: a in AddressActions(tx, address, status, m, isForging) && Fails(tx, a)) <==>
            address != [] && Counted(tx) &&
            ((m.addrTxs && (tx.fileName == [] || tx.blockNumber == 0)) ||
             (m.balance && Charged(tx) && tx.from == address && tx.sizeRawTx == 0))
  {
    hide Tx.RealFee; hide BdString;
    var actions := AddressActions(tx, address, status, m, isForging);
    if address != [] && Counted(tx) {
      if m.addrTxs { assert actions[0] == Row(ADDRESS_PREFIX, address) && actions[0] in actions; }
      if m.balance {
        var plain := Post(BdString(address), Plain(tx, address, !tx.IsNoBalance(), isForging));
        assert actions[if m.addrTxs then 1 else 0] == plain;
        assert plain in actions;
      }
    }
  }

  lemma RowsFail(tx: Tx, m: Modules)
    ensures (exists a :: a in TxRows(tx, m) && Fails(tx, a)) <==> m.txs && (tx.fileName == [] || tx.blockNumber == 0)
  {
    if m.txs { assert TxRows(tx, m)[0] == Keep && TxRows(tx, m)[0] in TxRows(tx, m); }
  }

  lemma TokenPostsHold(tx: Tx, info: TokenInfo)
    ensures forall a :: a in TokenPosts(tx, info) ==> !Fails(tx, a)
  {
  }

  lemma InConcat(s: seq<Action>, t: seq<Action>, tx: Tx)
    ensures (exists a :: a in s + t && Fails(tx, a)) <==>
            (exists a :: a in s && Fails(tx, a)) || exists a :: a in t && Fails(tx, a)
  {
    hide Fails;
  }

  lemma ActionsFail(tx: Tx, status: TxStatus, m: Modules, isForging: bool)
    requires Sums.StatusFits(tx, status)
    ensures (exists a :: a in ActionsOf(tx, status, m, isForging) && Fails(tx, a)) <==>
            (m.balance && Charged(tx) && tx.from != [] && tx.sizeRawTx == 0) ||
            (Listed(tx, m) && (tx.fileName == [] || tx.blockNumber == 0))
  {
    hide AddressActions; hide TxRows; hide TokenPosts; hide Fails; hide Sums.StatusFits;
    var x := AddressActions(tx, tx.from, status, m, isForging);
    var y := if tx.from != tx.to then AddressActions(tx, tx.to, status, m, isForging) else [];
    var t := TxRows(tx, m);
    var p := if m.balance && tx.tokenInfo.Some? then TokenPosts(tx, tx.tokenInfo.value) else [];
    InConcat(x, y + (t + p), tx);
    InConcat(y, t + p, tx);
    InConcat(t, p, tx);
    SideFails(tx, tx.from, status, m, isForging);
    SideFails(tx, tx.to, status, m, isForging);
    RowsFail(tx, m);
    if tx.tokenInfo.Some? { TokenPostsHold(tx, tx.tokenInfo.value); }
  }

  lemma TxStepFails(data: Contents, first: int, m: Modules, isForging: bool, w: Work, tx: Tx)
    requires S.Inv(data, first, w) && !w.thrown && R.DelegateShape(tx) && R.AnyModule(m) && R.Draws(tx, m) <= w.counter
    ensures TxStep(data, m, isForging, w, tx).thrown <==> !TxFine(tx, m)
  {
    hide S.Inv; hide S.StackOf; hide S.Virtual; hide S.PairStep; hide S.Expected; hide DelegateStep; hide ActionsOf;
    hide PerformAll; hide R.DelegateShape; hide PairOf; hide Listed; hide Fails; hide Sums.StatusFits;
    R.DelegateStepStack(data, first, w, tx);
    var w1 := DelegateStep(data, w, tx);
    if !w1.thrown {
      Sums.DelegateStepStatus(data, w, tx);
      var actions := ActionsOf(tx, LastStatus(w1), m, isForging);
      PerformAllFails(w1, tx, actions);
      ActionsFail(tx, LastStatus(w1), m, isForging);
    }
  }

  lemma {:induction false} TxStepsFail(data: Contents, first: u64, m: Modules, isForging: bool, txs: seq<Tx>)
    requires S.GoodStore(data, first) && R.AnyModule(m) && R.TotalDraws(txs, m) <= first
    requires forall tx :: tx in txs ==> R.DelegateShape(tx)
    ensures TxSteps(data, m, isForging, StartWork(first), txs).thrown <==> exists tx :: tx in txs && !TxFine(tx, m)
    decreases txs
  {
    hide S.Inv; hide S.GoodStore; hide S.StackOf; hide S.Virtual; hide TxStep; hide R.DelegateShape; hide R.Draws;
    hide R.Reports; hide R.PairRun; hide TxFine; hide R.AnyModule;
    if txs != [] {
      var n := |txs| - 1;
      var before, tx := txs[..n], txs[n];
      var w := TxSteps(data, m, isForging, StartWork(first), before);
      TxStepsFail(data, first, m, isForging, before);
      R.ThrownSticks(data, m, isForging, w, tx);
      assert txs == before + [tx];
      if !w.thrown {
        R.TxStepsStack(data, first, m, isForging, before);
        TxStepFails(data, first, m, isForging, w, tx);
      }
    }
  }

  // ----- the checks of a block -----

  /** The number and the hash of a block; (0, []) stands for no block at all. */
  datatype Tip = Tip(number: u64, hash: Data)

  /** The block comes later than the last one and names it, and nothing in it fails a check. */
  predicate Continues(last: Tip, m: Modules, b: Block)
  {
    b.number > last.number && (last.hash == [] || b.prevHash == last.hash) && b.hash != [] &&
    (b.kind.State? ==> b.stateValid) && forall tx :: tx in R.LedgerTxs(b) ==> TxFine(tx, m)
  }

  /** The stored record names this block. */
  ghost predicate TipIs(data: Contents, last: Tip)
  {
    MainBlockOf(data).Returned? && MainBlockOf(data).value.blockNumber == last.number &&
    MainBlockOf(data).value.blockHash == last.hash
  }

  lemma TransactionsFail(node: Node, m: Modules, b: Block)
    requires S.GoodStore(node.data, node.counter) && R.AnyModule(m) && R.BlockFits(node, m, b)
    ensures TransactionWork(node, m, b).thrown <==>
            (b.kind.State? && !b.stateValid) || exists tx :: tx in R.LedgerTxs(b) && !TxFine(tx, m)
  {
    hide TxSteps; hide S.GoodStore; hide TxFine; hide R.DelegateShape; hide R.TotalDraws; hide R.AnyModule;
    TxStepsFail(node.data, node.counter, m, b.kind.Forging?, R.LedgerTxs(b));
  }

  /** Nothing but the checks can refuse a block: neither the merge nor the record. */
  lemma CommitsIff(node: Node, m: Modules, b: Block, last: Tip)
    requires S.GoodStore(node.data, node.counter) && R.AnyModule(m) && R.BlockFits(node, m, b) && TipIs(node.data, last)
    requires m.balance ==> forall bd :: StoredBalance(node.data, bd).Returned?
    ensures Commits(node, m, b) <==> Continues(last, m, b)
  {
    hide TransactionWork; hide S.GoodStore; hide TxFine; hide R.BlockFits; hide R.AnyModule; hide SerMainBlock;
    hide MergeAll; hide SortedKeys; hide StoredBalance; hide MainBlockOf; hide O.WrittenOver; hide R.LedgerTxs;
    TransactionsFail(node, m, b);
    var w := TransactionWork(node, m, b);
    var order := SortedKeys(w.balances.Keys);
    if w.thrown {
      O.ThrownStays(node.data, b.number, w, order);
    } else {
      O.MergeAllWrites(node.data, b.number, w, order);
    }
  }

  // ----- runs -----

  /** The last block of a run that continued its predecessors. */
  function Last(m: Modules, events: seq<Event>): Tip
  {
    if events == [] then Tip(0, [])
    else
      var last := Last(m, events[..|events| - 1]);
      match events[|events| - 1]
      case Reboot => last
      case Process(b) => if Continues(last, m, b) then Tip(b.number, b.hash) else last
  }

  ghost predicate Ready(m: Modules, node: Node, last: Tip)
  {
    R.NodeInv(node) && TipIs(node.data, last) &&
    (m.balance ==> forall bd :: StoredBalance(node.data, bd).Returned?)
  }

  lemma FirstTip()
    ensures TipIs(FIRST_NODE.data, Tip(0, []))
  {
  }

  lemma BlockTip(node: Node, m: Modules, b: Block, last: Tip)
    requires R.AnyModule(m) && Ready(m, node, last) && R.EventFits(node, m, Process(b))
    ensures TipIs(BlockStep(node, m, b).data, if Continues(last, m, b) then Tip(b.number, b.hash) else last)
  {
    hide S.GoodStore; hide R.BlockFits; hide R.AnyModule; hide MainBlockOf; hide BlockWork; hide StoredBalance;
    hide R.LedgerTxs; hide S.StackOf; hide R.PairRun; hide R.Reports; hide S.IsDelegateKey; hide TxFine;
    if Accepted(node.data, b) {
      CommitsIff(node, m, b, last);
      if Commits(node, m, b) { CommittedTip(node, m, b); }
    }
  }

  lemma CommittedTip(node: Node, m: Modules, b: Block)
    requires S.GoodStore(node.data, node.counter) && R.AnyModule(m) && R.BlockFits(node, m, b) && Commits(node, m, b)
    ensures TipIs(BlockStep(node, m, b).data, Tip(b.number, b.hash))
  {
    hide S.GoodStore; hide R.BlockFits; hide R.AnyModule; hide MainBlockOf; hide BlockStep; hide Commits;
    hide R.LedgerTxs; hide S.StackOf; hide R.PairRun; hide R.Reports;
    R.BlockCommit(node, m, b);
  }

  lemma {:induction false} RunReady(m: Modules, events: seq<Event>)
    requires R.AnyModule(m) && R.RunFits(m, events) && (m.balance ==> K.RunShape(m, events))
    ensures Ready(m, Run(FIRST_NODE, m, events), Last(m, events))
    decreases events
  {
    hide R.NodeInv; hide TipIs; hide StoredBalance; hide Continues; hide BlockStep; hide Restart; hide R.EventFits;
    hide K.EventShape; hide C.BalancesGood; hide R.AnyModule;
    R.RunIsStack(m, events, seq(S.PAIR_SIZE, _ => 0));
    if m.balance { RunReadable(m, events); }
    if events == [] {
      FirstTip();
    } else {
      var n := |events| - 1;
      var node := Run(FIRST_NODE, m, events[..n]);
      RunReady(m, events[..n]);
      match events[n]
      case Reboot => K.RestartSameData(node);
      case Process(b) => BlockTip(node, m, b, Last(m, events[..n]));
    }
  }

  lemma RunReadable(m: Modules, events: seq<Event>)
    requires m.balance && K.RunShape(m, events)
    ensures forall bd :: StoredBalance(Run(FIRST_NODE, m, events).data, bd).Returned?
  {
    hide Run; hide K.RunShape; hide StoredBalance; hide MainBlockOf;
    K.Conservation(m, events);
  }

  /** In every run a block is committed exactly when it continues the last committed one and no transaction fails a
      check; the store names that last block. */
  lemma RunCommits(m: Modules, events: seq<Event>, b: Block)
    requires R.AnyModule(m) && R.RunFits(m, events) && (m.balance ==> K.RunShape(m, events))
    requires R.BlockFits(Run(FIRST_NODE, m, events), m, b)
    ensures Commits(Run(FIRST_NODE, m, events), m, b) <==> Continues(Last(m, events), m, b)
    ensures TipIs(Run(FIRST_NODE, m, events).data, Last(m, events))
  {
    hide Commits; hide Continues; hide R.BlockFits; hide R.AnyModule; hide TipIs; hide StoredBalance; hide Run;
    hide R.RunFits; hide K.RunShape; hide MainBlockOf; hide S.GoodStore; hide S.IsDelegateKey;
    RunReady(m, events);
    CommitsIff(Run(FIRST_NODE, m, events), m, b, Last(m, events));
  }

  // ----- a chain of blocks -----

  /** The last block of the events, whatever became of it. */
  function Newest(events: seq<Event>): Tip
  {
    if events == [] then Tip(0, [])
    else
      match events[|events| - 1]
      case Reboot => Newest(events[..|events| - 1])
      case Process(b) => Tip(b.number, b.hash)
  }

  /** Every block continues the one before it. */
  predicate IsChain(m: Modules, events: seq<Event>)
  {
    forall i :: 0 <= i < |events| && events[i].Process? ==> Continues(Newest(events[..i]), m, events[i].block)
  }

  lemma {:induction false} ChainLast(m: Modules, events: seq<Event>)
    requires IsChain(m, events)
    ensures Last(m, events) == Newest(events)
    decreases events
  {
    hide Continues;
    if events != [] {
      var n := |events| - 1;
      forall i | 0 <= i < n ensures events[..n][..i] == events[..i] {}
      ChainLast(m, events[..n]);
    }
  }

  lemma {:induction false} RunPrefix(m: Modules, events: seq<Event>, i: nat)
    requires i <= |events|
    ensures R.RunFits(m, events) ==> R.RunFits(m, events[..i])
    ensures K.RunShape(m, events) ==> K.RunShape(m, events[..i])
    decreases events
  {
    hide R.EventFits; hide K.EventShape; hide Run;
    if i < |events| {
      var n := |events| - 1;
      assert events[..n][..i] == events[..i];
      RunPrefix(m, events[..n], i);
    } else {
      assert events[..i] == events;
    }
  }

  lemma {:induction false} FitsAt(m: Modules, events: seq<Event>, i: nat)
    requires i < |events| && R.RunFits(m, events)
    ensures R.EventFits(Run(FIRST_NODE, m, events[..i]), m, events[i])
  {
    hide R.EventFits; hide Run;
    RunPrefix(m, events, i + 1);
    assert events[..i + 1][..i] == events[..i];
  }

  /** A node that is given a chain of well-formed blocks, with any restarts between them, commits them all. */
  lemma ChainCommits(m: Modules, events: seq<Event>, i: nat)
    requires R.AnyModule(m) && R.RunFits(m, events) && (m.balance ==> K.RunShape(m, events)) && IsChain(m, events)
    requires i < |events| && events[i].Process?
    ensures Commits(Run(FIRST_NODE, m, events[..i]), m, events[i].block)
  {
    hide Continues; hide R.BlockFits; hide TipIs; hide Run; hide R.RunFits; hide K.RunShape; hide R.AnyModule;
    hide BlockWork; hide MainBlockOf;
    RunPrefix(m, events, i);
    FitsAt(m, events, i);
    forall k | 0 <= k < i ensures events[..i][..k] == events[..k] {}
    ChainLast(m, events[..i]);
    AcceptedHere(m, events[..i], events[i].block);
    RunCommits(m, events[..i], events[i].block);
  }

  lemma AcceptedHere(m: Modules, events: seq<Event>, b: Block)
    requires R.AnyModule(m) && R.RunFits(m, events) && (m.balance ==> K.RunShape(m, events))
    requires Continues(Last(m, events), m, b)
    ensures Accepted(Run(FIRST_NODE, m, events).data, b)
  {
    hide Run; hide R.RunFits; hide K.RunShape; hide R.NodeInv; hide MainBlockOf; hide R.AnyModule; hide TxFine;
    RunReady(m, events);
  }
}
