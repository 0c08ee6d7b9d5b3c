/** Delegations over whole blocks and whole runs, restarts included. */
module LedgerRuns {
  import opened Bytes
  import opened Serialize
  import opened Store
  import opened Transaction
  import opened BalanceInfo
  import opened Records
  import opened Ledger
  import opened LedgerTerms
  import opened LedgerStack

  // ----- one transaction -----

  /** Delegations are between 25-byte addresses. */
  predicate DelegateShape(tx: Tx)
  {
    tx.delegate.Some? ==> |tx.from| == 25 && |tx.to| == 25 && |tx.hash| < TWO_64
  }

  predicate Pushes(tx: Tx)
  {
    tx.delegate.Some? && tx.delegate.value.isDelegate && Successful(tx)
  }

  /** The checks that can fail: a delegation without a status, or a pushed one without a hash. */
  predicate DelegateThrows(tx: Tx)
  {
    tx.delegate.Some? && (tx.intStatus.None? || (Pushes(tx) && tx.hash == []))
  }

  lemma PairSize(tx: Tx)
    requires tx.delegate.Some? && DelegateShape(tx)
    ensures |PairOf(tx)| == PAIR_SIZE
  {
  }

  /** One transaction acts on the three layers as on one stack, and no internal check of the layers can fail. */
  lemma DelegateStepStack(data: Contents, first: int, w: Work, tx: Tx)
    requires Inv(data, first, w) && !w.thrown && DelegateShape(tx)
    requires Pushes(tx) ==> w.counter >= 1
    ensures var w' := DelegateStep(data, w, tx);
            w'.thrown <==> DelegateThrows(tx)
    ensures var w' := DelegateStep(data, w, tx);
            !w'.thrown ==>
              Inv(data, first, w') &&
              w'.counter == w.counter - (if Pushes(tx) then 1 else 0) &&
              w'.statuses == w.statuses + [Expected(tx, StackOf(Virtual(data, w), PairOf(tx)))] &&
              forall p :: |p| == PAIR_SIZE ==>
                StackOf(Virtual(data, w'), p) == PairStep(tx, p, StackOf(Virtual(data, w), p))
  {
    hide Inv; hide StackOf; hide Virtual; hide PopCache; hide PopStore; hide Push; hide PairOf; hide Stack;
    var v := Virtual(data, w);
    if tx.delegate.None? {
      ReportedInv(data, first, w, NoStatus);
      SameOps(data, w, Reported(w, NoStatus));
    } else if tx.intStatus.Some? {
      var p := PairOf(tx);
      PairSize(tx);
      if tx.delegate.value.isDelegate {
        var ok := !tx.IsNotSuccess();
        var d := DelegateState(tx.delegate.value.value, tx.hash);
        if ok && tx.hash == [] {
          PushThrows(w, p, d);
        } else {
          var w1 := if ok then Push(w, p, d) else w;
          if ok { PushStep(data, first, w, p, d); }
          ReportedInv(data, first, w1, Delegating(ok));
          SameOps(data, w1, Reported(w1, Delegating(ok)));
        }
      } else if Stack(w, p) != [] {
        PopCacheStep(data, first, w, p);
      } else {
        PopStoreStep(data, first, w, p);
      }
    }
  }

  lemma PushThrows(w: Work, p: Data, d: DelegateState)
    requires d.hash == []
    ensures Push(w, p, d).thrown
  {
  }

  // ----- rows and entries leave the delegations alone -----

  predicate RowOk(a: Action)
  {
    a.Row? ==> a.prefix == ADDRESS_PREFIX || a.prefix == ADDRESS_TOKEN_PREFIX
  }

  function RowCount(actions: seq<Action>): (r: nat)
    ensures r <= |actions|
  {
    if actions == [] then 0 else (if actions[0].Row? then 1 else 0) + RowCount(actions[1..])
  }

  /** Drawing numbers does not disturb what was saved or deleted earlier. */
  lemma SmallerCounter(data: Contents, first: int, w: Work, w': Work)
    requires w'.save == w.save && w'.deleted == w.deleted && w'.cache == w.cache && w'.counter <= w.counter
    ensures SavedGood(data, first, w) ==> SavedGood(data, first, w')
    ensures DeletedOld(w) ==> DeletedOld(w')
    ensures (forall p :: |p| == PAIR_SIZE ==> CacheOk(w, p)) ==> forall p :: |p| == PAIR_SIZE ==> CacheOk(w', p)
  {
    hide Less; hide KeyCounter; hide DelegatePrefix; hide IsDelegateKey; hide DeserDelegateState;
    forall p | CacheOk(w, p) ensures CacheOk(w', p) { assert Stack(w', p) == Stack(w, p); }
  }

  /** A write outside the delegation family. */
  lemma ForeignPut(data: Contents, first: int, w: Work, w': Work, k: Key, x: Data)
    requires Inv(data, first, w) && !IsDelegateKey(k)
    requires w' == w.(ops := w.ops + [Put(k, x)], counter := w'.counter) && w'.counter <= w.counter
    ensures Inv(data, first, w') && Virtual(data, w') == Virtual(data, w)[k := x]
    ensures SameDelegates(Virtual(data, w'), Virtual(data, w))
  {
    hide IsDelegateKey; hide ApplyOps; hide SavedGood; hide DeletedOld; hide CacheOk; hide GoodStore;
    ApplyOpsAppend(data, w.ops, Put(k, x));
    SmallerCounter(data, first, w, w');
  }

  lemma HistoryKeyForeign(prefix: Data, address: Address, c: u64)
    requires prefix == ADDRESS_PREFIX || prefix == ADDRESS_TOKEN_PREFIX
    ensures !IsDelegateKey(HistoryKey(prefix, address, c))
  {
    assert HistoryKey(prefix, address, c)[0] == prefix[0];
  }

  lemma SameRest(data: Contents, first: int, w: Work, w': Work)
    requires Inv(data, first, w)
    requires w' == w.(balances := w'.balances, statuses := w'.statuses, thrown := w'.thrown, counter := w'.counter)
    requires w'.counter <= w.counter
    ensures Inv(data, first, w') && Virtual(data, w') == Virtual(data, w)
  {
    hide IsDelegateKey; hide ApplyOps; hide SavedGood; hide DeletedOld; hide CacheOk; hide GoodStore;
    SmallerCounter(data, first, w, w');
  }

  lemma PerformKeeps(data: Contents, first: int, w: Work, tx: Tx, a: Action)
    requires Inv(data, first, w) && RowOk(a) && (a.Row? && !w.thrown ==> w.counter >= 1)
    ensures var w' := Perform(w, tx, a);
            Inv(data, first, w') && SameDelegates(Virtual(data, w'), Virtual(data, w)) && w'.statuses == w.statuses &&
            (!w'.thrown ==> w'.counter == w.counter - if a.Row? then 1 else 0)
  {
    hide Inv; hide Virtual; hide SameDelegates; hide SerAddressInfo; hide HistoryKey; hide Apply; hide Applies;
    var w' := Perform(w, tx, a);
    SameSame(Virtual(data, w));
    if a.Row? && !w.thrown {
      HistoryKeyForeign(a.prefix, a.address, w.counter);
      var info := AddressInfo(FilePosition(tx.fileName, tx.filePos), tx.blockNumber, tx.blockIndex, None);
      if AddressWritable(info) {
        ForeignPut(data, first, w, w', HistoryKey(a.prefix, a.address, w.counter), SerAddressInfo(info));
      } else {
        SameRest(data, first, w, w');
      }
    } else {
      SameRest(data, first, w, w');
    }
  }

  lemma SameSame(v: Contents)
    ensures SameDelegates(v, v)
  {
  }

  lemma SameTrans(a: Contents, b: Contents, c: Contents)
    requires SameDelegates(a, b) && SameDelegates(b, c)
    ensures SameDelegates(a, c)
  {
    hide IsDelegateKey;
  }

  lemma {:induction false} PerformAllKeeps(data: Contents, first: int, w: Work, tx: Tx, actions: seq<Action>)
    requires Inv(data, first, w) && (forall a :: a in actions ==> RowOk(a)) &&
             (!w.thrown ==> w.counter >= RowCount(actions))
    ensures var w' := PerformAll(w, tx, actions);
            Inv(data, first, w') && SameDelegates(Virtual(data, w'), Virtual(data, w)) && w'.statuses == w.statuses &&
            (!w'.thrown ==> !w.thrown && w'.counter == w.counter - RowCount(actions))
    decreases actions
  {
    hide Inv; hide Virtual; hide SameDelegates; hide Perform; hide RowOk;
    SameSame(Virtual(data, w));
    if actions != [] {
      var w1 := Perform(w, tx, actions[0]);
      PerformKeeps(data, first, w, tx, actions[0]);
      PerformThrown(w, tx, actions[0]);
      PerformAllKeeps(data, first, w1, tx, actions[1..]);
      SameTrans(Virtual(data, PerformAll(w, tx, actions)), Virtual(data, w1), Virtual(data, w));
    }
  }

  lemma PerformThrown(w: Work, tx: Tx, a: Action)
    ensures w.thrown ==> Perform(w, tx, a).thrown
  {
  }

  // ----- how many numbers a transaction draws -----

  /** The history rows of a successful token transaction: one for every address it names. */
  function TokenDraws(tx: Tx, info: TokenInfo): nat
  {
    match info
    case Create(_, _, begin) => 1 + |begin|
    case ChangeOwner(_) => 2
    case ChangeEmission => 1
    case AddTokens(_, _) => 1
    case MoveTokens(to, _) => if tx.from == to then 1 else 2
    case BurnTokens(_) => 1
  }

  /** One for a pushed delegation, one for each address with a history, and those of the tokens. */
  function Draws(tx: Tx, m: Modules): nat
  {
    (if Pushes(tx) then 1 else 0) +
    (if !m.addrTxs || !Counted(tx) then 0
     else (if tx.from != [] then 1 else 0) + if tx.to != [] && tx.to != tx.from then 1 else 0) +
    (if m.txs && tx.tokenInfo.Some? && Successful(tx) then TokenDraws(tx, tx.tokenInfo.value) else 0)
  }

  lemma {:induction false} RowCountConcat(a: seq<Action>, b: seq<Action>)
    ensures RowCount(a + b) == RowCount(a) + RowCount(b)
  {
    if a == [] {
      assert a + b == b;
    } else {
      assert (a + b)[1..] == a[1..] + b;
      RowCountConcat(a[1..], b);
    }
  }

  lemma AddressRows(tx: Tx, address: Address, status: TxStatus, m: Modules, isForging: bool)
    ensures RowCount(AddressActions(tx, address, status, m, isForging)) ==
            if address != [] && Counted(tx) && m.addrTxs then 1 else 0
    ensures forall a :: a in AddressActions(tx, address, status, m, isForging) ==> RowOk(a)
  {
    if address != [] && Counted(tx) {
      var rows := if m.addrTxs then [Row(ADDRESS_PREFIX, address)] else [];
      var s := AddressActions(tx, address, status, m, isForging);
      PostsCount(s[|rows|..]);
      assert s == rows + s[|rows|..];
      RowCountConcat(rows, s[|rows|..]);
    }
  }

  lemma {:induction false} PostsCount(posts: seq<Action>)
    requires forall a :: a in posts ==> a.Post?
    ensures RowCount(posts) == 0
  {
    if posts != [] {
      assert posts[0] in posts;
      PostsCount(posts[1..]);
    }
  }

  lemma {:induction false} RowsCount(rows: seq<Action>)
    requires forall a :: a in rows ==> a.Row?
    ensures RowCount(rows) == |rows|
  {
    if rows != [] {
      assert rows[0] in rows;
      RowsCount(rows[1..]);
    }
  }

  lemma TxRowCount(tx: Tx, m: Modules)
    ensures RowCount(TxRows(tx, m)) == if m.txs && tx.tokenInfo.Some? && Successful(tx)
              then TokenDraws(tx, tx.tokenInfo.value) else 0
  {
    if m.txs {
      assert [Keep][1..] == [];
      assert RowCount([Keep]) == 0;
      if tx.tokenInfo.Some? && Successful(tx) {
        var rows := TokenRows(tx, tx.tokenInfo.value);
        RowCountConcat([Keep], rows);
        RowsCount(rows);
      } else {
        assert TxRows(tx, m) == [Keep];
      }
    }
  }

  lemma TokenPostCount(tx: Tx, info: TokenInfo)
    ensures RowCount(TokenPosts(tx, info)) == 0
  {
    PostsCount(TokenPosts(tx, info));
  }

  lemma ActionsCount(tx: Tx, status: TxStatus, m: Modules, isForging: bool)
    ensures RowCount(ActionsOf(tx, status, m, isForging)) ==
            RowCount(AddressActions(tx, tx.from, status, m, isForging)) +
            (if tx.from != tx.to then RowCount(AddressActions(tx, tx.to, status, m, isForging)) else 0) +
            RowCount(TxRows(tx, m)) +
            (if m.balance && tx.tokenInfo.Some? then RowCount(TokenPosts(tx, tx.tokenInfo.value)) else 0)
  {
    hide AddressActions; hide RowCount; hide TxRows; hide TokenPosts;
    var a := AddressActions(tx, tx.from, status, m, isForging);
    var b := if tx.from != tx.to then AddressActions(tx, tx.to, status, m, isForging) else [];
    var t := TxRows(tx, m);
    var q := if m.balance && tx.tokenInfo.Some? then TokenPosts(tx, tx.tokenInfo.value) else [];
    RowCountConcat(a, b + (t + q));
    RowCountConcat(b, t + q);
    RowCountConcat(t, q);
    NoRows();
  }

  lemma NoRows()
    ensures RowCount([]) == 0
  {
  }

  lemma ActionRows(tx: Tx, status: TxStatus, m: Modules, isForging: bool)
    ensures (if Pushes(tx) then 1 else 0) + RowCount(ActionsOf(tx, status, m, isForging)) == Draws(tx, m)
    ensures forall a :: a in ActionsOf(tx, status, m, isForging) ==> RowOk(a)
  {
    hide AddressActions; hide RowOk; hide Pushes; hide TokenDraws; hide ActionsOf; hide RowCount; hide TxRows;
    hide TokenPosts; hide Counted; hide Successful;
    ActionRowsOk(tx, status, m, isForging);
    ActionsCount(tx, status, m, isForging);
    AddressRows(tx, tx.from, status, m, isForging);
    AddressRows(tx, tx.to, status, m, isForging);
    TxRowCount(tx, m);
    if tx.tokenInfo.Some? { TokenPostCount(tx, tx.tokenInfo.value); }
  }

  lemma ActionRowsOk(tx: Tx, status: TxStatus, m: Modules, isForging: bool)
    ensures forall a :: a in ActionsOf(tx, status, m, isForging) ==> RowOk(a)
  {
    AddressRows(tx, tx.from, status, m, isForging);
    AddressRows(tx, tx.to, status, m, isForging);
    hide AddressActions; hide RowOk;
    TokenActionsOk(tx, m);
    hide TxRows; hide TokenPosts;
  }

  lemma TokenRowsOk(tx: Tx, info: TokenInfo)
    ensures forall a :: a in TokenRows(tx, info) ==> RowOk(a)
  {
  }

  lemma TokenPostsOk(tx: Tx, info: TokenInfo)
    ensures forall a :: a in TokenPosts(tx, info) ==> RowOk(a)
  {
  }

  lemma TokenActionsOk(tx: Tx, m: Modules)
    ensures forall a :: a in TxRows(tx, m) ==> RowOk(a)
    ensures tx.tokenInfo.Some? ==> forall a :: a in TokenPosts(tx, tx.tokenInfo.value) ==> RowOk(a)
  {
    hide TokenRows; hide TokenPosts;
    if tx.tokenInfo.Some? {
      TokenRowsOk(tx, tx.tokenInfo.value);
      TokenPostsOk(tx, tx.tokenInfo.value);
    }
  }

  // ----- one transaction, completely -----

  predicate AnyModule(m: Modules) { m.balance || m.txs || m.addrTxs }

  lemma TxStepStack(data: Contents, first: int, m: Modules, isForging: bool, w: Work, tx: Tx)
    requires Inv(data, first, w) && DelegateShape(tx) && AnyModule(m)
    requires Draws(tx, m) <= w.counter
    requires !TxStep(data, m, isForging, w, tx).thrown
    ensures var w' := TxStep(data, m, isForging, w, tx);
            Inv(data, first, w') && !w.thrown && w'.counter == w.counter - Draws(tx, m) &&
            w'.statuses == w.statuses + [Expected(tx, StackOf(Virtual(data, w), PairOf(tx)))]
    ensures forall p :: |p| == PAIR_SIZE ==>
              StackOf(Virtual(data, TxStep(data, m, isForging, w, tx)), p) ==
                PairStep(tx, p, StackOf(Virtual(data, w), p))
  {
    hide Inv; hide StackOf; hide Virtual; hide DelegateStep; hide ActionsOf; hide PairStep; hide SameDelegates;
    hide Expected;
    hide RowOk; hide DelegateShape; hide PairOf; hide DelegateThrows;
    DelegateStepStack(data, first, w, tx);
    var w1 := DelegateStep(data, w, tx);
    if !w1.thrown {
      ActionRows(tx, LastStatus(w1), m, isForging);
      var actions := ActionsOf(tx, LastStatus(w1), m, isForging);
      PerformAllKeeps(data, first, w1, tx, actions);
      var w2 := PerformAll(w1, tx, actions);
      forall p | |p| == PAIR_SIZE ensures StackOf(Virtual(data, w2), p) == StackOf(Virtual(data, w1), p) {
        SameStacks(Virtual(data, w2), Virtual(data, w1), p);
      }
    }
  }

  // ----- a block -----

  /** The stack of a pair after a list of transactions. */
  function PairRun(txs: seq<Tx>, p: Data, s: seq<DelegateState>): seq<DelegateState>
  {
    if txs == [] then s else PairStep(txs[|txs| - 1], p, PairRun(txs[..|txs| - 1], p, s))
  }

  function TotalDraws(txs: seq<Tx>, m: Modules): nat
  {
    if txs == [] then 0 else TotalDraws(txs[..|txs| - 1], m) + Draws(txs[|txs| - 1], m)
  }

  /** Every status of the block is the one its pair's stack prescribes at that point. */
  ghost predicate Reports(txs: seq<Tx>, statuses: seq<TxStatus>, data: Contents)
  {
    |statuses| == |txs| &&
    forall i :: 0 <= i < |txs| ==>
      statuses[i] == Expected(txs[i], PairRun(txs[..i], PairOf(txs[i]), StackOf(data, PairOf(txs[i]))))
  }

  lemma {:induction false} TxStepsStack(data: Contents, first: u64, m: Modules, isForging: bool, txs: seq<Tx>)
    requires GoodStore(data, first) && AnyModule(m) && TotalDraws(txs, m) <= first
    requires forall tx :: tx in txs ==> DelegateShape(tx)
    requires !TxSteps(data, m, isForging, StartWork(first), txs).thrown
    ensures var w := TxSteps(data, m, isForging, StartWork(first), txs);
            Inv(data, first, w) && w.counter == first - TotalDraws(txs, m) && Reports(txs, w.statuses, data)
    ensures forall p :: |p| == PAIR_SIZE ==>
              StackOf(Virtual(data, TxSteps(data, m, isForging, StartWork(first), txs)), p) ==
                PairRun(txs, p, StackOf(data, p))
    decreases txs
  {
    hide Inv; hide StackOf; hide Virtual; hide TxStep; hide PairStep; hide Expected; hide DelegateShape; hide PairOf;
    hide Draws;
    var start := StartWork(first);
    StartInv(data, first);
    if txs != [] {
      var n := |txs| - 1;
      var before, tx := txs[..n], txs[n];
      var w := TxSteps(data, m, isForging, start, before);
      ThrownSticks(data, m, isForging, w, tx);
      TxStepsStack(data, first, m, isForging, before);
      TxStepStack(data, first, m, isForging, w, tx);
      if DelegateShape(tx) { ExpectedOther(data, w, before, tx); }
      ReportsNext(txs, w.statuses, data, Expected(tx, StackOf(Virtual(data, w), PairOf(tx))));
    }
  }

  lemma ThrownSticks(data: Contents, m: Modules, isForging: bool, w: Work, tx: Tx)
    ensures w.thrown ==> TxStep(data, m, isForging, w, tx).thrown
  {
  }

  /** The reported status only depends on the stack of the transaction's own pair. */
  lemma ExpectedOther(data: Contents, w: Work, before: seq<Tx>, tx: Tx)
    requires DelegateShape(tx)
    requires forall p :: |p| == PAIR_SIZE ==> StackOf(Virtual(data, w), p) == PairRun(before, p, StackOf(data, p))
    ensures Expected(tx, StackOf(Virtual(data, w), PairOf(tx))) ==
            Expected(tx, PairRun(before, PairOf(tx), StackOf(data, PairOf(tx))))
  {
    hide StackOf; hide Virtual; hide PairRun; hide PairOf;
    if tx.delegate.Some? { PairSize(tx); }
  }

  lemma ReportsNext(txs: seq<Tx>, statuses: seq<TxStatus>, data: Contents, next: TxStatus)
    requires txs != [] && Reports(txs[..|txs| - 1], statuses, data)
    requires var tx := txs[|txs| - 1];
             next == Expected(tx, PairRun(txs[..|txs| - 1], PairOf(tx), StackOf(data, PairOf(tx))))
    ensures Reports(txs, statuses + [next], data)
  {
    hide StackOf; hide PairRun; hide PairOf; hide Expected;
    var before := txs[..|txs| - 1];
    forall i | 0 <= i < |txs|
      ensures (statuses + [next])[i] == Expected(txs[i],
              PairRun(txs[..i], PairOf(txs[i]), StackOf(data, PairOf(txs[i]))))
    {
      if i < |before| {
        assert before[..i] == txs[..i] && before[i] == txs[i];
      }
    }
  }

  // ----- merging balances and writing the block record -----

  lemma {:induction false} MergeAllKeeps(data: Contents, first: int, number: u64, w: Work, addresses: seq<Data>)
    requires Inv(data, first, w)
    ensures var w' := MergeAll(data, number, w, addresses);
            Inv(data, first, w') && SameDelegates(Virtual(data, w'), Virtual(data, w)) &&
            w'.counter == w.counter && w'.statuses == w.statuses && (w.thrown ==> w'.thrown)
    decreases addresses
  {
    hide Inv; hide Virtual; hide SameDelegates; hide StoredBalance; hide SerBalance; hide BalanceOf; hide BalanceKey;
    hide Plus;
    SameSame(Virtual(data, w));
    if addresses != [] {
      var n := |addresses| - 1;
      var bd := addresses[n];
      var w1 := MergeAll(data, number, w, addresses[..n]);
      var w2 := MergeOne(data, number, w1, bd);
      MergeAllKeeps(data, first, number, w, addresses[..n]);
      SameSame(Virtual(data, w1));
      if w2.ops == w1.ops {
        SameRest(data, first, w1, w2);
      } else {
        BalanceKeyForeign(bd);
        ForeignPut(data, first, w1, w2, BalanceKey(bd),
          SerBalance(Plus(StoredBalance(data, bd).value, BalanceOf(w1.balances, bd))));
      }
      SameTrans(Virtual(data, w2), Virtual(data, w1), Virtual(data, w));
    }
  }

  lemma BalanceKeyForeign(bd: Data)
    ensures !IsDelegateKey(BalanceKey(bd)) && BalanceKey(bd) != MAIN_BLOCK_KEY
  {
    assert BalanceKey(bd)[0] == 105;
  }

  /** The transactions a block of this kind carries into the ledger. */
  function LedgerTxs(b: Block): seq<Tx>
  {
    if b.kind.Forging? || b.kind.Simple? then b.txs else []
  }

  /** The block's delegations are between 25-byte addresses, its hash fits, and the counter does not run out. */
  predicate BlockFits(node: Node, m: Modules, b: Block)
  {
    (forall tx :: tx in LedgerTxs(b) ==> DelegateShape(tx)) && |b.hash| < TWO_64 &&
      TotalDraws(LedgerTxs(b), m) <= node.counter
  }

  /** The batch after the transactions of the block. */
  function TxWork(node: Node, m: Modules, b: Block): Work
  {
    TxSteps(node.data, m, b.kind.Forging?, StartWork(node.counter), LedgerTxs(b))
  }

  lemma BlockWorkShape(node: Node, m: Modules, b: Block)
    requires !BlockWork(node, m, b).thrown
    ensures var w := TxWork(node, m, b);
            var w' := if m.balance then MergeAll(node.data, b.number, w, SortedKeys(w.balances.Keys)) else w;
            !w'.thrown && BlockWork(node, m, b) ==
            w'.(ops := w'.ops + [Put(MAIN_BLOCK_KEY, SerMainBlock(MainBlockInfo(b.number, b.hash, w'.counter)))])
  {
    hide TxSteps; hide MergeAll; hide SortedKeys; hide SerMainBlock;
    assert b.kind.Other? || b.kind.State? ==> TxWork(node, m, b) == StartWork(node.counter) by { NoTxs(node, m, b); }
    var failed := Failed(StartWork(node.counter));
    MergeThrown(node.data, b.number, failed, SortedKeys(failed.balances.Keys));
  }

  lemma NoTxs(node: Node, m: Modules, b: Block)
    ensures b.kind.Other? || b.kind.State? ==> TxWork(node, m, b) == StartWork(node.counter)
  {
  }

  /** The stored record of the last block. */
  ghost predicate LastRecord(data: Contents, info: MainBlockInfo)
  {
    MainBlockOf(data) == Returned(info)
  }

  lemma BlockCommit(node: Node, m: Modules, b: Block)
    requires GoodStore(node.data, node.counter) && AnyModule(m) && BlockFits(node, m, b) && Commits(node, m, b)
    ensures var node' := BlockStep(node, m, b);
            GoodStore(node'.data, node'.counter) &&
            LastRecord(node'.data, MainBlockInfo(b.number, b.hash, node'.counter)) &&
            node'.counter == node.counter - TotalDraws(LedgerTxs(b), m) &&
            Reports(LedgerTxs(b), BlockWork(node, m, b).statuses, node.data)
    ensures forall p :: |p| == PAIR_SIZE ==>
              StackOf(BlockStep(node, m, b).data, p) == PairRun(LedgerTxs(b), p, StackOf(node.data, p))
  {
    hide TxSteps; hide SortedKeys; hide SerMainBlock; hide Accepted; hide StackOf; hide PairRun; hide Inv;
    hide GoodStore;
    hide Virtual; hide SameDelegates; hide Reports; hide LedgerTxs; hide TotalDraws; hide MainBlockOf; hide MergeAll;
    hide BlockWork;
    hide DelegateShape; hide LastRecord;
    BlockWorkShape(node, m, b);
    var txs, data := LedgerTxs(b), node.data;
    var w := TxWork(node, m, b);
    var w1 := if m.balance then MergeAll(data, b.number, w, SortedKeys(w.balances.Keys)) else w;
    var info := MainBlockInfo(b.number, b.hash, w1.counter);
    var w2 := BlockWork(node, m, b);
    assert !w.thrown by { if w.thrown && m.balance { MergeThrown(data, b.number, w, SortedKeys(w.balances.Keys)); } }
    TxStepsStack(data, node.counter, m, b.kind.Forging?, txs);
    SameSame(Virtual(data, w));
    if m.balance { MergeAllKeeps(data, node.counter, b.number, w, SortedKeys(w.balances.Keys)); }
    MainKeyForeign();
    ForeignPut(data, node.counter, w1, w2, MAIN_BLOCK_KEY, SerMainBlock(info));
    SameTrans(Virtual(data, w2), Virtual(data, w1), Virtual(data, w));
    CommittedGood(data, node.counter, w2);
    WrittenRecord(Virtual(data, w1), info);
    VirtualIsCommit(data, w2);
    forall p | |p| == PAIR_SIZE ensures StackOf(Virtual(data, w2), p) == StackOf(Virtual(data, w), p) {
      SameStacks(Virtual(data, w2), Virtual(data, w), p);
    }
  }

  lemma {:induction false} MergeThrown(data: Contents, number: u64, w: Work, addresses: seq<Data>)
    requires w.thrown
    ensures MergeAll(data, number, w, addresses).thrown
    decreases addresses
  {
    if addresses != [] { MergeThrown(data, number, w, addresses[..|addresses| - 1]); }
  }

  lemma VirtualIsCommit(data: Contents, w: Work)
    ensures Virtual(data, w) == ApplyOps(data, w.ops)
  {
  }

  lemma MainKeyForeign()
    ensures !IsDelegateKey(MAIN_BLOCK_KEY)
  {
    assert MAIN_BLOCK_KEY[0] != DELEGATE_PREFIX[0];
  }

  lemma WrittenRecord(v: Contents, info: MainBlockInfo)
    requires |info.blockHash| < TWO_64
    ensures LastRecord(v[MAIN_BLOCK_KEY := SerMainBlock(info)], info)
  {
    hide SerMainBlock; hide DeserMainBlock;
    MainBlockRoundTrip(info);
  }

  /** A committed store is well formed again, above the counter the block ended with. */
  lemma CommittedGood(data: Contents, first: int, w: Work)
    requires Inv(data, first, w)
    ensures GoodStore(Virtual(data, w), w.counter)
  {
    hide KeyCounter; hide IsDelegateKey; hide DeserDelegateState; hide Virtual; hide CacheOk;
  }

  // ----- runs -----

  /** The counter is below every stored number, and so is the saved one a restart will use. */
  ghost predicate NodeInv(node: Node)
  {
    GoodStore(node.data, node.counter) && MainBlockOf(node.data).Returned? &&
    if MainBlockOf(node.data).value == NO_MAIN_BLOCK
    then forall k :: k in node.data ==> !IsDelegateKey(k)
    else GoodStore(node.data, MainBlockOf(node.data).value.countVal)
  }

  /** What the environment owes an event: 25-byte addresses, and a counter that has not run down to zero. */
  predicate EventFits(node: Node, m: Modules, e: Event)
  {
    match e
    case Process(b) => Accepted(node.data, b) ==> BlockFits(node, m, b)
    case Reboot =>
      var info := MainBlockOf(node.data);
      info.Returned? && info.value != NO_MAIN_BLOCK ==> info.value.countVal >= 1
  }

  predicate RunFits(m: Modules, events: seq<Event>)
  {
    events == [] ||
    (RunFits(m, events[..|events| - 1]) &&
     EventFits(Run(FIRST_NODE, m, events[..|events| - 1]), m, events[|events| - 1]))
  }

  /** The stack of a pair according to the blocks that were committed, whatever was retried, refused or restarted. */
  function StackAfter(m: Modules, events: seq<Event>, p: Data): seq<DelegateState>
  {
    if events == [] then []
    else
      var before := events[..|events| - 1];
      var s := StackAfter(m, before, p);
      match events[|events| - 1]
      case Reboot => s
      case Process(b) => if Commits(Run(FIRST_NODE, m, before), m, b) then PairRun(LedgerTxs(b), p, s) else s
  }

  lemma LowerFloor(data: Contents, a: int, b: int)
    requires GoodStore(data, a) && b <= a
    ensures GoodStore(data, b)
  {
    hide KeyCounter; hide IsDelegateKey; hide DeserDelegateState;
  }

  lemma EmptyStore(data: Contents, floor: int)
    requires forall k :: k in data ==> !IsDelegateKey(k)
    ensures GoodStore(data, floor)
  {
  }

  /** A block that is refused or fails leaves the data alone and at most lowers the counter. */
  lemma NotCommitted(node: Node, m: Modules, b: Block)
    requires GoodStore(node.data, node.counter) && AnyModule(m) && !Commits(node, m, b)
    requires Accepted(node.data, b) ==> BlockFits(node, m, b)
    ensures BlockStep(node, m, b).data == node.data
    ensures BlockStep(node, m, b).counter <= node.counter
  {
    hide BlockWork; hide GoodStore; hide BlockFits;
    if Accepted(node.data, b) { CounterFalls(node, m, b); }
  }

  lemma CounterFalls(node: Node, m: Modules, b: Block)
    requires GoodStore(node.data, node.counter) && AnyModule(m) && BlockFits(node, m, b)
    ensures BlockWork(node, m, b).counter <= node.counter
  {
    hide TxSteps; hide MergeAll; hide SortedKeys; hide SerMainBlock; hide GoodStore; hide LedgerTxs; hide Inv;
    NoTxs(node, m, b);
    TxStepsCounter(node.data, node.counter, m, b.kind.Forging?, LedgerTxs(b));
    var w := TxWork(node, m, b);
    MergeCounter(node.data, b.number, w, SortedKeys(w.balances.Keys));
    MergeCounter(node.data, b.number, Failed(StartWork(node.counter)),
      SortedKeys(Failed(StartWork(node.counter)).balances.Keys));
    assert b.kind.Forging? || b.kind.Simple? ==> LedgerTxs(b) == b.txs by { LedgerTxsOf(b); }
  }

  lemma LedgerTxsOf(b: Block)
    ensures b.kind.Forging? || b.kind.Simple? ==> LedgerTxs(b) == b.txs
  {
  }

  lemma {:induction false} MergeCounter(data: Contents, number: u64, w: Work, addresses: seq<Data>)
    ensures MergeAll(data, number, w, addresses).counter == w.counter
    decreases addresses
  {
    hide StoredBalance; hide SerBalance; hide BalanceOf; hide BalanceKey; hide Plus;
    if addresses != [] { MergeCounter(data, number, w, addresses[..|addresses| - 1]); }
  }

  lemma {:induction false} PerformAllCounter(w: Work, tx: Tx, actions: seq<Action>)
    requires RowCount(actions) <= w.counter
    ensures w.counter - RowCount(actions) <= PerformAll(w, tx, actions).counter <= w.counter
    decreases actions
  {
    hide SerAddressInfo; hide HistoryKey; hide Apply; hide Applies;
    if actions != [] { PerformAllCounter(Perform(w, tx, actions[0]), tx, actions[1..]); }
  }

  lemma DelegateStepCounter(data: Contents, w: Work, tx: Tx)
    requires Pushes(tx) ==> w.counter >= 1
    ensures DelegateStep(data, w, tx).counter == w.counter ||
            (Pushes(tx) && DelegateStep(data, w, tx).counter == w.counter - 1)
  {
    hide PairOf; hide Push; hide PopCache; hide PopStore;
    if tx.delegate.Some? {
      PopCounter(data, w, PairOf(tx));
      if Pushes(tx) { PushCounter(w, PairOf(tx), DelegateState(tx.delegate.value.value, tx.hash)); }
    }
  }

  lemma PopCounter(data: Contents, w: Work, pair: Data)
    ensures Stack(w, pair) != [] ==> PopCache(w, pair).counter == w.counter
    ensures PopStore(data, w, pair).counter == w.counter
  {
    hide FirstOf; hide DeserDelegateState; hide DelegatePrefix;
  }

  lemma PushCounter(w: Work, pair: Data, d: DelegateState)
    requires w.counter >= 1
    ensures Push(w, pair, d).counter == w.counter - 1
  {
    hide DelegateKey; hide SerDelegateState;
  }

  lemma TxStepCounter(data: Contents, m: Modules, isForging: bool, w: Work, tx: Tx)
    requires Draws(tx, m) <= w.counter
    ensures w.counter - Draws(tx, m) <= TxStep(data, m, isForging, w, tx).counter <= w.counter
  {
    hide DelegateStep; hide ActionsOf; hide PerformAll; hide RowOk;
    DelegateStepCounter(data, w, tx);
    var w1 := DelegateStep(data, w, tx);
    ActionRows(tx, LastStatus(w1), m, isForging);
    PerformAllCounter(w1, tx, ActionsOf(tx, LastStatus(w1), m, isForging));
  }

  /** Draws are counted even for a block that fails half way. */
  lemma {:induction false} TxStepsCounter(data: Contents, first: u64, m: Modules, isForging: bool, txs: seq<Tx>)
    requires TotalDraws(txs, m) <= first
    ensures first - TotalDraws(txs, m) <= TxSteps(data, m, isForging, StartWork(first), txs).counter <= first
    decreases txs
  {
    hide TxStep; hide Draws;
    if txs != [] {
      var n := |txs| - 1;
      TxStepsCounter(data, first, m, isForging, txs[..n]);
      TxStepCounter(data, m, isForging, TxSteps(data, m, isForging, StartWork(first), txs[..n]), txs[n]);
    }
  }

  lemma BlockKeepsNode(node: Node, m: Modules, b: Block)
    requires NodeInv(node) && AnyModule(m) && EventFits(node, m, Process(b))
    ensures NodeInv(BlockStep(node, m, b))
    ensures forall p :: |p| == PAIR_SIZE ==>
              StackOf(BlockStep(node, m, b).data, p) ==
              if Commits(node, m, b) then PairRun(LedgerTxs(b), p, StackOf(node.data, p)) else StackOf(node.data, p)
  {
    hide GoodStore; hide BlockWork; hide StackOf; hide PairRun; hide LedgerTxs; hide IsDelegateKey; hide Reports;
    if Commits(node, m, b) {
      hide BlockStep;
      BlockCommit(node, m, b);
      var node' := BlockStep(node, m, b);
      CommittedRecord(node, m, b, node');
    } else {
      NotCommitted(node, m, b);
      LowerFloor(node.data, node.counter, BlockStep(node, m, b).counter);
    }
  }

  lemma CommittedRecord(node: Node, m: Modules, b: Block, node': Node)
    requires Commits(node, m, b) && LastRecord(node'.data, MainBlockInfo(b.number, b.hash, node'.counter))
    ensures MainBlockOf(node'.data).Returned? && MainBlockOf(node'.data).value != NO_MAIN_BLOCK
    ensures MainBlockOf(node'.data).value.countVal == node'.counter
  {
    hide BlockWork;
  }

  lemma RestartKeepsNode(node: Node, m: Modules)
    requires NodeInv(node) && EventFits(node, m, Reboot)
    ensures NodeInv(Restart(node)) && Restart(node).data == node.data
  {
    hide MainBlockOf; hide IsDelegateKey; hide GoodStore;
    var info := MainBlockOf(node.data).value;
    if info == NO_MAIN_BLOCK {
      EmptyStore(node.data, Restart(node).counter);
    } else {
      LowerFloor(node.data, info.countVal, info.countVal - 1);
      RestartCounter(info.countVal);
    }
  }

  lemma RestartCounter(saved: u64)
    requires saved >= 1
    ensures Restarted(saved) == saved - 1
  {
  }

  lemma FirstNode(p: Data)
    ensures NodeInv(FIRST_NODE) && StackOf(FIRST_NODE.data, p) == []
  {
    hide SortedKeys;
    EmptyStack(map[], p);
    assert PairKeys(map[], p) == {};
  }

  /** Over every run of blocks and restarts the store is, pair by pair, exactly the stack that the committed
      transactions built: nothing is lost, repeated or reordered by the cache, the batch or a restart. */
  lemma {:induction false} RunIsStack(m: Modules, events: seq<Event>, p: Data)
    requires AnyModule(m) && RunFits(m, events) && |p| == PAIR_SIZE
    ensures NodeInv(Run(FIRST_NODE, m, events))
    ensures StackOf(Run(FIRST_NODE, m, events).data, p) == StackAfter(m, events, p)
    decreases events
  {
    hide NodeInv; hide StackOf; hide EventFits; hide PairRun; hide BlockStep; hide Restart; hide Commits;
    if events == [] {
      FirstNode(p);
    } else {
      var n := |events| - 1;
      var node := Run(FIRST_NODE, m, events[..n]);
      RunIsStack(m, events[..n], p);
      match events[n]
      case Reboot => RestartKeepsNode(node, m);
      case Process(b) => BlockKeepsNode(node, m, b);
    }
  }

  /** In every run, each block that commits reports for every transaction the status its pair's stack prescribes:
      an undelegate names the newest outstanding delegation, or value zero and no hash when there is none. */
  lemma RunReports(m: Modules, events: seq<Event>, b: Block)
    requires AnyModule(m) && RunFits(m, events + [Process(b)])
    requires Commits(Run(FIRST_NODE, m, events), m, b)
    ensures var node := Run(FIRST_NODE, m, events);
            Reports(LedgerTxs(b), BlockWork(node, m, b).statuses, node.data)
  {
    hide StackOf; hide PairRun; hide BlockStep; hide BlockWork; hide Reports;
    assert (events + [Process(b)])[..|events|] == events;
    RunIsStack(m, events, seq(PAIR_SIZE, _ => 0));
    BlockCommit(Run(FIRST_NODE, m, events), m, b);
  }

  // ----- why the counter must not run out -----

  /** Of two drawn numbers the later one is the lower key, so that it is found first, unless the counter has passed
      zero: then the later key stands behind the earlier one. */
  lemma NewerKeyFirst(pair: Data, counter: u64)
    ensures Less(DelegateKey(pair, Wrap(counter - 1)), DelegateKey(pair, counter)) <==> counter > 0
  {
    hide Less; hide BigEndian; hide Wrap;
    Pow256Of8();
    DrawnNumber(counter);
    BigEndianOrder(Wrap(counter - 1), counter, 8);
    LessAfterPrefix(DelegatePrefix(pair), SerInt(Wrap(counter - 1)), SerInt(counter));
  }

  lemma DrawnNumber(counter: u64)
    ensures Wrap(counter - 1) < counter <==> counter > 0
  {
  }
}
