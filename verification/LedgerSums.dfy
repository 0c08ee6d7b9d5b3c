/** The balances agree with the stacks: what an address has delegated out and in is the sum of the outstanding
    delegations. */
module LedgerSums {
  import opened Bytes
  import opened Serialize
  import opened Store
  import opened Transaction
  import opened BalanceInfo
  import opened Records
  import opened Ledger
  import opened LedgerTerms
  import opened LedgerStack
  import opened LedgerRuns
  import opened LedgerMeasures
  import opened Totals
  import C = LedgerCommit
  import K = LedgerConservation

  // ----- the outstanding delegations of an address -----

  /** The sending or the receiving address in a delegation key. */
  function Side(k: Key, q: Which): Data
    requires |k| == KEY_SIZE
  {
    if q == DelegatedOut then k[2..27] else k[28..53]
  }

  /** The amounts of the stored delegations from an address (or to it). */
  function Outstanding(v: Contents, address: Address, q: Which): map<Key, int>
  {
    map k | k in v && IsDelegateKey(k) && |k| == KEY_SIZE && Side(k, q) == address :: Decoded(v[k]).value
  }

  function TxSide(tx: Tx, q: Which): Address { if q == DelegatedOut then tx.from else tx.to }

  lemma KeySides(tx: Tx, k: Key, q: Which)
    requires tx.delegate.Some? && DelegateShape(tx) && |k| == KEY_SIZE && DelegatePrefix(PairOf(tx)) <= k
    ensures IsDelegateKey(k) && Side(k, q) == TxSide(tx, q)
  {
    var p := PairOf(tx);
    PrefixIsDelegate(p, k);
    assert k[..PREFIX_SIZE] == DelegatePrefix(p);
    assert DelegatePrefix(p)[2..27] == tx.from && DelegatePrefix(p)[28..53] == tx.to;
    assert k[2..27] == k[..PREFIX_SIZE][2..27] && k[28..53] == k[..PREFIX_SIZE][28..53];
  }

  lemma PutOutstanding(v: Contents, k: Key, x: Data, address: Address, q: Which)
    requires k !in v && IsDelegateKey(k) && |k| == KEY_SIZE
    ensures Total(Outstanding(v[k := x], address, q)) ==
            Total(Outstanding(v, address, q)) + if Side(k, q) == address then Decoded(x).value else 0
  {
    hide Total; hide IsDelegateKey; hide Side; hide Decoded;
    var m := Outstanding(v, address, q);
    if Side(k, q) == address {
      TotalPut(m, k, Decoded(x).value);
      assert Outstanding(v[k := x], address, q) == m[k := Decoded(x).value];
    } else {
      assert Outstanding(v[k := x], address, q) == m;
    }
  }

  lemma RemoveOutstanding(v: Contents, k: Key, address: Address, q: Which)
    requires k in v && IsDelegateKey(k) && |k| == KEY_SIZE
    ensures Total(Outstanding(v - {k}, address, q)) ==
            Total(Outstanding(v, address, q)) - if Side(k, q) == address then Decoded(v[k]).value else 0
  {
    hide Total; hide IsDelegateKey; hide Side; hide Decoded;
    var m := Outstanding(v, address, q);
    if Side(k, q) == address {
      TotalRemove(m, k);
      assert Outstanding(v - {k}, address, q) == m - {k};
    } else {
      assert Outstanding(v - {k}, address, q) == m;
    }
  }

  lemma SameOutstanding(a: Contents, b: Contents, address: Address, q: Which)
    requires SameDelegates(a, b)
    ensures Outstanding(a, address, q) == Outstanding(b, address, q)
  {
    hide IsDelegateKey; hide Side; hide Decoded;
  }

  // ----- one delegation step -----

  /** How much a reported status changes the outstanding sum of an address. */
  function StatusChange(tx: Tx, status: TxStatus, address: Address, q: Which): int
  {
    if tx.delegate.None? || TxSide(tx, q) != address then 0
    else
      match status
      case NoStatus => 0
      case Delegating(ok) => if ok then tx.delegate.value.value else 0
      case UnDelegating(u, _) => Minus(u)
  }

  lemma PushOutstanding(data: Contents, first: int, w: Work, tx: Tx, address: Address, q: Which)
    requires Inv(data, first, w) && DelegateShape(tx) && Pushes(tx) && w.counter >= 1 && tx.hash != []
    ensures var d := DelegateState(tx.delegate.value.value, tx.hash);
            Total(Outstanding(Virtual(data, Push(w, PairOf(tx), d)), address, q)) ==
            Total(Outstanding(Virtual(data, w), address, q)) + if TxSide(tx, q) == address then d.value else 0
  {
    hide Inv; hide Total; hide Outstanding; hide Virtual; hide Push; hide PairOf; hide DelegateKey;
    hide SerDelegateState; hide Side;
    hide DelegatePrefix; hide IsDelegateKey; hide Decoded; hide PairKeys; hide Less;
    var d, p := DelegateState(tx.delegate.value.value, tx.hash), PairOf(tx);
    PairSize(tx);
    var k := DelegateKey(p, w.counter);
    KeyShape(p, w.counter);
    FreshKey(data, first, w, p);
    PushFields(data, first, w, p, d);
    KeySides(tx, k, q);
    DecodedPush(d);
    PutOutstanding(Virtual(data, w), k, SerDelegateState(d), address, q);
  }

  /** Removing the newest delegation of the transaction's pair. */
  lemma RemovedOutstanding(data: Contents, first: int, w: Work, w0: Work, tx: Tx, k: Key, s: TxStatus, address: Address,
                           q: Which)
    requires Inv(data, first, w) && tx.delegate.Some? && DelegateShape(tx) && w0 == w.(cache := w0.cache)
    requires k in Virtual(data, w) && DelegatePrefix(PairOf(tx)) <= k && |k| == KEY_SIZE
    ensures Total(Outstanding(Virtual(data, Reported(Removed(w0, k), s)), address, q)) ==
            Total(Outstanding(Virtual(data, w), address, q)) - if TxSide(tx, q) == address
              then Decoded(Virtual(data, w)[k]).value else 0
  {
    hide Inv; hide Total; hide Outstanding; hide PairOf; hide Side; hide ApplyOps; hide IsDelegateKey; hide Decoded;
    hide DelegatePrefix;
    KeySides(tx, k, q);
    RemoveOutstanding(Virtual(data, w), k, address, q);
    ApplyOpsAppend(data, w.ops, Delete(k));
  }

  lemma PopCacheOutstanding(data: Contents, first: int, w: Work, tx: Tx, address: Address, q: Which)
    requires Inv(data, first, w) && tx.delegate.Some? && DelegateShape(tx) && Stack(w, PairOf(tx)) != []
    requires !PopCache(w, PairOf(tx)).thrown
    ensures var w' := PopCache(w, PairOf(tx));
            Total(Outstanding(Virtual(data, w'), address, q)) ==
            Total(Outstanding(Virtual(data, w), address, q)) + StatusChange(tx, LastStatus(w'), address, q)
  {
    hide Total; hide Outstanding; hide PairOf; hide DeserDelegateState; hide Virtual; hide KeyCounter;
    hide DelegatePrefix; hide IsDelegateKey; hide Less;
    hide GoodStore; hide DeletedOld; hide Removed;
    var p := PairOf(tx);
    PairSize(tx);
    var s := Stack(w, p);
    var k := s[|s| - 1];
    assert CacheOk(w, p) && k in s;
    PrefixIsDelegate(p, k);
    assert k in Virtual(data, w) && Virtual(data, w)[k] == w.save[k] && |k| == KEY_SIZE;
    var d := Decoded(w.save[k]);
    var w0 := w.(cache := w.cache[p := s[..|s| - 1]]);
    RemovedOutstanding(data, first, w, w0, tx, k, UnDelegating(d.value, d.hash), address, q);
  }

  lemma PopStoreOutstanding(data: Contents, first: int, w: Work, tx: Tx, address: Address, q: Which)
    requires Inv(data, first, w) && tx.delegate.Some? && DelegateShape(tx) && Stack(w, PairOf(tx)) == []
    requires !PopStore(data, w, PairOf(tx)).thrown
    ensures var w' := PopStore(data, w, PairOf(tx));
            Total(Outstanding(Virtual(data, w'), address, q)) ==
            Total(Outstanding(Virtual(data, w), address, q)) + StatusChange(tx, LastStatus(w'), address, q)
  {
    hide Total; hide Outstanding; hide PairOf; hide DeserDelegateState; hide Virtual; hide KeyCounter;
    hide DelegatePrefix; hide Less;
    hide DeletedOld; hide SavedGood; hide BatchMeans; hide CacheOk; hide FirstOf; hide PairKeys; hide Removed;
    var p := PairOf(tx);
    PairSize(tx);
    StoreView(data, first, w, p);
    match FirstOf(data, DelegatePrefix(p), w.deleted)
    case None => SameOps(data, w, Reported(w, UnDelegating(0, [])));
    case Some(k) =>
      assert k in PairKeys(Virtual(data, w), p);
      PairKeyIn(Virtual(data, w), p, k);
      PrefixIsDelegate(p, k);
      assert Good(k, data[k], first);
      var d := Decoded(data[k]);
      RemovedOutstanding(data, first, w, w, tx, k, UnDelegating(d.value, d.hash), address, q);
  }

  lemma DelegateStepOutstanding(data: Contents, first: int, w: Work, tx: Tx, address: Address, q: Which)
    requires Inv(data, first, w) && !w.thrown && DelegateShape(tx) && (Pushes(tx) ==> w.counter >= 1)
    requires !DelegateStep(data, w, tx).thrown
    ensures var w' := DelegateStep(data, w, tx);
            Total(Outstanding(Virtual(data, w'), address, q)) ==
            Total(Outstanding(Virtual(data, w), address, q)) + StatusChange(tx, LastStatus(w'), address, q)
  {
    hide Inv; hide Total; hide Outstanding; hide Virtual; hide PopCache; hide PopStore; hide Push; hide PairOf;
    hide Stack; hide TxSide;
    if tx.delegate.None? {
      SameOps(data, w, Reported(w, NoStatus));
    } else if tx.intStatus.Some? {
      var p := PairOf(tx);
      if tx.delegate.value.isDelegate {
        var ok := !tx.IsNotSuccess();
        var d := DelegateState(tx.delegate.value.value, tx.hash);
        SameOps(data, w, Reported(w, Delegating(ok)));
        SameOps(data, Push(w, p, d), Reported(Push(w, p, d), Delegating(ok)));
        if ok {
          if tx.hash == [] { PushThrows(w, p, d); } else { PushOutstanding(data, first, w, tx, address, q); }
        }
      } else if Stack(w, p) != [] {
        PopCacheOutstanding(data, first, w, tx, address, q);
      } else {
        PopStoreOutstanding(data, first, w, tx, address, q);
      }
    }
  }

  // ----- the balance entries of one transaction -----

  predicate StatusFits(tx: Tx, status: TxStatus)
  {
    match status
    case NoStatus => tx.delegate.None?
    case Delegating(_) => tx.delegate.Some? && tx.delegate.value.isDelegate
    case UnDelegating(_, _) => tx.delegate.Some? && !tx.delegate.value.isDelegate
  }

  lemma DelegateStepStatus(data: Contents, w: Work, tx: Tx)
    requires !DelegateStep(data, w, tx).thrown
    ensures StatusFits(tx, LastStatus(DelegateStep(data, w, tx)))
  {
    hide PairOf; hide Push; hide PopCache; hide PopStore;
    if tx.delegate.Some? && !tx.delegate.value.isDelegate { PopStatus(data, w, PairOf(tx)); }
  }

  lemma PopStatus(data: Contents, w: Work, pair: Data)
    ensures Stack(w, pair) != [] && !PopCache(w, pair).thrown ==> LastStatus(PopCache(w, pair)).UnDelegating?
    ensures !PopStore(data, w, pair).thrown ==> LastStatus(PopStore(data, w, pair)).UnDelegating?
  {
    hide FirstOf; hide DeserDelegateState; hide DelegatePrefix;
  }

  lemma {:induction false} ChangesZero(actions: seq<Action>, bd: Data, q: Which)
    requires forall a :: a in actions ==> ChangeAt(a, bd, q) == 0
    ensures ChangesAt(actions, bd, q) == 0
    decreases actions
  {
    hide ChangeAt;
    if actions != [] {
      assert actions[0] in actions;
      ChangesZero(actions[1..], bd, q);
    }
  }

  lemma OtherChanges(tx: Tx, m: Modules, bd: Data, q: Which)
    ensures ChangesAt(TxRows(tx, m), bd, q) == 0
    ensures tx.tokenInfo.Some? ==> ChangesAt(TokenPosts(tx, tx.tokenInfo.value), bd, q) == 0
  {
    hide TxRows; hide TokenPosts;
    RowsArePlain(tx, m);
    ChangesZero(TxRows(tx, m), bd, q);
    if tx.tokenInfo.Some? {
      TokenPostsAre(tx, tx.tokenInfo.value);
      ChangesZero(TokenPosts(tx, tx.tokenInfo.value), bd, q);
    }
  }

  /** What the entries for one of the two addresses do to what it has delegated. */
  function AddressChange(tx: Tx, address: Address, status: TxStatus, bd: Data, q: Which): int
  {
    if address == [] || bd != address || q == Reserved || TxSide(tx, q) != address then 0
      else StatusChange(tx, status, address, q)
  }

  lemma PostChange(tx: Tx, address: Address, status: TxStatus, q: Which, isForging: bool)
    requires StatusFits(tx, status) && q != Worth && address != [] && status != NoStatus
    requires q == Reserved ==> Applies(Plain(tx, address, !tx.IsNoBalance(), isForging))
    ensures var delegate := WithDelegate(tx, address, if status.UnDelegating? then Some(status.value) else None,
            status.Delegating? ==> status.isSuccess);
            Applies(delegate) &&
            ChangeAt(Post(address, Plain(tx, address, !tx.IsNoBalance(), isForging)), address, q) +
              ChangeAt(Post(address, delegate), address, q) ==
            AddressChange(tx, address, status, address, q)
  {
    hide Tx.RealFee; hide Wrap;
  }

  lemma AddressActionsChange(tx: Tx, address: Address, status: TxStatus, m: Modules, isForging: bool, bd: Data,
                             q: Which)
    requires m.balance && StatusFits(tx, status) && q != Worth && (tx.delegate.Some? ==> Counted(tx))
    requires address != [] ==> Applies(Plain(tx, address, !tx.IsNoBalance(), isForging))
    ensures ChangesAt(AddressActions(tx, address, status, m, isForging), bd, q) ==
            AddressChange(tx, address, status, bd, q)
  {
    var actions := AddressActions(tx, address, status, m, isForging);
    if address == [] || tx.IsNodeTest() || bd != address || status == NoStatus {
      ChangesZero(actions, bd, q);
    } else {
      var rows := if m.addrTxs then [Row(ADDRESS_PREFIX, address)] else [];
      var plain := Post(address, Plain(tx, address, !tx.IsNoBalance(), isForging));
      var delegate := Post(address, WithDelegate(tx, address, if status.UnDelegating? then Some(status.value) else None,
        status.Delegating? ==> status.isSuccess));
      assert actions == rows + [plain, delegate];
      hide AddressActions; hide ChangeAt; hide Applies; hide StatusChange; hide TxSide;
      ChangesConcat(rows, [plain, delegate], bd, q);
      RowsChange(address, bd, q, rows);
      TwoChanges(plain, delegate, bd, q);
      PostChange(tx, address, status, q, isForging);
    }
  }

  lemma RowsChange(address: Address, bd: Data, q: Which, rows: seq<Action>)
    requires rows == [] || rows == [Row(ADDRESS_PREFIX, address)]
    ensures ChangesAt(rows, bd, q) == 0
  {
    ChangesZero(rows, bd, q);
  }

  lemma TwoChanges(a: Action, b: Action, bd: Data, q: Which)
    ensures ChangesAt([a, b], bd, q) == ChangeAt(a, bd, q) + ChangeAt(b, bd, q)
  {
    hide ChangeAt;
    assert [a, b][1..] == [b] && [b][1..] == [];
    assert ChangesAt([b], bd, q) == ChangeAt(b, bd, q) + ChangesAt([], bd, q);
  }

  lemma ActionsChange(tx: Tx, status: TxStatus, m: Modules, isForging: bool, bd: Data, q: Which)
    requires m.balance && StatusFits(tx, status) && q != Worth && (tx.delegate.Some? ==> Counted(tx))
    requires tx.from != [] ==> Applies(Plain(tx, tx.from, !tx.IsNoBalance(), isForging))
    requires DelegateShape(tx) && tx.to != []
    ensures ChangesAt(ActionsOf(tx, status, m, isForging), bd, q) == if q == Reserved then 0
            else StatusChange(tx, status, bd, q)
  {
    ActionsParts(tx, status, m, isForging, bd, q);
    AddressActionsChange(tx, tx.from, status, m, isForging, bd, q);
    AddressActionsChange(tx, tx.to, status, m, isForging, bd, q);
    hide AddressActions; hide ActionsOf; hide ChangesAt;
    SidesChange(tx, status, bd, q);
  }

  /** The change of a transaction is that of its sender's and its receiver's entries. */
  lemma ActionsParts(tx: Tx, status: TxStatus, m: Modules, isForging: bool, bd: Data, q: Which)
    requires m.balance
    ensures ChangesAt(ActionsOf(tx, status, m, isForging), bd, q) ==
              ChangesAt(AddressActions(tx, tx.from, status, m, isForging), bd, q) +
              if tx.from != tx.to then ChangesAt(AddressActions(tx, tx.to, status, m, isForging), bd, q) else 0
  {
    hide AddressActions; hide TxRows; hide TokenPosts; hide ChangeAt;
    var a := AddressActions(tx, tx.from, status, m, isForging);
    var b := if tx.from != tx.to then AddressActions(tx, tx.to, status, m, isForging) else [];
    OtherChanges(tx, m, bd, q);
    var t := TxRows(tx, m);
    var p := if m.balance && tx.tokenInfo.Some? then TokenPosts(tx, tx.tokenInfo.value) else [];
    ChangesConcat(a, b + (t + p), bd, q);
    ChangesConcat(b, t + p, bd, q);
    ChangesConcat(t, p, bd, q);
  }

  lemma SidesChange(tx: Tx, status: TxStatus, bd: Data, q: Which)
    requires StatusFits(tx, status) && q != Worth && (tx.delegate.Some? ==> Counted(tx)) && DelegateShape(tx) &&
             tx.to != []
    ensures AddressChange(tx, tx.from, status, bd, q) +
            (if tx.from != tx.to then AddressChange(tx, tx.to, status, bd, q) else 0) ==
              if q == Reserved then 0 else StatusChange(tx, status, bd, q)
  {
  }

  // ----- one transaction, completely -----

  /** A delegation that the balances follow: between addresses, and not a node test. */
  predicate Followed(tx: Tx)
  {
    DelegateShape(tx) && tx.to != [] && (tx.delegate.Some? ==> Counted(tx))
  }

  lemma PlainApplies(w: Work, tx: Tx, status: TxStatus, m: Modules, isForging: bool)
    requires m.balance && !PerformAll(w, tx, ActionsOf(tx, status, m, isForging)).thrown &&
             (tx.delegate.Some? ==> Counted(tx))
    ensures tx.from != [] && tx.delegate.Some? ==> Applies(Plain(tx, tx.from, !tx.IsNoBalance(), isForging))
  {
    hide PerformAll; hide ActionsOf;
    K.ThrowsIfNotChargeable(w, tx, status, m, isForging);
  }

  lemma NoDelegateChange(tx: Tx, status: TxStatus, m: Modules, isForging: bool, bd: Data, q: Which)
    requires m.balance && tx.delegate.None? && status == NoStatus && q != Worth
    ensures ChangesAt(ActionsOf(tx, status, m, isForging), bd, q) == 0
  {
    hide ActionsOf;
    ActionsParts(tx, status, m, isForging, bd, q);
    NoSideChange(tx, tx.from, m, isForging, bd, q);
    NoSideChange(tx, tx.to, m, isForging, bd, q);
  }

  lemma NoSideChange(tx: Tx, address: Address, m: Modules, isForging: bool, bd: Data, q: Which)
    requires tx.delegate.None? && q != Worth
    ensures ChangesAt(AddressActions(tx, address, NoStatus, m, isForging), bd, q) == 0
  {
    hide Tx.RealFee; hide Wrap;
    ChangesZero(AddressActions(tx, address, NoStatus, m, isForging), bd, q);
  }

  /** The delta of an address moves with the outstanding delegations, and nothing stays reserved. */
  lemma TxStepFollows(data: Contents, first: int, m: Modules, isForging: bool, w: Work, tx: Tx, bd: Data, q: Which)
    returns (change: int)
    requires Inv(data, first, w) && Followed(tx) && m.balance && q != Worth && C.CacheKeys(w)
    requires Draws(tx, m) <= w.counter && !TxStep(data, m, isForging, w, tx).thrown
    ensures var w' := TxStep(data, m, isForging, w, tx);
            Measure(BalanceOf(w'.balances, bd), q) == Wrap(Measure(BalanceOf(w.balances, bd), q) + change) &&
            if q == Reserved then change == 0
            else Total(Outstanding(Virtual(data, w'), bd, q)) == Total(Outstanding(Virtual(data, w), bd, q)) + change
  {
    hide Inv; hide DelegateStep; hide ActionsOf; hide PerformAll; hide Total; hide Outstanding; hide Virtual;
    hide Measure; hide Wrap; hide SameDelegates;
    hide RowOk; hide C.CacheKeys; hide C.SameElsewhere; hide DelegateShape; hide StackOf; hide PairStep; hide Expected;
    hide StatusChange; hide PairOf;
    DelegateStepStack(data, first, w, tx);
    DelegateStepStatus(data, w, tx);
    C.DelegateStepKeeps(data, w, tx);
    var w1 := DelegateStep(data, w, tx);
    var status := LastStatus(w1);
    var actions := ActionsOf(tx, status, m, isForging);
    ActionRows(tx, status, m, isForging);
    PerformAllKeeps(data, first, w1, tx, actions);
    PerformAllMeasure(w1, tx, actions, bd, q);
    PlainApplies(w1, tx, status, m, isForging);
    if tx.delegate.None? {
      NoDelegateChange(tx, status, m, isForging, bd, q);
    } else {
      FromSet(tx);
      ActionsChange(tx, status, m, isForging, bd, q);
    }
    if q != Reserved {
      DelegateStepOutstanding(data, first, w, tx, bd, q);
      SameOutstanding(Virtual(data, PerformAll(w1, tx, actions)), Virtual(data, w1), bd, q);
      NoStatusChange(tx, status, bd, q);
    }
    change := ChangesAt(actions, bd, q);
  }

  lemma FromSet(tx: Tx)
    requires tx.delegate.Some? && DelegateShape(tx)
    ensures tx.from != []
  {
  }

  lemma NoStatusChange(tx: Tx, status: TxStatus, bd: Data, q: Which)
    ensures tx.delegate.None? ==> StatusChange(tx, status, bd, q) == 0
  {
  }

  // ----- blocks -----

  lemma {:induction false} TxStepsFollow(data: Contents, first: u64, m: Modules, isForging: bool, txs: seq<Tx>, n: u64,
                                         bd: Data, q: Which)
    requires GoodStore(data, first) && m.balance && TotalDraws(txs, m) <= first && q != Worth
    requires forall tx :: tx in txs ==> Followed(tx) && tx.blockNumber == n
    requires !TxSteps(data, m, isForging, StartWork(first), txs).thrown
    ensures var w := TxSteps(data, m, isForging, StartWork(first), txs);
            var delta := Measure(BalanceOf(w.balances, bd), q);
            if q == Reserved then delta == 0
            else Wrap(Total(Outstanding(Virtual(data, w), bd, q))) == Wrap(Total(Outstanding(data, bd, q)) + delta)
    decreases txs
  {
    hide Inv; hide TxStep; hide Total; hide Outstanding; hide Virtual; hide Wrap; hide Followed; hide StackOf;
    hide PairRun; hide Reports; hide Draws;
    hide Measure; hide DelegateShape; hide BalanceOf; hide GoodStore;
    if txs == [] {
      EmptyMeasures(first, bd, q);
      StartInv(data, first);
    } else {
      var k := |txs| - 1;
      var before, tx := txs[..k], txs[k];
      var w := TxSteps(data, m, isForging, StartWork(first), before);
      ThrownSticks(data, m, isForging, w, tx);
      TxStepsFollow(data, first, m, isForging, before, n, bd, q);
      forall t | t in before ensures DelegateShape(t) { FollowedShape(t); }
      TxStepsStack(data, first, m, isForging, before);
      TxStepsCacheKeys(data, first, m, isForging, before, n);
      var change := TxStepFollows(data, first, m, isForging, w, tx, bd, q);
      if q == Reserved {
        WrapOfU64(0);
      } else {
        var t0, d, t1 := Total(Outstanding(data, bd, q)), Measure(BalanceOf(w.balances, bd), q),
          Total(Outstanding(Virtual(data, w), bd, q));
        AddWraps(t1, 0, change);
        AddWraps(t0 + d, 0, change);
        AddWrapRight(t0, d + change);
      }
    }
  }

  lemma EmptyMeasures(first: u64, bd: Data, q: Which)
    ensures Measure(BalanceOf(StartWork(first).balances, bd), q) == 0
  {
  }

  lemma FollowedShape(tx: Tx)
    requires Followed(tx)
    ensures DelegateShape(tx)
  {
  }

  lemma TxStepsCacheKeys(data: Contents, c: u64, m: Modules, isForging: bool, txs: seq<Tx>, n: u64)
    requires forall tx :: tx in txs ==> tx.blockNumber == n
    ensures C.CacheKeys(TxSteps(data, m, isForging, StartWork(c), txs))
  {
    hide C.CacheKeys; hide C.SameBalances; hide C.DeltasUpTo; hide TxSteps;
    C.TxStepsReady(data, c, m, isForging, txs, n);
  }

  /** The commit leaves the delegations of the batch. */
  lemma CommitDelegates(node: Node, m: Modules, b: Block)
    requires GoodStore(node.data, node.counter) && AnyModule(m) && BlockFits(node, m, b) && Commits(node, m, b)
    ensures !TxWork(node, m, b).thrown
    ensures SameDelegates(BlockStep(node, m, b).data, Virtual(node.data, TxWork(node, m, b)))
  {
    hide TxSteps; hide SortedKeys; hide SerMainBlock; hide Accepted; hide StackOf; hide PairRun; hide Inv;
    hide GoodStore;
    hide Virtual; hide SameDelegates; hide Reports; hide LedgerTxs; hide TotalDraws; hide MergeAll; hide BlockWork;
    hide DelegateShape;
    BlockWorkShape(node, m, b);
    var data := node.data;
    var w := TxWork(node, m, b);
    var w1 := if m.balance then MergeAll(data, b.number, w, SortedKeys(w.balances.Keys)) else w;
    var w2 := BlockWork(node, m, b);
    assert !w.thrown by { if w.thrown && m.balance { MergeThrown(data, b.number, w, SortedKeys(w.balances.Keys)); } }
    TxStepsStack(data, node.counter, m, b.kind.Forging?, LedgerTxs(b));
    SameSame(Virtual(data, w));
    if m.balance { MergeAllKeeps(data, node.counter, b.number, w, SortedKeys(w.balances.Keys)); }
    MainKeyForeign();
    ForeignPut(data, node.counter, w1, w2, MAIN_BLOCK_KEY, SerMainBlock(MainBlockInfo(b.number, b.hash, w1.counter)));
    SameTrans(Virtual(data, w2), Virtual(data, w1), Virtual(data, w));
    VirtualIsCommit(data, w2);
  }

  /** For an address: the outstanding delegations from it sum to delegate minus undelegate, those to it to delegated
      minus undelegated, both modulo 2^64, and nothing is reserved. */
  ghost predicate Agrees(data: Contents, bd: Data)
  {
    Wrap(Total(Outstanding(data, bd, DelegatedOut))) == Measure(C.Stored(data, bd), DelegatedOut) &&
    Wrap(Total(Outstanding(data, bd, DelegatedIn))) == Measure(C.Stored(data, bd), DelegatedIn) &&
    Measure(C.Stored(data, bd), Reserved) == 0
  }

  lemma BlockAgrees(node: Node, m: Modules, b: Block, bd: Data)
    requires GoodStore(node.data, node.counter) && m.balance && BlockFits(node, m, b) && Commits(node, m, b)
    requires K.BlockShape(node, m, b) && C.BalancesGood(node.data, K.LastNumber(node.data))
    requires forall tx :: tx in LedgerTxs(b) ==> Followed(tx)
    requires Agrees(node.data, bd)
    ensures Agrees(BlockStep(node, m, b).data, bd)
  {
    hide TxSteps; hide SortedKeys; hide GoodStore; hide Virtual; hide SameDelegates; hide LedgerTxs; hide BlockStep;
    hide BlockWork; hide Commits; hide Followed;
    hide Outstanding; hide Total; hide Wrap; hide Measure; hide Plus; hide C.Stored; hide C.BalancesGood;
    hide LastRecord; hide C.StoredWorths; hide K.TxsNet;
    hide C.SizesFit; hide DelegateShape; hide TotalDraws; hide K.LastNumber;
    CommitDelegates(node, m, b);
    K.BlockMerges(node, m, b);
    var w := TxWork(node, m, b);
    BlockAgreesOn(node, m, b, bd, DelegatedOut);
    BlockAgreesOn(node, m, b, bd, DelegatedIn);
    BlockAgreesOn(node, m, b, bd, Reserved);
  }

  lemma BlockAgreesOn(node: Node, m: Modules, b: Block, bd: Data, q: Which)
    requires GoodStore(node.data, node.counter) && m.balance && BlockFits(node, m, b) && K.BlockShape(node, m, b) &&
             q != Worth
    requires forall tx :: tx in LedgerTxs(b) ==> Followed(tx)
    requires !TxWork(node, m, b).thrown
    requires var v', w := BlockStep(node, m, b).data, TxWork(node, m, b);
             SameDelegates(v', Virtual(node.data, w)) &&
             C.Stored(v', bd) == if bd in w.balances then Plus(C.Stored(node.data, bd), w.balances[bd])
               else C.Stored(node.data, bd)
    requires if q == Reserved then Measure(C.Stored(node.data, bd), q) == 0
             else Wrap(Total(Outstanding(node.data, bd, q))) == Measure(C.Stored(node.data, bd), q)
    ensures if q == Reserved then Measure(C.Stored(BlockStep(node, m, b).data, bd), q) == 0
            else
              Wrap(Total(Outstanding(BlockStep(node, m, b).data, bd, q))) ==
              Measure(C.Stored(BlockStep(node, m, b).data, bd), q)
  {
    hide TxSteps; hide GoodStore; hide Virtual; hide SameDelegates; hide LedgerTxs; hide BlockStep; hide Followed;
    hide Outstanding; hide Total; hide Wrap; hide Measure; hide Plus; hide C.Stored; hide C.SizesFit;
    hide DelegateShape; hide TotalDraws;
    var w, v', old_ := TxWork(node, m, b), BlockStep(node, m, b).data, C.Stored(node.data, bd);
    TxStepsFollow(node.data, node.counter, m, b.kind.Forging?, LedgerTxs(b), b.number, bd, q);
    SameOutstanding(v', Virtual(node.data, w), bd, q);
    var delta := Measure(BalanceOf(w.balances, bd), q);
    assert Measure(C.Stored(v', bd), q) == Wrap(Measure(old_, q) + delta) by {
      if bd in w.balances {
        PlusMeasure(old_, w.balances[bd], q);
      } else {
        EmptyMeasures(0, bd, q);
        WrapOfU64(Measure(old_, q));
      }
    }
    if q == Reserved {
      WrapOfU64(0);
    } else {
      AddWraps(Total(Outstanding(node.data, bd, q)), 0, delta);
    }
  }

  // ----- runs -----

  /** Every committed delegation is between 25-byte addresses and none is a node test. */
  predicate RunFollowed(m: Modules, events: seq<Event>)
  {
    forall i :: 0 <= i < |events| && events[i].Process? ==> forall tx :: tx in LedgerTxs(events[i].block) ==>
      Followed(tx)
  }

  lemma FirstAgrees(bd: Data)
    ensures Agrees(FIRST_NODE.data, bd)
  {
    hide Total;
    assert Outstanding(map[], bd, DelegatedOut) == map[] == Outstanding(map[], bd, DelegatedIn);
    C.TotalEmpty();
    C.EmptyRecord();
    WrapOfU64(0);
  }

  lemma RunFollowedPrefix(m: Modules, events: seq<Event>)
    requires RunFollowed(m, events) && events != []
    ensures RunFollowed(m, events[..|events| - 1])
    ensures events[|events| - 1].Process? ==> forall tx :: tx in LedgerTxs(events[|events| - 1].block) ==> Followed(tx)
  {
    hide Followed; hide LedgerTxs;
  }

  /** At every block boundary of every run the balances agree with the outstanding delegations. */
  lemma {:induction false} RunAgrees(m: Modules, events: seq<Event>, bd: Data)
    requires m.balance && RunFits(m, events) && K.RunShape(m, events) && RunFollowed(m, events)
    ensures Agrees(Run(FIRST_NODE, m, events).data, bd)
    decreases events
  {
    hide Agrees; hide BlockFits; hide K.BlockShape; hide Followed; hide BlockWork; hide BlockStep; hide Restart;
    hide StackOf; hide StackAfter; hide GoodStore;
    hide RunFollowed; hide LedgerTxs; hide Total; hide C.StoredWorths; hide K.IssuedMinusFees; hide C.BalancesGood;
    hide MainBlockOf;
    if events == [] {
      FirstAgrees(bd);
    } else {
      var n := |events| - 1;
      var before := events[..n];
      var node := Run(FIRST_NODE, m, before);
      RunFollowedPrefix(m, events);
      RunAgrees(m, before, bd);
      RunIsStack(m, before, seq(PAIR_SIZE, _ => 0));
      K.Conservation(m, before);
      match events[n]
      case Reboot => K.RestartSameData(node);
      case Process(b) =>
        if Commits(node, m, b) {
          BlockAgrees(node, m, b, bd);
        } else {
          RefusedSameData(node, m, b);
        }
    }
  }

  lemma RefusedSameData(node: Node, m: Modules, b: Block)
    requires !Commits(node, m, b)
    ensures BlockStep(node, m, b).data == node.data
  {
    hide BlockWork;
  }
}
