/** The block number in a record: over whole runs, that of the last committed block that touched the address, or its
    tokens. */
module LedgerSeen {
  import opened Bytes
  import opened Store
  import opened Transaction
  import opened BalanceInfo
  import opened Records
  import opened Ledger
  import opened LedgerTerms
  import C = LedgerCommit
  import K = LedgerConservation
  import A = LedgerAccounts
  import R = LedgerRuns
  import S = LedgerSums
  import Totals

  /** The two block numbers of a record; none counts as zero. */
  datatype Kind = OfMoney | OfTokens

  function Seen(b: Balance, k: Kind): u64
  {
    match k
    case OfMoney => b.blockNumber
    case OfTokens => if b.tokenBlockNumber.Some? then b.tokenBlockNumber.value else 0
  }

  // ----- what a transaction touches -----

  predicate ShareTo(begin: seq<(Address, u64)>, a: Address)
  {
    exists i :: 0 <= i < |begin| && BdString(begin[i].0) == a
  }

  /** The token transaction changes the address's holding. */
  predicate Holder(tx: Tx, info: TokenInfo, a: Address)
  {
    match info
    case Create(owner, _, begin) => BdString(owner) == a || ShareTo(begin, a)
    case AddTokens(to, _) => BdString(to) == a
    case MoveTokens(to, _) => BdString(to) == a || BdString(tx.from) == a
    case BurnTokens(_) => BdString(tx.from) == a
    case _ => false
  }

  predicate Touches(tx: Tx, a: Address, k: Kind)
  {
    match k
    case OfMoney => Counted(tx) && (tx.from == a || tx.to == a)
    case OfTokens => tx.tokenInfo.Some? && Successful(tx) && Holder(tx, tx.tokenInfo.value, a)
  }

  // ----- one entry, one action -----

  /** The entry notes the block. */
  predicate Notes(e: Entry, k: Kind)
  {
    match e
    case Plain(tx, address, _, _) => k.OfMoney? && (tx.from == address || tx.to == address)
    case WithDelegate(_, _, _, _) => false
    case TokensAdded(tx, _, ok) => k.OfTokens? && ok && tx.tokenInfo.Some?
    case TokensMoved(tx, _, _, _, ok) => k.OfTokens? && ok && tx.tokenInfo.Some?
  }

  lemma EntrySeen(b: Balance, e: Entry, k: Kind)
    requires Applies(e) && Seen(b, k) <= e.tx.blockNumber
    ensures Seen(Apply(b, e), k) == if Notes(e, k) then e.tx.blockNumber else Seen(b, k)
  {
    hide Wrap; hide Element.Spend; hide Element.Receive; hide Tx.RealFee; hide BdString;
  }

  predicate NotesAt(x: Action, a: Address, k: Kind) { x.Post? && x.bdAddress == a && Notes(x.entry, k) }

  lemma PerformSeen(w: Work, tx: Tx, x: Action, a: Address, k: Kind)
    requires C.ActionOk(tx, x) && !Perform(w, tx, x).thrown && Seen(BalanceOf(w.balances, a), k) <= tx.blockNumber
    ensures Seen(BalanceOf(Perform(w, tx, x).balances, a), k) ==
            if NotesAt(x, a, k) then tx.blockNumber else Seen(BalanceOf(w.balances, a), k)
  {
    hide Seen; hide Apply; hide Applies; hide Notes; hide HistoryKey; hide SerAddressInfo;
    if x.Post? && x.bdAddress == a { EntrySeen(BalanceOf(w.balances, a), x.entry, k); }
  }

  lemma {:induction false} PerformAllSeen(w: Work, tx: Tx, actions: seq<Action>, a: Address, k: Kind)
    requires (forall x :: x in actions ==> C.ActionOk(tx, x)) && !PerformAll(w, tx, actions).thrown
    requires Seen(BalanceOf(w.balances, a), k) <= tx.blockNumber
    ensures Seen(BalanceOf(PerformAll(w, tx, actions).balances, a), k) ==
            if exists x :: x in actions && NotesAt(x, a, k) then tx.blockNumber else Seen(BalanceOf(w.balances, a), k)
    decreases actions
  {
    hide Seen; hide Perform; hide NotesAt; hide BalanceOf; hide C.ActionOk;
    if actions != [] {
      var w1 := Perform(w, tx, actions[0]);
      assert actions == [actions[0]] + actions[1..];
      NotThrownBefore(w1, tx, actions[1..]);
      PerformSeen(w, tx, actions[0], a, k);
      PerformAllSeen(w1, tx, actions[1..], a, k);
    }
  }

  lemma {:induction false} NotThrownBefore(w: Work, tx: Tx, actions: seq<Action>)
    requires !PerformAll(w, tx, actions).thrown
    ensures !w.thrown
    decreases actions
  {
    if actions != [] {
      NotThrownBefore(Perform(w, tx, actions[0]), tx, actions[1..]);
      R.PerformThrown(w, tx, actions[0]);
    }
  }

  // ----- one transaction -----

  ghost predicate AnyNotes(actions: seq<Action>, a: Address, k: Kind)
  {
    exists x :: x in actions && NotesAt(x, a, k)
  }

  lemma NotesConcat(s: seq<Action>, t: seq<Action>, a: Address, k: Kind)
    ensures AnyNotes(s + t, a, k) <==> AnyNotes(s, a, k) || AnyNotes(t, a, k)
  {
    hide NotesAt;
  }

  lemma SideNotes(tx: Tx, address: Address, status: TxStatus, m: Modules, isForging: bool, a: Address, k: Kind)
    requires m.balance && a != [] && (address == tx.from || address == tx.to)
    ensures AnyNotes(AddressActions(tx, address, status, m, isForging), a, k) <==>
            k.OfMoney? && Counted(tx) && address == a
  {
    var actions := AddressActions(tx, address, status, m, isForging);
    if address != [] && Counted(tx) {
      var plain := Post(BdString(address), Plain(tx, address, !tx.IsNoBalance(), isForging));
      assert actions[if m.addrTxs then 1 else 0] == plain;
      assert plain in actions;
    }
  }

  lemma RowsNote(tx: Tx, m: Modules, a: Address, k: Kind)
    ensures !AnyNotes(TxRows(tx, m), a, k)
  {
  }

  lemma CreateNotes(tx: Tx, info: TokenInfo, a: Address)
    requires tx.tokenInfo == Some(info) && Successful(tx) && info.Create?
    ensures AnyNotes(TokenPosts(tx, info), a, OfTokens) <==> Holder(tx, info, a)
  {
    hide BdString;
    var posts, n := TokenPosts(tx, info), |info.beginDistribution|;
    assert posts[n].bdAddress == BdString(info.owner);
    assert posts[n] in posts && NotesAt(posts[n], BdString(info.owner), OfTokens);
    forall i | 0 <= i < n
      ensures posts[i] in posts && NotesAt(posts[i], BdString(info.beginDistribution[i].0), OfTokens)
    {
    }
    if x :| x in posts && NotesAt(x, a, OfTokens) {
      var i :| 0 <= i < |posts| && posts[i] == x;
      if i < n { assert BdString(info.beginDistribution[i].0) == a; }
    }
  }

  lemma PostsNote(tx: Tx, info: TokenInfo, a: Address, k: Kind)
    requires tx.tokenInfo == Some(info)
    ensures AnyNotes(TokenPosts(tx, info), a, k) <==> k.OfTokens? && Successful(tx) && Holder(tx, info, a)
  {
    hide BdString;
    if info.Create? && k.OfTokens? && Successful(tx) {
      CreateNotes(tx, info, a);
    } else if info.AddTokens? || info.MoveTokens? || info.BurnTokens? {
      var posts := TokenPosts(tx, info);
      assert posts[0] in posts;
      if info.MoveTokens? && info.toAddress != tx.from { assert posts[1] in posts; }
    }
  }

  lemma ActionsNote(tx: Tx, status: TxStatus, m: Modules, isForging: bool, a: Address, k: Kind)
    requires m.balance && a != []
    ensures AnyNotes(ActionsOf(tx, status, m, isForging), a, k) <==> Touches(tx, a, k)
  {
    hide AddressActions; hide TxRows; hide TokenPosts; hide AnyNotes; hide Holder;
    var x := AddressActions(tx, tx.from, status, m, isForging);
    var y := if tx.from != tx.to then AddressActions(tx, tx.to, status, m, isForging) else [];
    var t := TxRows(tx, m);
    var p := if m.balance && tx.tokenInfo.Some? then TokenPosts(tx, tx.tokenInfo.value) else [];
    NotesConcat(x, y + (t + p), a, k);
    NotesConcat(y, t + p, a, k);
    NotesConcat(t, p, a, k);
    NoNotes(a, k);
    SideNotes(tx, tx.from, status, m, isForging, a, k);
    SideNotes(tx, tx.to, status, m, isForging, a, k);
    RowsNote(tx, m, a, k);
    if tx.tokenInfo.Some? { PostsNote(tx, tx.tokenInfo.value, a, k); }
  }

  lemma NoNotes(a: Address, k: Kind)
    ensures !AnyNotes([], a, k)
  {
  }

  lemma TxStepSeen(data: Contents, m: Modules, isForging: bool, w: Work, tx: Tx, a: Address, k: Kind)
    requires m.balance && a != [] && C.CacheKeys(w) && !TxStep(data, m, isForging, w, tx).thrown
    requires Seen(BalanceOf(w.balances, a), k) <= tx.blockNumber
    ensures Seen(BalanceOf(TxStep(data, m, isForging, w, tx).balances, a), k) ==
            if Touches(tx, a, k) then tx.blockNumber else Seen(BalanceOf(w.balances, a), k)
  {
    hide Seen; hide PerformAll; hide ActionsOf; hide BalanceOf; hide Touches; hide DelegateStep; hide C.CacheKeys;
    hide C.SameElsewhere; hide C.ActionOk; hide NotesAt;
    C.DelegateStepKeeps(data, w, tx);
    var w1 := DelegateStep(data, w, tx);
    C.ActionsOk(tx, LastStatus(w1), m, isForging);
    ActionsNote(tx, LastStatus(w1), m, isForging, a, k);
    PerformAllSeen(w1, tx, ActionsOf(tx, LastStatus(w1), m, isForging), a, k);
  }

  // ----- blocks -----

  predicate AnyTouches(txs: seq<Tx>, a: Address, k: Kind)
  {
    txs != [] && (Touches(txs[|txs| - 1], a, k) || AnyTouches(txs[..|txs| - 1], a, k))
  }

  lemma {:induction false} TxStepsSeen(data: Contents, counter: u64, m: Modules, isForging: bool, txs: seq<Tx>, n: u64,
                                       a: Address, k: Kind)
    requires m.balance && a != [] && !TxSteps(data, m, isForging, StartWork(counter), txs).thrown
    requires forall tx :: tx in txs ==> tx.blockNumber == n
    ensures Seen(BalanceOf(TxSteps(data, m, isForging, StartWork(counter), txs).balances, a), k) ==
            if AnyTouches(txs, a, k) then n else 0
    decreases txs
  {
    hide TxStep; hide Touches;
    if txs != [] {
      hide Seen; hide BalanceOf; hide C.CacheKeys;
      var i := |txs| - 1;
      var w := TxSteps(data, m, isForging, StartWork(counter), txs[..i]);
      R.ThrownSticks(data, m, isForging, w, txs[i]);
      TxStepsSeen(data, counter, m, isForging, txs[..i], n, a, k);
      S.TxStepsCacheKeys(data, counter, m, isForging, txs[..i], n);
      TxStepSeen(data, m, isForging, w, txs[i], a, k);
    }
  }

  lemma MergedSeen(before: Balance, deltas: map<Data, Balance>, a: Address, k: Kind, n: u64, touched: bool)
    requires Seen(BalanceOf(deltas, a), k) == (if touched then n else 0) && Seen(before, k) <= n
    ensures Seen(if a in deltas then Plus(before, deltas[a]) else before, k) == if touched then n else Seen(before, k)
  {
    hide MergeElement; hide MergeTokens; hide MergeDelegate; hide Wrap;
  }

  lemma BlockSeen(node: Node, m: Modules, b: Block, a: Address, k: Kind)
    requires m.balance && a != [] && Commits(node, m, b) && K.BlockShape(node, m, b) &&
             C.BalancesGood(node.data, K.LastNumber(node.data))
    requires Seen(C.Stored(node.data, a), k) <= b.number
    ensures Seen(C.Stored(BlockStep(node, m, b).data, a), k) ==
            if AnyTouches(R.LedgerTxs(b), a, k) then b.number else Seen(C.Stored(node.data, a), k)
  {
    hide Wrap; hide Seen; hide Plus; hide C.Stored; hide C.BalancesGood; hide BlockStep; hide R.LedgerTxs;
    hide AnyTouches; hide TxSteps; hide Totals.Total; hide C.StoredWorths; hide BalanceOf;
    K.BlockMerges(node, m, b);
    A.BlockNotThrown(node, m, b);
    TxStepsSeen(node.data, node.counter, m, b.kind.Forging?, R.LedgerTxs(b), b.number, a, k);
    MergedSeen(C.Stored(node.data, a), R.TxWork(node, m, b).balances, a, k, b.number,
      AnyTouches(R.LedgerTxs(b), a, k));
  }

  // ----- runs -----

  /** The number of the last committed block with a transaction that touches the address; zero if there is none. */
  function LastTouch(m: Modules, events: seq<Event>, a: Address, k: Kind): nat
  {
    if events == [] then 0
    else
      var before := events[..|events| - 1];
      match events[|events| - 1]
      case Reboot => LastTouch(m, before, a, k)
      case Process(b) =>
        if Commits(Run(FIRST_NODE, m, before), m, b) && AnyTouches(R.LedgerTxs(b), a, k) then b.number
        else LastTouch(m, before, a, k)
  }

  lemma CommittedNumber(node: Node, m: Modules, b: Block)
    requires m.balance && Commits(node, m, b) && K.BlockShape(node, m, b) &&
             C.BalancesGood(node.data, K.LastNumber(node.data))
    ensures K.LastNumber(node.data) < b.number == K.LastNumber(BlockStep(node, m, b).data)
  {
    hide Wrap; hide Plus; hide C.Stored; hide C.BalancesGood; hide BlockStep; hide R.LedgerTxs; hide BlockWork;
    hide TxSteps; hide Totals.Total; hide C.StoredWorths; hide MainBlockOf; hide K.BlockShape;
    K.BlockMerges(node, m, b);
    K.AcceptedNumber(node.data, b);
  }

  /** Over every run the block numbers in the record of an address are those of the last committed blocks that touched
      the address and its tokens. */
  lemma {:induction false} RunSeen(m: Modules, events: seq<Event>, a: Address, k: Kind)
    requires m.balance && K.RunShape(m, events) && a != []
    ensures var data := Run(FIRST_NODE, m, events).data;
            Seen(C.Stored(data, a), k) == LastTouch(m, events, a, k) <= K.LastNumber(data)
    decreases events
  {
    hide Seen; hide C.Stored; hide BlockStep; hide Restart; hide Commits; hide K.BlockShape; hide R.LedgerTxs;
    hide AnyTouches; hide C.BalancesGood; hide C.StoredWorths; hide Totals.Total; hide K.IssuedMinusFees;
    hide MainBlockOf; hide Wrap; hide K.LastNumber;
    if events == [] {
      FirstSeen(a, k);
    } else {
      var n := |events| - 1;
      var node := Run(FIRST_NODE, m, events[..n]);
      RunSeen(m, events[..n], a, k);
      K.Conservation(m, events[..n]);
      match events[n]
      case Reboot => K.RestartSameData(node);
      case Process(b) =>
        if Commits(node, m, b) {
          CommittedNumber(node, m, b);
          BlockSeen(node, m, b, a, k);
        } else {
          S.RefusedSameData(node, m, b);
        }
    }
  }

  lemma FirstSeen(a: Address, k: Kind)
    ensures Seen(C.Stored(FIRST_NODE.data, a), k) == 0 <= K.LastNumber(FIRST_NODE.data)
  {
    C.EmptyRecord();
  }
}
