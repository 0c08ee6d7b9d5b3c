/** Every account over whole runs: money, counters, forged sums and tokens of each address are exactly what the
    committed transactions gave it and took from it. */
module LedgerAccounts {
  import opened Bytes
  import opened Store
  import opened Transaction
  import opened BalanceInfo
  import opened Records
  import opened Ledger
  import opened LedgerMeasures
  import opened LedgerFields
  import C = LedgerCommit
  import K = LedgerConservation
  import R = LedgerRuns
  import S = LedgerSums
  import Totals

  // ----- blocks -----

  function TxsEffect(txs: seq<Tx>, isForging: bool, a: Address, f: Field): int
  {
    if txs == [] then 0
    else TxsEffect(txs[..|txs| - 1], isForging, a, f) + Effect(txs[|txs| - 1], isForging, a, f)
  }

  lemma TxStepField(data: Contents, m: Modules, isForging: bool, w: Work, tx: Tx, a: Address, f: Field)
    requires m.balance && HasRecord(a, f) && C.CacheKeys(w) && !TxStep(data, m, isForging, w, tx).thrown
    ensures Value(BalanceOf(TxStep(data, m, isForging, w, tx).balances, a), f) ==
            Wrap(Value(BalanceOf(w.balances, a), f) + Effect(tx, isForging, a, f))
  {
    hide Wrap; hide Value; hide PerformAll; hide ActionsOf; hide BalanceOf; hide Effect; hide DelegateStep;
    hide C.CacheKeys; hide C.SameElsewhere; hide S.StatusFits; hide HasRecord;
    C.DelegateStepKeeps(data, w, tx);
    S.DelegateStepStatus(data, w, tx);
    var w1 := DelegateStep(data, w, tx);
    var n := Value(BalanceOf(w.balances, a), f);
    var actions := ActionsOf(tx, LastStatus(w1), m, isForging);
    PerformAllField(w1, tx, actions, a, f);
    TxEffect(tx, LastStatus(w1), m, isForging, a, f);
    K.AddWrapBoth(n, ActionsChange(actions, a, f), Effect(tx, isForging, a, f));
  }

  lemma {:induction false} TxStepsField(data: Contents, counter: u64, m: Modules, isForging: bool, txs: seq<Tx>, n: u64,
                                        a: Address, f: Field)
    requires m.balance && HasRecord(a, f) && !TxSteps(data, m, isForging, StartWork(counter), txs).thrown
    requires forall tx :: tx in txs ==> tx.blockNumber == n
    ensures Value(BalanceOf(TxSteps(data, m, isForging, StartWork(counter), txs).balances, a), f) ==
            Wrap(TxsEffect(txs, isForging, a, f))
    decreases txs
  {
    hide Wrap; hide Effect; hide TxStep; hide HasRecord;
    if txs == [] {
      NothingYet(a, f);
    } else {
      hide Value; hide BalanceOf; hide C.CacheKeys;
      var k := |txs| - 1;
      var w := TxSteps(data, m, isForging, StartWork(counter), txs[..k]);
      R.ThrownSticks(data, m, isForging, w, txs[k]);
      TxStepsField(data, counter, m, isForging, txs[..k], n, a, f);
      S.TxStepsCacheKeys(data, counter, m, isForging, txs[..k], n);
      TxStepField(data, m, isForging, w, txs[k], a, f);
      AddWraps(TxsEffect(txs[..k], isForging, a, f), 0, Effect(txs[k], isForging, a, f));
    }
  }

  lemma NothingYet(a: Address, f: Field)
    ensures Value(EMPTY, f) == Wrap(0)
  {
    EmptyField(f);
  }

  lemma BlockField(node: Node, m: Modules, b: Block, a: Address, f: Field)
    requires m.balance && HasRecord(a, f) && Commits(node, m, b) && K.BlockShape(node, m, b) &&
             C.BalancesGood(node.data, K.LastNumber(node.data))
    ensures Value(C.Stored(BlockStep(node, m, b).data, a), f) ==
            Wrap(Value(C.Stored(node.data, a), f) + TxsEffect(R.LedgerTxs(b), b.kind.Forging?, a, f))
  {
    hide Wrap; hide Value; hide Plus; hide C.Stored; hide C.BalancesGood; hide BlockStep; hide R.LedgerTxs;
    hide TxsEffect; hide TxSteps; hide Totals.Total; hide C.StoredWorths; hide BalanceOf; hide HasRecord;
    K.BlockMerges(node, m, b);
    var w := R.TxWork(node, m, b);
    BlockNotThrown(node, m, b);
    TxStepsField(node.data, node.counter, m, b.kind.Forging?, R.LedgerTxs(b), b.number, a, f);
    MergedField(C.Stored(node.data, a), w.balances, a, f, TxsEffect(R.LedgerTxs(b), b.kind.Forging?, a, f));
  }

  lemma MergedField(before: Balance, deltas: map<Data, Balance>, a: Address, f: Field, change: int)
    requires Value(BalanceOf(deltas, a), f) == Wrap(change)
    ensures Value(if a in deltas then Plus(before, deltas[a]) else before, f) == Wrap(Value(before, f) + change)
  {
    hide Wrap; hide Value; hide Plus;
    var n := Value(before, f);
    AddWrapRight(n, change);
    if a in deltas {
      PlusField(before, deltas[a], f);
    } else {
      NothingYet(a, f);
      WrapOfU64(n);
      AddWrapRight(n, 0);
    }
  }

  lemma BlockNotThrown(node: Node, m: Modules, b: Block)
    requires m.balance && Commits(node, m, b) && K.BlockShape(node, m, b)
    ensures !R.TxWork(node, m, b).thrown && forall tx :: tx in R.LedgerTxs(b) ==> tx.blockNumber == b.number
  {
    hide TxSteps; hide MergeAll; hide SortedKeys; hide SerMainBlock; hide R.LedgerTxs; hide BlockWork; hide C.SizesFit;
    hide Accepted;
    R.BlockWorkShape(node, m, b);
    var w := R.TxWork(node, m, b);
    if w.thrown { R.MergeThrown(node.data, b.number, w, SortedKeys(w.balances.Keys)); }
  }

  // ----- runs -----

  /** What the committed transactions of a run did to a field of an address. */
  function RunEffect(m: Modules, events: seq<Event>, a: Address, f: Field): int
  {
    if events == [] then 0
    else
      var before := events[..|events| - 1];
      RunEffect(m, before, a, f) +
      match events[|events| - 1]
      case Reboot => 0
      case Process(b) =>
        if Commits(Run(FIRST_NODE, m, before), m, b) then TxsEffect(R.LedgerTxs(b), b.kind.Forging?, a, f) else 0
  }

  /** Over every run, every field of every address is what the committed transactions did to it, modulo 2^64: the
      recipient gets the value and the sender pays value and fee, each in its own record. */
  lemma {:induction false} RunAccounts(m: Modules, events: seq<Event>, a: Address, f: Field)
    requires m.balance && K.RunShape(m, events) && HasRecord(a, f)
    ensures Value(C.Stored(Run(FIRST_NODE, m, events).data, a), f) == Wrap(RunEffect(m, events, a, f))
    decreases events
  {
    hide Wrap; hide Value; hide C.Stored; hide BlockStep; hide Restart; hide Commits; hide K.BlockShape;
    hide R.LedgerTxs; hide TxsEffect; hide C.BalancesGood; hide HasRecord;
    hide C.StoredWorths; hide Totals.Total; hide K.IssuedMinusFees; hide MainBlockOf;
    if events == [] {
      FirstField(a, f);
    } else {
      var n := |events| - 1;
      var before := events[..n];
      var node := Run(FIRST_NODE, m, before);
      RunAccounts(m, before, a, f);
      K.Conservation(m, before);
      match events[n]
      case Reboot => K.RestartSameData(node);
      case Process(b) =>
        if Commits(node, m, b) {
          BlockField(node, m, b, a, f);
          AddWraps(RunEffect(m, before, a, f), 0, TxsEffect(R.LedgerTxs(b), b.kind.Forging?, a, f));
        } else {
          S.RefusedSameData(node, m, b);
        }
    }
  }

  lemma FirstField(a: Address, f: Field)
    ensures Value(C.Stored(FIRST_NODE.data, a), f) == Wrap(0)
  {
    C.EmptyRecord();
    EmptyField(f);
  }

  // ----- delegations accounted for -----

  lemma BalanceIs(b: Balance)
    ensures b.balance.Net() == Wrap(Value(b, Money) - Measure(b, DelegatedOut))
  {
    hide Wrap; hide Element.Net;
    WorthIsBalance(b);
    var n: int, d: int := b.balance.Net(), Or(b.delegated, NO_DELEGATE).delegate.Net();
    AddWraps(n - d, 0 - d, 0);
    WrapOfU64(n);
  }

  /** What remains in the balance of an address itself is its money without what it has delegated: the sum of its
      outstanding delegations. */
  lemma RunBalance(m: Modules, events: seq<Event>, a: Address)
    requires m.balance && R.RunFits(m, events) && K.RunShape(m, events) && S.RunFollowed(m, events) && a != []
    ensures var data := Run(FIRST_NODE, m, events).data;
            C.Stored(data, a).balance.Net() ==
            Wrap(RunEffect(m, events, a, Money) - Totals.Total(S.Outstanding(data, a, DelegatedOut)))
  {
    hide Wrap; hide Value; hide Measure; hide C.Stored; hide Run; hide RunEffect; hide S.Outstanding; hide Totals.Total;
    hide R.RunFits; hide K.RunShape; hide S.RunFollowed;
    var data := Run(FIRST_NODE, m, events).data;
    RunAccounts(m, events, a, Money);
    S.RunAgrees(m, events, a);
    BalanceIs(C.Stored(data, a));
    AddWraps(RunEffect(m, events, a, Money), Totals.Total(S.Outstanding(data, a, DelegatedOut)), 0);
  }
}
