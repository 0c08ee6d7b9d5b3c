/** What a committed block leaves in the stored balances. */
module LedgerCommit {
  import opened Bytes
  import opened Serialize
  import opened Store
  import opened Transaction
  import opened BalanceInfo
  import opened Records
  import opened Ledger
  import opened LedgerMeasures
  import opened Totals
  import BalanceCodec
  import S = LedgerStack
  import R = LedgerRuns

  // ----- transactions do not write balance records themselves -----

  predicate IsBalanceKey(k: Key) { BALANCE_PREFIX <= k }

  ghost predicate SameBalances(a: Contents, b: Contents)
  {
    forall k :: IsBalanceKey(k) ==> (k in a <==> k in b) && (k in a ==> a[k] == b[k])
  }

  lemma SameBalancesTrans(a: Contents, b: Contents, c: Contents)
    requires SameBalances(a, b) && SameBalances(b, c)
    ensures SameBalances(a, c)
  {
    hide IsBalanceKey;
  }

  /** Every cached key is a delegation key. */
  ghost predicate CacheKeys(w: Work)
  {
    forall p, k :: p in w.cache && k in w.cache[p] ==> S.IsDelegateKey(k)
  }

  lemma DelegateNotBalance(k: Key)
    requires S.IsDelegateKey(k)
    ensures !IsBalanceKey(k)
  {
    assert k[0] == DELEGATE_PREFIX[0];
  }

  lemma OpKeepsBalances(data: Contents, ops: seq<Op>, op: Op)
    requires !IsBalanceKey(op.key)
    ensures SameBalances(ApplyOps(data, ops + [op]), ApplyOps(data, ops))
  {
    hide ApplyOps; hide IsBalanceKey;
    ApplyOpsAppend(data, ops, op);
  }

  lemma SameRefl(a: Contents)
    ensures SameBalances(a, a)
  {
  }

  /** The contents differ at most in delegation keys. */
  ghost predicate SameElsewhere(a: Contents, b: Contents)
  {
    forall k :: !S.IsDelegateKey(k) ==> (k in a <==> k in b) && (k in a ==> a[k] == b[k])
  }

  lemma ElsewhereRefl(a: Contents)
    ensures SameElsewhere(a, a)
  {
  }

  lemma ElsewhereBalances(a: Contents, b: Contents)
    requires SameElsewhere(a, b)
    ensures SameBalances(a, b)
  {
    hide IsBalanceKey; hide S.IsDelegateKey;
    forall k | IsBalanceKey(k) ensures !S.IsDelegateKey(k) { if S.IsDelegateKey(k) { DelegateNotBalance(k); } }
  }

  lemma OpKeepsElsewhere(data: Contents, ops: seq<Op>, op: Op)
    requires S.IsDelegateKey(op.key)
    ensures SameElsewhere(ApplyOps(data, ops + [op]), ApplyOps(data, ops))
  {
    hide ApplyOps; hide S.IsDelegateKey;
    ApplyOpsAppend(data, ops, op);
  }

  lemma PushKeeps(data: Contents, w: Work, p: Data, d: DelegateState)
    requires CacheKeys(w)
    ensures CacheKeys(Push(w, p, d)) && SameElsewhere(S.Virtual(data, Push(w, p, d)), S.Virtual(data, w))
  {
    hide SerDelegateState; hide ApplyOps; hide DelegateKey; hide S.IsDelegateKey; hide SameElsewhere;
    var k := DelegateKey(p, w.counter);
    DelegateKeyIs(p, w.counter);
    ElsewhereRefl(ApplyOps(data, w.ops));
    OpKeepsElsewhere(data, w.ops, Put(k, SerDelegateState(d)));
  }

  lemma DelegateKeyIs(p: Data, c: u64)
    ensures S.IsDelegateKey(DelegateKey(p, c))
  {
    hide SerInt;
    assert DelegatePrefix(p) <= DelegateKey(p, c);
    S.PrefixIsDelegate(p, DelegateKey(p, c));
  }

  lemma RemoveKeeps(data: Contents, w: Work, k: Key, s: TxStatus)
    requires CacheKeys(w) && S.IsDelegateKey(k)
    ensures CacheKeys(Reported(Removed(w, k), s)) &&
            SameElsewhere(S.Virtual(data, Reported(Removed(w, k), s)), S.Virtual(data, w))
  {
    hide ApplyOps; hide S.IsDelegateKey; hide SameElsewhere;
    OpKeepsElsewhere(data, w.ops, Delete(k));
  }

  /** Whatever the addresses: a delegation step writes only delegation keys. */
  lemma DelegateStepKeeps(data: Contents, w: Work, tx: Tx)
    requires CacheKeys(w)
    ensures CacheKeys(DelegateStep(data, w, tx))
    ensures SameElsewhere(S.Virtual(data, DelegateStep(data, w, tx)), S.Virtual(data, w))
    ensures DelegateStep(data, w, tx).balances == w.balances
  {
    hide SerDelegateState; hide DeserDelegateState; hide S.Virtual; hide SameElsewhere; hide FirstOf; hide Push;
    hide PairOf; hide Removed; hide CacheKeys;
    ElsewhereRefl(S.Virtual(data, w));
    var p := PairOf(tx);
    var d := DelegateState(if tx.delegate.Some? then tx.delegate.value.value else 0, tx.hash);
    PushKeeps(data, w, p, d);
    PushBalances(w, p, d);
    ReportKeeps(data, w, NoStatus, true);
    ReportKeeps(data, w, Delegating(!tx.IsNotSuccess()), false);
    ReportKeeps(data, Push(w, p, d), Delegating(!tx.IsNotSuccess()), false);
    ReportKeeps(data, w, UnDelegating(0, []), false);
    if Stack(w, p) != [] {
      PopCacheKeeps(data, w, p);
    } else {
      PopStoreKeeps(data, w, p);
    }
  }

  lemma PushBalances(w: Work, p: Data, d: DelegateState)
    ensures Push(w, p, d).balances == w.balances
  {
    hide SerDelegateState; hide DelegateKey;
  }

  lemma ReportKeeps(data: Contents, w: Work, s: TxStatus, t: bool)
    ensures CacheKeys(w) ==> CacheKeys(Reported(w, s)) && CacheKeys(w.(thrown := t))
    ensures S.Virtual(data, Reported(w, s)) == S.Virtual(data, w) == S.Virtual(data, w.(thrown := t)) ==
            S.Virtual(data, Failed(w))
    ensures CacheKeys(w) ==> CacheKeys(Failed(w))
  {
    hide S.IsDelegateKey; hide ApplyOps;
  }

  lemma PopCacheKeeps(data: Contents, w: Work, p: Data)
    requires CacheKeys(w) && Stack(w, p) != []
    ensures CacheKeys(PopCache(w, p)) && SameElsewhere(S.Virtual(data, PopCache(w, p)), S.Virtual(data, w))
    ensures PopCache(w, p).balances == w.balances
  {
    hide DeserDelegateState; hide SameElsewhere; hide ApplyOps; hide S.IsDelegateKey;
    var s := Stack(w, p);
    var k := s[|s| - 1];
    assert k in w.cache[p];
    var w0 := w.(cache := w.cache[p := s[..|s| - 1]]);
    ElsewhereRefl(S.Virtual(data, w));
    match DeserDelegateState(if k in w.save then w.save[k] else [])
    case Thrown =>
    case Returned(d) => RemoveKeeps(data, w0, k, UnDelegating(d.value, d.hash));
  }

  lemma PopStoreKeeps(data: Contents, w: Work, p: Data)
    requires CacheKeys(w)
    ensures CacheKeys(PopStore(data, w, p)) && SameElsewhere(S.Virtual(data, PopStore(data, w, p)), S.Virtual(data, w))
    ensures PopStore(data, w, p).balances == w.balances
  {
    hide DeserDelegateState; hide SameElsewhere; hide ApplyOps; hide S.IsDelegateKey; hide FirstOf; hide DelegatePrefix;
    ElsewhereRefl(S.Virtual(data, w));
    match FirstOf(data, DelegatePrefix(p), w.deleted)
    case None =>
    case Some(k) =>
      S.PrefixIsDelegate(p, k);
      match DeserDelegateState(data[k])
      case Thrown =>
      case Returned(d) => RemoveKeeps(data, w, k, UnDelegating(d.value, d.hash));
  }

  // ----- rows and entries of one transaction -----

  predicate ActionOk(tx: Tx, a: Action)
  {
    R.RowOk(a) && (a.Post? ==> a.entry.tx == tx)
  }

  lemma ActionsOk(tx: Tx, status: TxStatus, m: Modules, isForging: bool)
    ensures forall a :: a in ActionsOf(tx, status, m, isForging) ==> ActionOk(tx, a)
  {
    hide R.RowOk;
    R.ActionRows(tx, status, m, isForging);
    AddressActionsTx(tx, tx.from, status, m, isForging);
    AddressActionsTx(tx, tx.to, status, m, isForging);
    TokenPostsTx(tx, m);
    hide AddressActions; hide TokenPosts; hide TxRows;
  }

  lemma AddressActionsTx(tx: Tx, address: Address, status: TxStatus, m: Modules, isForging: bool)
    ensures forall a :: a in AddressActions(tx, address, status, m, isForging) && a.Post? ==> a.entry.tx == tx
  {
  }

  lemma TokenPostsTx(tx: Tx, m: Modules)
    ensures tx.tokenInfo.Some? ==> forall a :: a in TokenPosts(tx, tx.tokenInfo.value) && a.Post? ==> a.entry.tx == tx
    ensures forall a :: a in TxRows(tx, m) ==> !a.Post?
  {
  }

  /** No delta is numbered above the block. */
  ghost predicate DeltasUpTo(w: Work, n: u64)
  {
    forall bd :: bd in w.balances ==> w.balances[bd].blockNumber <= n
  }

  lemma ApplyNumber(b: Balance, e: Entry)
    requires Applies(e)
    ensures b.blockNumber <= e.tx.blockNumber ==> Apply(b, e).blockNumber <= e.tx.blockNumber
  {
    hide Wrap; hide Element.Spend; hide Element.Receive; hide Tx.RealFee; hide BdString;
  }

  lemma HistoryNotBalance(prefix: Data, address: Address, c: u64)
    requires prefix == ADDRESS_PREFIX || prefix == ADDRESS_TOKEN_PREFIX
    ensures !IsBalanceKey(HistoryKey(prefix, address, c))
  {
    assert HistoryKey(prefix, address, c)[0] == prefix[0];
  }

  lemma PerformKeepsBalances(data: Contents, w: Work, tx: Tx, a: Action)
    requires CacheKeys(w) && ActionOk(tx, a) && DeltasUpTo(w, tx.blockNumber)
    ensures var w' := Perform(w, tx, a);
            CacheKeys(w') && SameBalances(S.Virtual(data, w'), S.Virtual(data, w)) && DeltasUpTo(w', tx.blockNumber)
  {
    hide ApplyOps; hide IsBalanceKey; hide S.IsDelegateKey; hide SameBalances; hide HistoryKey; hide SerAddressInfo;
    hide Apply; hide Applies;
    SameRefl(S.Virtual(data, w));
    if !w.thrown {
      match a
      case Row(prefix, address) =>
        HistoryNotBalance(prefix, address, w.counter);
        var info := AddressInfo(FilePosition(tx.fileName, tx.filePos), tx.blockNumber, tx.blockIndex, None);
        OpKeepsBalances(data, w.ops, Put(HistoryKey(prefix, address, w.counter), SerAddressInfo(info)));
      case Keep =>
      case Post(bd, e) =>
        if Applies(e) { ApplyNumber(BalanceOf(w.balances, bd), e); }
    }
  }

  lemma {:induction false} PerformAllKeepsBalances(data: Contents, w: Work, tx: Tx, actions: seq<Action>)
    requires CacheKeys(w) && (forall a :: a in actions ==> ActionOk(tx, a)) && DeltasUpTo(w, tx.blockNumber)
    ensures var w' := PerformAll(w, tx, actions);
            CacheKeys(w') && SameBalances(S.Virtual(data, w'), S.Virtual(data, w)) && DeltasUpTo(w', tx.blockNumber)
    decreases actions
  {
    hide CacheKeys; hide SameBalances; hide S.Virtual; hide Perform; hide ActionOk; hide DeltasUpTo;
    SameRefl(S.Virtual(data, w));
    if actions != [] {
      var w1 := Perform(w, tx, actions[0]);
      PerformKeepsBalances(data, w, tx, actions[0]);
      PerformAllKeepsBalances(data, w1, tx, actions[1..]);
      SameBalancesTrans(S.Virtual(data, PerformAll(w, tx, actions)), S.Virtual(data, w1), S.Virtual(data, w));
    }
  }

  /** Before the merge the batch leaves the stored balances as they are. */
  ghost predicate Ready(data: Contents, w: Work, n: u64)
  {
    CacheKeys(w) && SameBalances(S.Virtual(data, w), data) && DeltasUpTo(w, n)
  }

  lemma StartReady(data: Contents, c: u64, n: u64)
    ensures Ready(data, StartWork(c), n)
  {
  }

  lemma TxStepReady(data: Contents, m: Modules, isForging: bool, w: Work, tx: Tx)
    requires Ready(data, w, tx.blockNumber)
    ensures Ready(data, TxStep(data, m, isForging, w, tx), tx.blockNumber)
  {
    hide CacheKeys; hide SameBalances; hide SameElsewhere; hide S.Virtual; hide ActionOk; hide DelegateStep;
    hide PerformAll; hide ActionsOf;
    DelegateStepKeeps(data, w, tx);
    var w1 := DelegateStep(data, w, tx);
    ElsewhereBalances(S.Virtual(data, w1), S.Virtual(data, w));
    SameBalancesTrans(S.Virtual(data, w1), S.Virtual(data, w), data);
    ActionsOk(tx, LastStatus(w1), m, isForging);
    var actions := ActionsOf(tx, LastStatus(w1), m, isForging);
    PerformAllKeepsBalances(data, w1, tx, actions);
    SameBalancesTrans(S.Virtual(data, PerformAll(w1, tx, actions)), S.Virtual(data, w1), data);
  }

  lemma {:induction false} TxStepsReady(data: Contents, c: u64, m: Modules, isForging: bool, txs: seq<Tx>, n: u64)
    requires forall tx :: tx in txs ==> tx.blockNumber == n
    ensures Ready(data, TxSteps(data, m, isForging, StartWork(c), txs), n)
    decreases txs
  {
    hide Ready; hide TxStep;
    if txs == [] {
      StartReady(data, c, n);
    } else {
      var k := |txs| - 1;
      TxStepsReady(data, c, m, isForging, txs[..k], n);
      TxStepReady(data, m, isForging, TxSteps(data, m, isForging, StartWork(c), txs[..k]), txs[k]);
    }
  }

  // ----- the merge -----

  function DecodedBalance(v: Data): Balance
  {
    match BalanceCodec.Deser(v) case Returned(b) => b case Thrown => EMPTY
  }

  /** The stored record of an address, empty when there is none. */
  function Stored(data: Contents, bd: Data): Balance { DecodedBalance(Lookup(data, BalanceKey(bd))) }

  /** Every stored record can be read and belongs to a block no later than `last`. */
  ghost predicate BalancesGood(data: Contents, last: int)
  {
    forall bd :: StoredBalance(data, bd).Returned? && Stored(data, bd).blockNumber <= last
  }

  /** The merged records fit their 64-bit size fields. */
  predicate SizesFit(data: Contents, w: Work)
  {
    forall bd :: bd in w.balances ==> BalanceCodec.Storable(Plus(Stored(data, bd), w.balances[bd]))
  }

  lemma SerBalanceRoundTrip(b: Balance)
    requires BalanceCodec.Storable(b)
    ensures BalanceCodec.Deser(SerBalance(b)) == Returned(b)
  {
    hide SortedKeys; hide BalanceCodec.Deser; hide BalanceCodec.Ser; hide Less;
    var order := SortedKeys(b.tokens.Keys);
    assert BalanceCodec.Distinct(order) by {
      forall i, j | 0 <= i < j < |order| ensures order[i] != order[j] { LessIrreflexive(order[i]); }
    }
    BalanceCodec.RoundTrip(b, order);
  }

  lemma BalanceKeyInjective(a: Data, b: Data)
    ensures IsBalanceKey(BalanceKey(a))
    ensures BalanceKey(a) == BalanceKey(b) ==> a == b
  {
    assert BalanceKey(a)[2..] == a && BalanceKey(b)[2..] == b;
  }

  /** The worth of every stored record. */
  function StoredWorths(data: Contents): map<Key, int>
  {
    map k | k in data && IsBalanceKey(k) :: Measure(DecodedBalance(data[k]), Worth)
  }

  lemma SameWorths(a: Contents, b: Contents)
    requires SameBalances(a, b)
    ensures StoredWorths(a) == StoredWorths(b)
  {
    hide IsBalanceKey; hide Measure; hide DecodedBalance;
  }

  lemma SameStored(a: Contents, b: Contents, bd: Data)
    requires SameBalances(a, b)
    ensures Lookup(a, BalanceKey(bd)) == Lookup(b, BalanceKey(bd))
    ensures StoredBalance(a, bd) == StoredBalance(b, bd) && Stored(a, bd) == Stored(b, bd)
  {
    hide IsBalanceKey; hide DecodedBalance; hide BalanceKey; hide BalanceCodec.Deser;
    BalanceKeyInjective(bd, bd);
  }

  /** Writing the merged record of one address. */
  lemma WriteOne(v: Contents, bd: Data, b: Balance)
    requires BalanceCodec.Storable(b)
    ensures var v' := v[BalanceKey(bd) := SerBalance(b)];
            StoredBalance(v', bd) == Returned(b) &&
            (forall x :: x != bd ==> StoredBalance(v', x) == StoredBalance(v, x)) &&
            Total(StoredWorths(v')) == Total(StoredWorths(v)) - Measure(Stored(v, bd), Worth) + Measure(b, Worth)
  {
    hide SerBalance; hide Measure; hide Total; hide BalanceCodec.Deser; hide IsBalanceKey; hide BalanceKey;
    var k := BalanceKey(bd);
    var v' := v[k := SerBalance(b)];
    SerBalanceRoundTrip(b);
    BalanceKeyInjective(bd, bd);
    forall x | x != bd ensures StoredBalance(v', x) == StoredBalance(v, x) { BalanceKeyInjective(x, bd); }
    EmptyRecord();
    EmptyWorth();
    TotalPut(StoredWorths(v), k, Measure(b, Worth));
    assert StoredWorths(v') == StoredWorths(v)[k := Measure(b, Worth)];
  }

  lemma EmptyRecord()
    ensures DecodedBalance([]) == EMPTY
  {
  }

  /** The deltas of the first addresses. */
  function Among(balances: map<Data, Balance>, addresses: seq<Data>): map<Data, Balance>
  {
    map bd | bd in balances && bd in addresses :: balances[bd]
  }

  lemma AmongNext(balances: map<Data, Balance>, addresses: seq<Data>, bd: Data)
    requires bd in balances && bd !in addresses
    ensures Total(Worths(Among(balances, addresses + [bd]))) ==
            Total(Worths(Among(balances, addresses))) + Measure(balances[bd], Worth)
  {
    hide Measure; hide Total;
    var m := Worths(Among(balances, addresses));
    TotalPut(m, bd, Measure(balances[bd], Worth));
    assert Worths(Among(balances, addresses + [bd])) == m[bd := Measure(balances[bd], Worth)];
  }

  /** After the merge every address holds its old record plus its delta, and the total worth grew by the deltas'
      worth. */
  ghost predicate Merged(data: Contents, w: Work, addresses: seq<Data>, v: Contents)
  {
    (forall bd :: StoredBalance(v, bd) ==
       Returned(if bd in addresses then Plus(Stored(data, bd), BalanceOf(w.balances, bd)) else Stored(data, bd))) &&
    Wrap(Total(StoredWorths(v))) == Wrap(Total(StoredWorths(data)) + Total(Worths(Among(w.balances, addresses))))
  }

  lemma MergedStart(data: Contents, w: Work, n: u64, last: int)
    requires Ready(data, w, n) && BalancesGood(data, last)
    ensures Merged(data, w, [], S.Virtual(data, w))
  {
    hide Wrap; hide S.Virtual; hide SameBalances; hide CacheKeys; hide DeltasUpTo; hide Total; hide DecodedBalance;
    hide BalanceCodec.Deser; hide StoredWorths;
    var v := S.Virtual(data, w);
    SameWorths(v, data);
    forall bd ensures StoredBalance(v, bd) == Returned(Stored(data, bd)) {
      SameStored(v, data, bd);
      StoredIs(data, bd);
    }
    assert Among(w.balances, []) == map[];
    assert Worths(map[]) == map[];
    TotalEmpty();
  }

  lemma StoredIs(data: Contents, bd: Data)
    requires StoredBalance(data, bd).Returned?
    ensures StoredBalance(data, bd) == Returned(Stored(data, bd))
  {
  }

  lemma TotalEmpty()
    ensures Total<Data>(map[]) == 0
  {
  }

  lemma MergedNext(data: Contents, w: Work, addresses: seq<Data>, v: Contents, bd: Data)
    requires Merged(data, w, addresses, v) && SizesFit(data, w) && bd in w.balances && bd !in addresses
    ensures Merged(data, w, addresses + [bd], v[BalanceKey(bd) := SerBalance(Plus(Stored(data, bd), w.balances[bd]))])
  {
    hide Wrap; hide Total; hide DecodedBalance; hide BalanceCodec.Deser; hide StoredWorths; hide Plus; hide Measure;
    hide Worths; hide Among;
    hide SerBalance; hide BalanceKey; hide BalanceCodec.Storable;
    var old_, delta := Stored(data, bd), w.balances[bd];
    WriteOne(v, bd, Plus(old_, delta));
    assert StoredBalance(v, bd) == Returned(old_);
    assert Stored(v, bd) == old_ by { StoredIs(v, bd); }
    AmongNext(w.balances, addresses, bd);
    PlusMeasure(old_, delta, Worth);
    MergedSums(Total(StoredWorths(v)), Measure(old_, Worth), Measure(delta, Worth), Total(StoredWorths(data)),
      Total(Worths(Among(w.balances, addresses))));
  }

  lemma MergedSums(t: int, a: u64, d: u64, t0: int, s: int)
    requires Wrap(t) == Wrap(t0 + s)
    ensures Wrap(t - a + Wrap(a + d)) == Wrap(t0 + (s + d))
  {
    hide Wrap;
    AddWrapRight(t - a, a + d);
    AddWraps(t, 0, d);
    AddWraps(t0 + s, 0, d);
  }

  lemma {:induction false} MergeAllMerges(data: Contents, n: u64, w: Work, addresses: seq<Data>, last: int)
    requires Ready(data, w, n) && BalancesGood(data, last) && last < n && SizesFit(data, w) && !w.thrown
    requires BalanceCodec.Distinct(addresses) && forall bd :: bd in addresses ==> bd in w.balances
    ensures var w' := MergeAll(data, n, w, addresses);
            !w'.thrown && w'.balances == w.balances && Merged(data, w, addresses, S.Virtual(data, w'))
    decreases addresses
  {
    hide Ready; hide SizesFit; hide Merged; hide SerBalance; hide BalanceKey; hide Plus; hide DecodedBalance;
    hide BalanceCodec.Deser;
    if addresses == [] {
      MergedStart(data, w, n, last);
    } else {
      var k := |addresses| - 1;
      var before, bd := addresses[..k], addresses[k];
      var w1 := MergeAll(data, n, w, before);
      MergeAllMerges(data, n, w, before, last);
      assert addresses == before + [bd];
      assert bd in addresses && bd !in before;
      StoredIs(data, bd);
      var x := SerBalance(Plus(Stored(data, bd), w.balances[bd]));
      MergedNext(data, w, before, S.Virtual(data, w1), bd);
      ApplyOpsAppend(data, w1.ops, Put(BalanceKey(bd), x));
    }
  }
}
