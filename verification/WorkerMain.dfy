/** The worker's imperative form: the batch, the counter and the per-block loop, proved against the ledger's
    functions. */
module WorkerMain {
  import opened Bytes
  import opened Store
  import opened Transaction
  import opened BalanceInfo
  import opened Records
  import opened Ledger
  import R = LedgerRuns
  import O = LedgerOrder

  class Counter {
    var counter: u64

    /** store(): one below the value given. */
    method Store(value: u64)
      modifies this
      ensures counter == Restarted(value)
    {
      counter := if value == 0 then MAX else value - 1;
    }

    method Get() returns (r: u64)
      modifies this
      ensures r == old(counter) && counter == Wrap(r - 1)
    {
      r := counter;
      counter := if counter == 0 then MAX else counter - 1;
    }
  }

  class Batch {
    var ops: seq<Op>
    var save: map<Key, Data>
    var deleted: set<Key>

    constructor ()
      ensures ops == [] && save == map[] && deleted == {}
    {
      ops, save, deleted := [], map[], {};
    }

    /** The saved set is emplaced into: a key already there keeps its value. */
    method AddKey(key: Key, value: Data, isSave: bool)
      modifies this
      ensures ops == old(ops) + [Put(key, value)] && deleted == old(deleted)
      ensures save == if isSave && key !in old(save) then old(save)[key := value] else old(save)
    {
      ops := ops + [Put(key, value)];
      if isSave && key !in save { save := save[key := value]; }
    }

    method RemoveValue(key: Key)
      modifies this
      ensures ops == old(ops) + [Delete(key)] && save == old(save) - {key} && deleted == old(deleted) + {key}
    {
      ops := ops + [Delete(key)];
      save := save - {key};
      deleted := deleted + {key};
    }
  }

  /** The block in progress as one value. */
  ghost function Snapshot(batch: Batch, countVal: Counter, cache: map<Data, seq<Key>>, balances: map<Data, Balance>,
                          statuses: seq<TxStatus>): Work
    reads batch, countVal
  {
    Work(batch.ops, batch.save, batch.deleted, cache, balances, countVal.counter, statuses, false)
  }

  /** The failed state keeps only what survives it: the flag and the counter. */
  ghost predicate FailedAs(countVal: Counter, w: Work)
    reads countVal
  {
    w.thrown && w.counter == countVal.counter
  }

  class WorkerMain {
    const leveldb: LevelDb
    const countVal: Counter
    const modules: Modules

    constructor (leveldb: LevelDb, modules: Modules)
      requires MainBlockOf(leveldb.data).Returned?
      ensures this.leveldb == leveldb && this.modules == modules && fresh(countVal)
      ensures countVal.counter == Restarted(MainBlockOf(leveldb.data).value.countVal)
    {
      var c := new Counter;
      this.leveldb, this.modules, countVal := leveldb, modules, c;
      new;
      c.Store(MainBlockOf(leveldb.data).value.countVal);
    }

    /** calcTransactionStatusDelegate for a delegation. */
    method Delegate(tx: Tx, batch: Batch, cache: map<Data, seq<Key>>, ghost balances: map<Data, Balance>,
                    ghost statuses: seq<TxStatus>)
      returns (ok: bool, cache': map<Data, seq<Key>>)
      requires tx.delegate.Some?
      modifies batch, countVal
      ensures var w := Push(old(Snapshot(batch, countVal, cache, balances, statuses)), PairOf(tx),
              DelegateState(tx.delegate.value.value, tx.hash));
              if ok then Snapshot(batch, countVal, cache', balances, statuses) == w else FailedAs(countVal, w)
    {
      var pair := PairOf(tx);
      cache' := cache;
      var c := countVal.Get();
      if tx.hash == [] { return false, cache'; }
      var key := DelegateKey(pair, c);
      batch.AddKey(key, SerDelegateState(DelegateState(tx.delegate.value.value, tx.hash)), true);
      cache' := cache[pair := (if pair in cache then cache[pair] else []) + [key]];
      ok := true;
    }

    /** calcTransactionStatusDelegate for an undelegation: the cache first, then the store without the deleted keys. */
    method Undelegate(tx: Tx, batch: Batch, cache: map<Data, seq<Key>>, ghost balances: map<Data, Balance>,
                      statuses: seq<TxStatus>)
      returns (ok: bool, cache': map<Data, seq<Key>>, statuses': seq<TxStatus>)
      modifies batch
      ensures var w0 := old(Snapshot(batch, countVal, cache, balances, statuses));
              var w := if Stack(w0, PairOf(tx)) != [] then PopCache(w0, PairOf(tx))
                else PopStore(leveldb.data, w0, PairOf(tx));
              if ok then Snapshot(batch, countVal, cache', balances, statuses') == w else FailedAs(countVal, w)
    {
      hide DeserDelegateState; hide FirstOf; hide PairOf; hide DelegatePrefix; hide SerDelegateState;
      var pair := PairOf(tx);
      cache', statuses', ok := cache, statuses, true;
      var dState := NO_STATE;
      if pair in cache && cache[pair] != [] {
        var s := cache[pair];
        var key := s[|s| - 1];
        cache' := cache[pair := s[..|s| - 1]];
        if key !in batch.save { return false, cache', statuses'; }
        var found := DeserDelegateState(batch.save[key]);
        if found.Thrown? || found.value.hash == [] { return false, cache', statuses'; }
        dState := found.value;
        batch.RemoveValue(key);
      } else {
        PrefixNotEmpty(pair);
        var key, value := leveldb.FindFirstOf(DelegatePrefix(pair), batch.deleted);
        FirstNotEmpty(leveldb.data, pair, batch.deleted);
        if key != [] {
          var found := DeserDelegateState(value);
          if found.Thrown? || found.value.hash == [] { return false, cache', statuses'; }
          dState := found.value;
          batch.RemoveValue(key);
        }
      }
      statuses' := statuses + [UnDelegating(dState.value, dState.hash)];
    }

    /** getInstantDelegateStatus. */
    method InstantDelegateStatus(tx: Tx, batch: Batch, cache: map<Data, seq<Key>>, ghost balances: map<Data, Balance>,
                                 statuses: seq<TxStatus>)
      returns (ok: bool, cache': map<Data, seq<Key>>, statuses': seq<TxStatus>)
      modifies batch, countVal
      ensures var w := DelegateStep(leveldb.data, old(Snapshot(batch, countVal, cache, balances, statuses)), tx);
              if ok then Snapshot(batch, countVal, cache', balances, statuses') == w else FailedAs(countVal, w)
    {
      hide PopCache; hide PopStore; hide Push; hide PairOf; hide SerDelegateState;
      cache', statuses', ok := cache, statuses, true;
      if tx.delegate.None? {
        statuses' := statuses + [NoStatus];
      } else if tx.intStatus.None? {
        ok := false;
      } else if tx.delegate.value.isDelegate {
        if !tx.IsNotSuccess() { ok, cache' := Delegate(tx, batch, cache, balances, statuses); }
        statuses' := statuses + [Delegating(!tx.IsNotSuccess())];
      } else {
        ok, cache', statuses' := Undelegate(tx, batch, cache, balances, statuses);
      }
    }

    /** The rows and entries of one transaction, in order. */
    method PerformActions(tx: Tx, actions: seq<Action>, batch: Batch, ghost cache: map<Data, seq<Key>>,
                          balances: map<Data, Balance>, ghost statuses: seq<TxStatus>)
      returns (ok: bool, balances': map<Data, Balance>)
      modifies batch, countVal
      ensures var w := PerformAll(old(Snapshot(batch, countVal, cache, balances, statuses)), tx, actions);
              if ok then Snapshot(batch, countVal, cache, balances', statuses) == w else FailedAs(countVal, w)
    {
      hide SerAddressInfo; hide HistoryKey; hide Apply; hide Applies; hide AddressWritable;
      balances' := balances;
      ghost var start := Snapshot(batch, countVal, cache, balances, statuses);
      var i := 0;
      while i < |actions|
        invariant 0 <= i <= |actions|
        invariant PerformAll(start, tx, actions) ==
                  PerformAll(Snapshot(batch, countVal, cache, balances', statuses), tx, actions[i..])
      {
        ghost var w := Snapshot(batch, countVal, cache, balances', statuses);
        var a := actions[i];
        PerformAllStep(w, tx, actions[i..]);
        assert actions[i..][1..] == actions[i + 1..];
        match a {
          case Row(prefix, address) =>
            var c := countVal.Get();
            var info := AddressInfo(FilePosition(tx.fileName, tx.filePos), tx.blockNumber, tx.blockIndex, None);
            if !AddressWritable(info) {
              PerformAllFailed(Perform(w, tx, a), tx, actions[i + 1..]);
              return false, balances';
            }
            batch.AddKey(HistoryKey(prefix, address, c), SerAddressInfo(info), false);
          case Keep =>
            if tx.blockNumber == 0 || tx.fileName == [] {
              PerformAllFailed(Perform(w, tx, a), tx, actions[i + 1..]);
              return false, balances';
            }
          case Post(bd, entry) =>
            if !Applies(entry) {
              PerformAllFailed(Perform(w, tx, a), tx, actions[i + 1..]);
              return false, balances';
            }
            balances' := balances'[bd := Apply(if bd in balances' then balances'[bd] else EMPTY, entry)];
        }
        assert Snapshot(batch, countVal, cache, balances', statuses) == Perform(w, tx, a);
        i := i + 1;
      }
      assert actions[i..] == [];
      ok := true;
    }

    /** One transaction of the loop in worker(). */
    method ProcessTx(tx: Tx, isForging: bool, batch: Batch, cache: map<Data, seq<Key>>, balances: map<Data, Balance>,
                     statuses: seq<TxStatus>)
      returns (ok: bool, cache': map<Data, seq<Key>>, balances': map<Data, Balance>, statuses': seq<TxStatus>)
      modifies batch, countVal
      ensures var w := TxStep(leveldb.data, modules, isForging,
              old(Snapshot(batch, countVal, cache, balances, statuses)), tx);
              if ok then Snapshot(batch, countVal, cache', balances', statuses') == w else FailedAs(countVal, w)
    {
      hide DelegateStep; hide PerformAll; hide ActionsOf;
      ok, cache', balances', statuses' := true, cache, balances, statuses;
      if modules.balance || modules.txs || modules.addrTxs {
        ok, cache', statuses' := InstantDelegateStatus(tx, batch, cache, balances, statuses);
        if ok {
          var status := if statuses' == [] then NoStatus else statuses'[|statuses'| - 1];
          ok, balances' := PerformActions(tx, ActionsOf(tx, status, modules, isForging), batch, cache', balances,
            statuses');
        }
      }
    }

    /** The transactions of a block. */
    method ProcessTxs(txs: seq<Tx>, isForging: bool, batch: Batch)
      returns (ok: bool, balances: map<Data, Balance>, ghost w: Work)
      requires batch.ops == [] && batch.save == map[] && batch.deleted == {}
      modifies batch, countVal
      ensures w == TxSteps(leveldb.data, modules, isForging, StartWork(old(countVal.counter)), txs)
      ensures if ok then w == Snapshot(batch, countVal, w.cache, balances, w.statuses) else FailedAs(countVal, w)
    {
      hide TxStep;
      ghost var start := StartWork(countVal.counter);
      var cache, statuses: seq<TxStatus> := map[], [];
      balances, ok := map[], true;
      var i := 0;
      while i < |txs|
        invariant 0 <= i <= |txs|
        invariant Snapshot(batch, countVal, cache, balances, statuses) ==
                  TxSteps(leveldb.data, modules, isForging, start, txs[..i])
      {
        assert txs[..i + 1][..i] == txs[..i];
        ok, cache, balances, statuses := ProcessTx(txs[i], isForging, batch, cache, balances, statuses);
        i := i + 1;
        if !ok {
          TxStepsFailed(leveldb.data, modules, isForging, start, txs, i);
          w := TxSteps(leveldb.data, modules, isForging, start, txs);
          return;
        }
      }
      assert txs[..i] == txs;
      ok := true;
      w := TxSteps(leveldb.data, modules, isForging, start, txs);
    }

    /** Merging the deltas into the stored balances, in the order in which the threads take them. */
    method MergeBalances(number: u64, batch: Batch, balances: map<Data, Balance>, addresses: seq<Data>, ghost w: Work)
      returns (ok: bool)
      requires w == Snapshot(batch, countVal, w.cache, balances, w.statuses)
      modifies batch
      ensures var w' := MergeAll(leveldb.data, number, w, addresses);
              if ok then w' == Snapshot(batch, countVal, w.cache, balances, w.statuses) else w'.thrown
      ensures countVal.counter == w.counter
    {
      hide StoredBalance; hide SerBalance; hide BalanceKey; hide Plus; hide MergeAll;
      var i := 0;
      MergeAllNone(leveldb.data, number, w, addresses);
      while i < |addresses|
        invariant 0 <= i <= |addresses|
        invariant MergeAll(leveldb.data, number, w, addresses[..i]) ==
                  Snapshot(batch, countVal, w.cache, balances, w.statuses)
      {
        var bd := addresses[i];
        MergeAllNext(leveldb.data, number, w, addresses, i);
        var old_ := StoredBalance(leveldb.data, bd);
        i := i + 1;
        if old_.Thrown? {
          MergeAllFailed(leveldb.data, number, w, addresses, i);
          return false;
        }
        if old_.value.blockNumber < number {
          batch.AddKey(BalanceKey(bd), SerBalance(Plus(old_.value, if bd in balances then balances[bd] else EMPTY)),
            false);
        }
      }
      assert addresses[..i] == addresses;
      ok := true;
    }

    /** One turn of worker(), whose threads take the merged addresses in any order: the block is committed in one write,
        or the data is untouched. */
    method ProcessBlock(b: Block, schedule: set<Data> -> seq<Data>) returns (committed: bool)
      requires IsSchedule(schedule)
      modifies leveldb, countVal
      ensures Node(leveldb.data, countVal.counter) == BlockStep(old(Node(leveldb.data, countVal.counter)), modules, b)
      ensures committed == Commits(old(Node(leveldb.data, countVal.counter)), modules, b)
    {
      hide TxSteps; hide MergeAll; hide SortedKeys; hide SerMainBlock; hide MainBlockOf; hide ApplyOps;
      hide MainBlockWritable; hide BlockStep;
      hide BlockWork;
      committed := false;
      ghost var node := Node(leveldb.data, countVal.counter);
      ghost var order := schedule(TransactionWork(node, modules, b).balances.Keys);
      O.OrderIrrelevant(node, modules, b, order);
      var last := MainBlockOf(leveldb.data);
      if last.Thrown? || b.number <= last.value.blockNumber { return; }
      if last.value.blockHash != [] && last.value.blockHash != b.prevHash { return; }
      var batch := new Batch();
      var ok, balances: map<Data, Balance> := true, map[];
      ghost var w := StartWork(countVal.counter);
      if b.kind.Forging? || b.kind.Simple? {
        ok, balances, w := ProcessTxs(b.txs, b.kind.Forging?, batch);
      } else if b.kind.State? && !b.stateValid {
        ok := false;
        w := Failed(w);
      }
      if !ok {
        O.ThrownStays(leveldb.data, b.number, w, order);
        return;
      }
      if modules.balance {
        R.MergeCounter(leveldb.data, b.number, w, order);
        ok := MergeBalances(b.number, batch, balances, schedule(balances.Keys), w);
        if !ok { return; }
      }
      var info := MainBlockInfo(b.number, b.hash, countVal.counter);
      if !MainBlockWritable(info) { return; }
      batch.AddKey(MAIN_BLOCK_KEY, SerMainBlock(info), false);
      leveldb.Write(batch.ops);
      committed := true;
    }
  }

  /** Lists every address of a set. */
  ghost predicate IsSchedule(schedule: set<Data> -> seq<Data>)
  {
    forall s, bd :: bd in schedule(s) <==> bd in s
  }

  lemma PerformAllStep(w: Work, tx: Tx, actions: seq<Action>)
    requires actions != []
    ensures PerformAll(w, tx, actions) == PerformAll(Perform(w, tx, actions[0]), tx, actions[1..])
  {
  }

  lemma {:induction false} PerformAllFailed(w: Work, tx: Tx, actions: seq<Action>)
    requires w.thrown
    ensures PerformAll(w, tx, actions) == w
    decreases actions
  {
    if actions != [] { PerformAllFailed(w, tx, actions[1..]); }
  }

  /** Once a check has failed the remaining transactions change nothing. */
  lemma {:induction false} TxStepsFailed(data: Contents, m: Modules, isForging: bool, w: Work, txs: seq<Tx>, i: nat)
    requires i <= |txs| && TxSteps(data, m, isForging, w, txs[..i]).thrown
    ensures TxSteps(data, m, isForging, w, txs) == TxSteps(data, m, isForging, w, txs[..i])
    decreases txs
  {
    hide DelegateStep; hide PerformAll; hide ActionsOf;
    if i == |txs| {
      assert txs[..i] == txs;
    } else {
      var n := |txs| - 1;
      assert txs[..n][..i] == txs[..i];
      TxStepsFailed(data, m, isForging, w, txs[..n], i);
    }
  }

  lemma MergeAllNone(data: Contents, number: u64, w: Work, addresses: seq<Data>)
    ensures MergeAll(data, number, w, addresses[..0]) == w
  {
    hide MergeOne;
  }

  lemma MergeAllNext(data: Contents, number: u64, w: Work, addresses: seq<Data>, i: nat)
    requires i < |addresses|
    ensures MergeAll(data, number, w, addresses[..i + 1]) ==
            MergeOne(data, number, MergeAll(data, number, w, addresses[..i]), addresses[i])
  {
    hide MergeOne;
    assert addresses[..i + 1][..i] == addresses[..i];
  }

  lemma {:induction false} MergeAllFailed(data: Contents, number: u64, w: Work, addresses: seq<Data>, i: nat)
    requires i <= |addresses| && MergeAll(data, number, w, addresses[..i]).thrown
    ensures MergeAll(data, number, w, addresses).thrown
    decreases addresses
  {
    hide StoredBalance; hide SerBalance; hide BalanceKey; hide Plus;
    if i == |addresses| {
      assert addresses[..i] == addresses;
    } else {
      var n := |addresses| - 1;
      assert addresses[..n][..i] == addresses[..i];
      MergeAllFailed(data, number, w, addresses[..n], i);
    }
  }

  lemma PrefixNotEmpty(pair: Data)
    ensures DelegatePrefix(pair) != []
  {
  }

  lemma FirstNotEmpty(data: Contents, pair: Data, excluded: set<Key>)
    ensures FirstOf(data, DelegatePrefix(pair), excluded).Some? ==>
            FirstOf(data, DelegatePrefix(pair), excluded).value != []
  {
  }
}
