/** The deltas of a block are merged by parallel threads (src/Workers/WorkerMain.cpp, parallelFor over the balances):
    whatever order they take, the same block is committed. */
module LedgerOrder {
  import opened Bytes
  import opened Store
  import opened Transaction
  import opened BalanceInfo
  import opened Records
  import opened Ledger
  import C = LedgerCommit

  /** The stored record can be read and is older than the block. */
  predicate Merges(data: Contents, number: u64, bd: Data)
  {
    StoredBalance(data, bd).Returned? && StoredBalance(data, bd).value.blockNumber < number
  }

  function MergedRecord(data: Contents, w: Work, bd: Data): Data
  {
    SerBalance(Plus(C.Stored(data, bd), BalanceOf(w.balances, bd)))
  }

  /** `v` is `before` with the merged records of these addresses written over it. */
  ghost predicate WrittenOver(data: Contents, number: u64, w: Work, addresses: set<Data>, before: Contents, v: Contents)
  {
    (forall bd :: bd in addresses && Merges(data, number, bd) ==>
       BalanceKey(bd) in v && v[BalanceKey(bd)] == MergedRecord(data, w, bd)) &&
    (forall k :: (forall bd :: bd in addresses && Merges(data, number, bd) ==> BalanceKey(bd) != k) ==>
       (k in v <==> k in before) && (k in v ==> v[k] == before[k]))
  }

  lemma NothingWritten(data: Contents, number: u64, w: Work, before: Contents)
    ensures WrittenOver(data, number, w, {}, before, before)
  {
  }

  lemma WriteNext(data: Contents, number: u64, w: Work, addresses: set<Data>, before: Contents, v: Contents, bd: Data)
    requires WrittenOver(data, number, w, addresses, before, v)
    ensures var v' := if Merges(data, number, bd) then v[BalanceKey(bd) := MergedRecord(data, w, bd)] else v;
            WrittenOver(data, number, w, addresses + {bd}, before, v')
  {
    hide MergedRecord; hide BalanceKey; hide Merges;
    var v' := if Merges(data, number, bd) then v[BalanceKey(bd) := MergedRecord(data, w, bd)] else v;
    forall x | x in addresses + {bd} && Merges(data, number, x)
      ensures BalanceKey(x) in v' && v'[BalanceKey(x)] == MergedRecord(data, w, x)
    {
      C.BalanceKeyInjective(x, bd);
    }
    forall k | forall x :: x in addresses + {bd} && Merges(data, number, x) ==> BalanceKey(x) != k
      ensures (k in v' <==> k in before) && (k in v' ==> v'[k] == before[k])
    {
      assert forall x :: x in addresses && Merges(data, number, x) ==> x in addresses + {bd};
      assert bd in addresses + {bd};
    }
  }

  /** What is written over something is determined by the set of addresses. */
  lemma OneResult(data: Contents, number: u64, w: Work, addresses: set<Data>, before: Contents, v: Contents,
                  v': Contents)
    requires WrittenOver(data, number, w, addresses, before, v) && WrittenOver(data, number, w, addresses, before, v')
    ensures v == v'
  {
    hide MergedRecord; hide BalanceKey; hide Merges;
    forall k ensures (k in v <==> k in v') && (k in v ==> v[k] == v'[k]) {
      if bd :| bd in addresses && Merges(data, number, bd) && BalanceKey(bd) == k {
        assert k in v && k in v';
      }
    }
    assert v.Keys == v'.Keys;
  }

  function AsSet(order: seq<Data>): set<Data> { set bd | bd in order }

  /** The whole merge, in any order: it throws exactly when a record cannot be read, and writes the merged records. */
  lemma {:induction false} MergeAllWrites(data: Contents, number: u64, w: Work, order: seq<Data>)
    requires !w.thrown
    ensures var w' := MergeAll(data, number, w, order);
            (w'.thrown <==> exists bd :: bd in order && StoredBalance(data, bd).Thrown?) &&
            w'.counter == w.counter && w'.balances == w.balances &&
            (!w'.thrown ==> WrittenOver(data, number, w, AsSet(order), ApplyOps(data, w.ops), ApplyOps(data, w'.ops)))
    decreases order
  {
    hide StoredBalance; hide WrittenOver; hide SerBalance; hide Plus; hide BalanceKey; hide ApplyOps; hide C.Stored;
    var before := ApplyOps(data, w.ops);
    if order == [] {
      NothingWritten(data, number, w, before);
      assert AsSet(order) == {};
    } else {
      var front, bd := order[..|order| - 1], order[|order| - 1];
      MergeAllWrites(data, number, w, front);
      assert order == front + [bd];
      assert AsSet(order) == AsSet(front) + {bd};
      var w1 := MergeAll(data, number, w, front);
      if !w1.thrown && StoredBalance(data, bd).Returned? {
        StoredIs(data, bd);
        WriteNext(data, number, w, AsSet(front), before, ApplyOps(data, w1.ops), bd);
        ApplyOpsAppend(data, w1.ops, Put(BalanceKey(bd), MergedRecord(data, w, bd)));
      }
    }
  }

  lemma StoredIs(data: Contents, bd: Data)
    requires StoredBalance(data, bd).Returned?
    ensures C.Stored(data, bd) == StoredBalance(data, bd).value
  {
  }

  /** One turn of the worker whose threads merge in the given order. */
  function BlockStepIn(node: Node, m: Modules, b: Block, order: seq<Data>): Node
  {
    if !Accepted(node.data, b) then node
    else
      var w := BlockWorkIn(node, m, b, order);
      Node(if w.thrown then node.data else ApplyOps(node.data, w.ops), w.counter)
  }

  /** The order lists the addresses of the block's deltas. */
  ghost predicate OrderOf(node: Node, m: Modules, b: Block, order: seq<Data>)
  {
    forall bd :: bd in order <==> bd in TransactionWork(node, m, b).balances
  }

  /** Any order of merging commits the same block, and fails for the same blocks. */
  lemma OrderIrrelevant(node: Node, m: Modules, b: Block, order: seq<Data>)
    requires OrderOf(node, m, b, order)
    ensures BlockStepIn(node, m, b, order) == BlockStep(node, m, b)
    ensures BlockWorkIn(node, m, b, order).thrown == BlockWork(node, m, b).thrown
  {
    hide TransactionWork; hide SerMainBlock; hide MainBlockWritable; hide Accepted; hide MergeAll; hide ApplyOps;
    hide SortedKeys;
    hide WrittenOver;
    var w := TransactionWork(node, m, b);
    var sorted := SortedKeys(w.balances.Keys);
    if m.balance {
      if w.thrown {
        ThrownStays(node.data, b.number, w, order);
        ThrownStays(node.data, b.number, w, sorted);
      } else {
        MergeAllWrites(node.data, b.number, w, order);
        MergeAllWrites(node.data, b.number, w, sorted);
        assert AsSet(order) == AsSet(sorted);
        SameCommit(node, b, w, order, sorted);
      }
    }
  }

  lemma {:induction false} ThrownStays(data: Contents, number: u64, w: Work, order: seq<Data>)
    requires w.thrown
    ensures MergeAll(data, number, w, order) == w
    decreases order
  {
    if order != [] { ThrownStays(data, number, w, order[..|order| - 1]); }
  }

  lemma SameCommit(node: Node, b: Block, w: Work, order: seq<Data>, sorted: seq<Data>)
    requires AsSet(order) == AsSet(sorted)
    requires var v, v' := MergeAll(node.data, b.number, w, order), MergeAll(node.data, b.number, w, sorted);
             !v.thrown && !v'.thrown ==>
               var before := ApplyOps(node.data, w.ops);
               WrittenOver(node.data, b.number, w, AsSet(order), before, ApplyOps(node.data, v.ops)) &&
               WrittenOver(node.data, b.number, w, AsSet(sorted), before, ApplyOps(node.data, v'.ops))
    ensures var v, v' := MergeAll(node.data, b.number, w, order), MergeAll(node.data, b.number, w, sorted);
            !v.thrown && !v'.thrown ==>
              forall op :: ApplyOps(node.data, v.ops + [op]) == ApplyOps(node.data, v'.ops + [op])
  {
    hide MergeAll; hide WrittenOver; hide ApplyOps;
    var v, v' := MergeAll(node.data, b.number, w, order), MergeAll(node.data, b.number, w, sorted);
    if !v.thrown && !v'.thrown {
      OneResult(node.data, b.number, w, AsSet(order), ApplyOps(node.data, w.ops), ApplyOps(node.data, v.ops),
                ApplyOps(node.data, v'.ops));
      forall op ensures ApplyOps(node.data, v.ops + [op]) == ApplyOps(node.data, v'.ops + [op]) {
        ApplyOpsAppend(node.data, v.ops, op);
        ApplyOpsAppend(node.data, v'.ops, op);
      }
    }
  }
}
