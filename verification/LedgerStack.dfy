/** The stack cache, the batch and the ordered store act as one stack of delegations per (from, to) pair. */
module LedgerStack {
  import opened Bytes
  import opened Serialize
  import opened Store
  import opened Transaction
  import opened BalanceInfo
  import opened Records
  import opened Ledger
  import opened LedgerTerms

  // ----- the keys of one pair -----

  /** A pair of 25-byte addresses with the delimiter between them. */
  const PAIR_SIZE := 51
  const PREFIX_SIZE := 54
  const KEY_SIZE := 62

  predicate IsDelegateKey(k: Key) { DELEGATE_PREFIX <= k }

  function KeyCounter(k: Key): nat
    requires |k| == KEY_SIZE
  {
    FromBigEndian(k[PREFIX_SIZE..])
  }

  lemma KeyShape(p: Data, c: u64)
    requires |p| == PAIR_SIZE
    ensures var k := DelegateKey(p, c);
            |k| == KEY_SIZE && DelegatePrefix(p) <= k && IsDelegateKey(k) && KeyCounter(k) == c
  {
    hide SerInt; hide FromBigEndian;
    var k := DelegateKey(p, c);
    assert k[PREFIX_SIZE..] == SerInt(c);
    CounterRoundTrip(c);
  }

  lemma CounterRoundTrip(c: u64)
    ensures FromBigEndian(SerInt(c)) == c
  {
    Pow256Of8();
    BigEndianRoundTrip(c, 8);
  }

  lemma PrefixUnique(p: Data, q: Data, k: Key)
    requires |p| == |q| == PAIR_SIZE && DelegatePrefix(p) <= k && DelegatePrefix(q) <= k
    ensures p == q
  {
    assert DelegatePrefix(p) == k[..PREFIX_SIZE] == DelegatePrefix(q);
    assert p == DelegatePrefix(p)[2..53] && q == DelegatePrefix(q)[2..53];
  }

  /** Why the addresses of a pair must be of one length: the name of the initial wallet is one byte shorter, and the
      prefix of a pair that starts with it also begins keys of a pair of addresses. */
  lemma InitialWalletClash(rest: Data, c: u64)
    requires |rest| == 24
    ensures var wallet := BdString([]);
            var (a, b, to) := (wallet + [DELIMITER], rest + [POSTFIX], [DELIMITER] + rest);
            |a| == |b| == |to| == 25 && DelegatePrefix(PairKey(wallet, to)) <= DelegateKey(PairKey(a, b), c)
  {
    hide SerInt;
    var wallet := BdString([]);
    var (a, b, to) := (wallet + [DELIMITER], rest + [POSTFIX], [DELIMITER] + rest);
    assert PairKey(wallet, to) + [POSTFIX] == PairKey(a, b);
    assert DelegatePrefix(PairKey(wallet, to)) == DELEGATE_PREFIX + PairKey(a, b);
  }

  lemma PrefixIsDelegate(p: Data, k: Key)
    requires DelegatePrefix(p) <= k
    ensures IsDelegateKey(k)
  {
    assert DELEGATE_PREFIX == DelegatePrefix(p)[..2] == k[..2];
  }

  /** Within a pair the key with the smaller counter comes first: newest first. */
  lemma CounterOrder(p: Data, a: Key, b: Key)
    requires |p| == PAIR_SIZE && |a| == |b| == KEY_SIZE && DelegatePrefix(p) <= a && DelegatePrefix(p) <= b
    ensures Less(a, b) <==> KeyCounter(a) < KeyCounter(b)
    ensures KeyCounter(a) == KeyCounter(b) ==> a == b
  {
    hide Less; hide FromBigEndian;
    var pre := DelegatePrefix(p);
    assert a == pre + a[PREFIX_SIZE..] && b == pre + b[PREFIX_SIZE..];
    LessAfterPrefix(pre, a[PREFIX_SIZE..], b[PREFIX_SIZE..]);
    FromBigEndianOrder(a[PREFIX_SIZE..], b[PREFIX_SIZE..]);
  }

  // ----- the abstract stack -----

  /** The stored value of a delegation. */
  function Decoded(v: Data): DelegateState
  {
    match DeserDelegateState(v) case Returned(d) => d case Thrown => NO_STATE
  }

  function PairKeys(data: Contents, p: Data): set<Key> { Candidates(data, DelegatePrefix(p), {}) }

  function StackAlong(data: Contents, ks: seq<Key>): seq<DelegateState>
    requires forall k :: k in ks ==> k in data
  {
    seq(|ks|, i requires 0 <= i < |ks| => Decoded(data[ks[i]]))
  }

  /** The outstanding delegations of a pair, the newest first. */
  function StackOf(data: Contents, p: Data): seq<DelegateState>
  {
    StackAlong(data, SortedKeys(PairKeys(data, p)))
  }

  /** What a transaction does to the stack of a pair: a successful delegate pushes, every undelegate pops. */
  function PairStep(tx: Tx, p: Data, s: seq<DelegateState>): seq<DelegateState>
  {
    if tx.delegate.None? || PairOf(tx) != p then s
    else if tx.delegate.value.isDelegate then
      if Successful(tx) then [DelegateState(tx.delegate.value.value, tx.hash)] + s else s
    else if s == [] then [] else s[1..]
  }

  /** What a transaction must report, given the stack of its pair. */
  function Expected(tx: Tx, s: seq<DelegateState>): TxStatus
  {
    if tx.delegate.None? then NoStatus
    else if tx.delegate.value.isDelegate then Delegating(Successful(tx))
    else var top := if s == [] then NO_STATE else s[0]; UnDelegating(top.value, top.hash)
  }

  // ----- pushing and popping the least key of a pair -----

  lemma SortedWithLeast(s: set<Key>, k: Key)
    requires IsLeast(k, s)
    ensures SortedKeys(s) == [k] + SortedKeys(s - {k})
  {
    hide Less; hide SortedKeys;
    var r := [k] + SortedKeys(s - {k});
    assert forall x :: x in r <==> x in s;
    assert Ascending(r) by {
      forall i, j | 0 <= i < j < |r| ensures Less(r[i], r[j]) {
        assert r[j] in s - {k};
      }
    }
    SortedUnique(SortedKeys(s), r);
  }

  lemma AlongAgree(a: Contents, b: Contents, ks: seq<Key>)
    requires forall k :: k in ks ==> k in a && k in b && a[k] == b[k]
    ensures StackAlong(a, ks) == StackAlong(b, ks)
  {
    hide Decoded;
    forall i | 0 <= i < |ks| ensures a[ks[i]] == b[ks[i]] { assert ks[i] in ks; }
  }

  lemma PushedKeys(v: Contents, p: Data, k: Key, x: Data)
    requires DelegatePrefix(p) <= k && k !in v
    requires forall y :: y in PairKeys(v, p) ==> Less(k, y)
    ensures StackOf(v[k := x], p) == [Decoded(x)] + StackOf(v, p)
  {
    hide Less; hide SortedKeys; hide Decoded; hide PairKeys; hide DelegatePrefix; hide StackAlong;
    var s, t := PairKeys(v, p), PairKeys(v[k := x], p);
    PairKeysPut(v, p, k, x);
    SortedWithLeast(t, k);
    AlongAgree(v, v[k := x], SortedKeys(s));
    AlongCons(v[k := x], k, SortedKeys(s));
  }

  lemma AlongCons(data: Contents, k: Key, ks: seq<Key>)
    requires k in data && forall y :: y in ks ==> y in data
    ensures StackAlong(data, [k] + ks) == [Decoded(data[k])] + StackAlong(data, ks)
  {
    hide Decoded;
  }

  lemma PairKeysPut(v: Contents, p: Data, k: Key, x: Data)
    requires DelegatePrefix(p) <= k && k !in v
    ensures PairKeys(v[k := x], p) == PairKeys(v, p) + {k} && PairKeys(v, p) == PairKeys(v[k := x], p) - {k} &&
            k !in PairKeys(v, p)
    ensures forall y :: y in PairKeys(v, p) ==> y in v
  {
    hide DelegatePrefix;
  }

  lemma PoppedKeys(v: Contents, p: Data, k: Key)
    requires IsLeast(k, PairKeys(v, p))
    ensures StackOf(v, p) != [] && StackOf(v, p)[0] == Decoded(v[k])
    ensures StackOf(v - {k}, p) == StackOf(v, p)[1..]
  {
    hide Less; hide SortedKeys; hide Decoded;
    var s, t := PairKeys(v, p), PairKeys(v - {k}, p);
    assert t == s - {k};
    SortedWithLeast(s, k);
    AlongAgree(v, v - {k}, SortedKeys(t));
    assert StackAlong(v, [k] + SortedKeys(t))[1..] == StackAlong(v, SortedKeys(t));
  }

  lemma EmptyStack(v: Contents, p: Data)
    ensures PairKeys(v, p) == {} <==> StackOf(v, p) == []
  {
    hide SortedKeys;
    assert |SortedKeys(PairKeys(v, p))| == |PairKeys(v, p)|;
  }

  /** Contents that agree on the delegations have the same stacks. */
  ghost predicate SameDelegates(a: Contents, b: Contents)
  {
    forall k :: IsDelegateKey(k) ==> (k in a <==> k in b) && (k in a ==> a[k] == b[k])
  }

  lemma SameStacks(a: Contents, b: Contents, p: Data)
    requires SameDelegates(a, b)
    ensures StackOf(a, p) == StackOf(b, p)
  {
    hide SortedKeys; hide Decoded;
    forall k | DelegatePrefix(p) <= k ensures IsDelegateKey(k) { PrefixIsDelegate(p, k); }
    assert PairKeys(a, p) == PairKeys(b, p);
    AlongAgree(a, b, SortedKeys(PairKeys(a, p)));
  }

  /** A key of another pair, or of another family, does not touch the stack of a pair. */
  lemma OtherKey(v: Contents, p: Data, k: Key, x: Data)
    requires !(DelegatePrefix(p) <= k)
    ensures StackOf(v[k := x], p) == StackOf(v, p)
    ensures StackOf(v - {k}, p) == StackOf(v, p)
  {
    hide SortedKeys; hide Decoded;
    assert PairKeys(v[k := x], p) == PairKeys(v, p) == PairKeys(v - {k}, p);
    AlongAgree(v, v[k := x], SortedKeys(PairKeys(v, p)));
    AlongAgree(v, v - {k}, SortedKeys(PairKeys(v, p)));
  }

  // ----- the invariant of a block in progress -----

  /** A well-formed delegation numbered above `floor`. */
  predicate Good(k: Key, v: Data, floor: int)
  {
    |k| == KEY_SIZE && KeyCounter(k) > floor &&
    DeserDelegateState(v).Returned? && DeserDelegateState(v).value.hash != []
  }

  ghost predicate GoodStore(data: Contents, floor: int)
  {
    forall k :: k in data && IsDelegateKey(k) ==> Good(k, data[k], floor)
  }

  /** The store as if the batch were written now. */
  function Virtual(data: Contents, w: Work): Contents { ApplyOps(data, w.ops) }

  /** Numbers drawn in this block are at most `first` and above the counter. */
  ghost predicate SavedGood(data: Contents, first: int, w: Work)
  {
    forall k :: k in w.save ==>
      IsDelegateKey(k) && k !in data && k !in w.deleted && Good(k, w.save[k], w.counter) && KeyCounter(k) <= first
  }

  /** The virtual store has the saved delegations and the stored ones that were not deleted. */
  ghost predicate BatchMeans(data: Contents, w: Work, v: Contents)
  {
    forall k :: IsDelegateKey(k) ==>
      (k in v <==> (k in data && k !in w.deleted) || k in w.save) &&
      (k in w.save ==> v[k] == w.save[k]) &&
      (k in v && k !in w.save ==> v[k] == data[k])
  }

  /** The cache of a pair lists its saved delegations, the newest last. */
  ghost predicate CacheOk(w: Work, p: Data)
  {
    var s := Stack(w, p);
    (forall k :: k in s <==> k in w.save && DelegatePrefix(p) <= k) &&
    (forall i, j :: 0 <= i < j < |s| ==> Less(s[j], s[i]))
  }

  /** A deleted key was drawn earlier, so no later draw can give it again. */
  ghost predicate DeletedOld(w: Work)
  {
    forall k :: k in w.deleted ==> |k| == KEY_SIZE && KeyCounter(k) > w.counter
  }

  ghost predicate Inv(data: Contents, first: int, w: Work)
  {
    w.counter <= first &&
    GoodStore(data, first) &&
    SavedGood(data, first, w) &&
    DeletedOld(w) &&
    BatchMeans(data, w, Virtual(data, w)) &&
    forall p :: |p| == PAIR_SIZE ==> CacheOk(w, p)
  }

  lemma StartInv(data: Contents, counter: u64)
    requires GoodStore(data, counter)
    ensures Inv(data, counter, StartWork(counter))
    ensures Virtual(data, StartWork(counter)) == data
  {
  }

  lemma VirtualStart(data: Contents, counter: u64)
    ensures Virtual(data, StartWork(counter)) == data
  {
  }

  /** A saved delegation is newer than every stored one of its pair. */
  lemma SavedBeforeStored(data: Contents, first: int, w: Work, p: Data, k: Key, x: Key)
    requires GoodStore(data, first) && SavedGood(data, first, w) && |p| == PAIR_SIZE
    requires k in w.save && DelegatePrefix(p) <= k && x in data && DelegatePrefix(p) <= x
    ensures Less(k, x)
  {
    hide Less; hide KeyCounter; hide DelegatePrefix; hide DeserDelegateState;
    PrefixIsDelegate(p, x);
    CounterOrder(p, k, x);
  }

  /** The top of a non-empty cache is the newest delegation of the pair. */
  lemma CacheTop(data: Contents, first: int, w: Work, p: Data)
    requires Inv(data, first, w) && |p| == PAIR_SIZE && Stack(w, p) != []
    ensures var s := Stack(w, p); IsLeast(s[|s| - 1], PairKeys(Virtual(data, w), p)) && s[|s| - 1] in w.save
  {
    hide Less; hide Virtual; hide Good; hide DelegatePrefix; hide IsDelegateKey;
    var s, v := Stack(w, p), Virtual(data, w);
    var top := s[|s| - 1];
    assert CacheOk(w, p);
    assert top in s;
    PrefixIsDelegate(p, top);
    forall x | x in PairKeys(v, p) && x != top ensures Less(top, x) {
      PrefixIsDelegate(p, x);
      if x in w.save {
        assert x in s;
      } else {
        SavedBeforeStored(data, first, w, p, top, x);
      }
    }
  }

  /** With an empty cache the search of the store, without the deleted keys, sees what the virtual store has. */
  lemma StoreView(data: Contents, first: int, w: Work, p: Data)
    requires Inv(data, first, w) && |p| == PAIR_SIZE && Stack(w, p) == []
    ensures Candidates(data, DelegatePrefix(p), w.deleted) == PairKeys(Virtual(data, w), p)
    ensures forall k :: k in PairKeys(Virtual(data, w), p) ==> k in data && Virtual(data, w)[k] == data[k]
  {
    hide Less; hide Virtual; hide Good; hide DelegatePrefix; hide IsDelegateKey;
    assert CacheOk(w, p);
    forall k | DelegatePrefix(p) <= k ensures IsDelegateKey(k) && k !in w.save {
      PrefixIsDelegate(p, k);
      assert k !in Stack(w, p);
    }
  }

  // ----- the three ways a delegation step changes the batch -----

  /** A fresh key is newer than everything the pair has. */
  lemma FreshKey(data: Contents, first: int, w: Work, p: Data)
    requires Inv(data, first, w) && |p| == PAIR_SIZE
    ensures var k := DelegateKey(p, w.counter);
            k !in data && k !in w.save && k !in w.deleted && k !in Virtual(data, w) &&
            forall y :: y in PairKeys(Virtual(data, w), p) ==> Less(k, y)
  {
    hide Less; hide Virtual; hide DelegatePrefix; hide KeyCounter; hide DelegateKey; hide IsDelegateKey;
    hide DeserDelegateState;
    var k, v := DelegateKey(p, w.counter), Virtual(data, w);
    KeyShape(p, w.counter);
    forall y | y in PairKeys(v, p) ensures Less(k, y) {
      PrefixIsDelegate(p, y);
      assert y in w.save || y in data;
      CounterOrder(p, k, y);
    }
  }

  lemma PushFields(data: Contents, first: int, w: Work, p: Data, d: DelegateState)
    requires Inv(data, first, w) && |p| == PAIR_SIZE && w.counter >= 1 && d.hash != []
    ensures var k, w' := DelegateKey(p, w.counter), Push(w, p, d);
            w'.counter == w.counter - 1 && w'.save == w.save[k := SerDelegateState(d)] && w'.deleted == w.deleted &&
            Virtual(data, w') == Virtual(data, w)[k := SerDelegateState(d)]
  {
    hide Inv; hide DelegateKey; hide SerDelegateState; hide ApplyOps; hide PairKeys; hide Less;
    var k := DelegateKey(p, w.counter);
    FreshKey(data, first, w, p);
    ApplyOpsAppend(data, w.ops, Put(k, SerDelegateState(d)));
  }

  lemma PushBatch(data: Contents, first: int, w: Work, w': Work, k: Key, x: Data)
    requires Inv(data, first, w) && w.counter >= 1
    requires k !in data && k !in w.save && k !in w.deleted && IsDelegateKey(k) && Good(k, x, w.counter - 1) &&
             KeyCounter(k) <= first
    requires w'.counter == w.counter - 1 && w'.save == w.save[k := x] && w'.deleted == w.deleted
    requires Virtual(data, w') == Virtual(data, w)[k := x]
    ensures SavedGood(data, first, w') && DeletedOld(w') && BatchMeans(data, w', Virtual(data, w'))
  {
    hide KeyCounter; hide IsDelegateKey; hide DeserDelegateState; hide Virtual; hide CacheOk; hide GoodStore;
  }

  lemma PushCache(data: Contents, first: int, w: Work, p: Data, d: DelegateState, q: Data)
    requires Inv(data, first, w) && |p| == PAIR_SIZE && |q| == PAIR_SIZE && d.hash != []
    ensures CacheOk(Push(w, p, d), q)
  {
    hide Less; hide DelegatePrefix; hide KeyCounter; hide DelegateKey; hide Virtual; hide SerDelegateState;
    hide DeserDelegateState;
    hide IsDelegateKey; hide BatchMeans;
    var k, w' := DelegateKey(p, w.counter), Push(w, p, d);
    FreshKey(data, first, w, p);
    KeyShape(p, w.counter);
    assert CacheOk(w, q);
    if q == p {
      var s, t := Stack(w, p), Stack(w', p);
      assert t == s + [k];
      forall i, j | 0 <= i < j < |t| ensures Less(t[j], t[i]) {
        if j == |s| {
          assert s[i] in s;
          CounterOrder(p, k, s[i]);
        }
      }
    } else if DelegatePrefix(q) <= k {
      PrefixUnique(p, q, k);
    }
  }

  lemma PushStep(data: Contents, first: int, w: Work, p: Data, d: DelegateState)
    requires Inv(data, first, w) && |p| == PAIR_SIZE && w.counter >= 1
    requires d.hash != [] && |d.hash| < TWO_64
    ensures var w' := Push(w, p, d);
            Inv(data, first, w') && w'.statuses == w.statuses && w'.counter == w.counter - 1 && w'.thrown == w.thrown
    ensures forall q :: |q| == PAIR_SIZE ==>
              StackOf(Virtual(data, Push(w, p, d)), q) ==
              (if q == p then [d] else []) + StackOf(Virtual(data, w), q)
  {
    hide CacheOk; hide BatchMeans; hide SavedGood; hide DeletedOld; hide StackOf; hide DelegateKey; hide Virtual;
    hide SerDelegateState;
    hide GoodStore; hide PairKeys; hide DelegatePrefix; hide Decoded;
    var k, w', v := DelegateKey(p, w.counter), Push(w, p, d), Virtual(data, w);
    FreshKey(data, first, w, p);
    KeyShape(p, w.counter);
    PushFields(data, first, w, p, d);
    assert Good(k, SerDelegateState(d), w.counter - 1) by { DelegateStateRoundTrip(d); }
    PushBatch(data, first, w, w', k, SerDelegateState(d));
    forall q | |q| == PAIR_SIZE ensures CacheOk(w', q) { PushCache(data, first, w, p, d, q); }
    forall q | |q| == PAIR_SIZE ensures StackOf(Virtual(data, w'), q) == (if q == p then [d] else []) + StackOf(v, q) {
      KeyShape(p, w.counter);
      if q == p {
        FreshKey(data, first, w, p);
        PushedKeys(v, p, k, SerDelegateState(d));
        DecodedPush(d);
      } else {
        if DelegatePrefix(q) <= k { PrefixUnique(p, q, k); }
        OtherKey(v, q, k, SerDelegateState(d));
        assert [] + StackOf(v, q) == StackOf(v, q);
      }
    }
  }

  lemma DecodedPush(d: DelegateState)
    requires |d.hash| < TWO_64
    ensures Decoded(SerDelegateState(d)) == d
  {
    hide SerDelegateState; hide DeserDelegateState;
    DelegateStateRoundTrip(d);
  }

  lemma PopBatch(data: Contents, first: int, w: Work, w0: Work, k: Key)
    requires Inv(data, first, w)
    requires w0 == w.(cache := w0.cache)
    requires IsDelegateKey(k) && (k in w.save || k in data) && k in Virtual(data, w)
    ensures var w' := Removed(w0, k);
            Virtual(data, w') == Virtual(data, w) - {k} &&
            SavedGood(data, first, w') && DeletedOld(w') && BatchMeans(data, w', Virtual(data, w'))
  {
    hide Less; hide KeyCounter; hide IsDelegateKey; hide DeserDelegateState; hide ApplyOps; hide CacheOk;
    ApplyOpsAppend(data, w.ops, Delete(k));
  }

  lemma WithoutLast(s: seq<Key>)
    requires s != [] && forall i, j :: 0 <= i < j < |s| ==> Less(s[j], s[i])
    ensures forall x :: x in s[..|s| - 1] <==> x in s && x != s[|s| - 1]
  {
    hide Less;
    var k, t := s[|s| - 1], s[..|s| - 1];
    assert s == t + [k];
    LessIrreflexive(k);
    forall i | 0 <= i < |t| ensures t[i] != k { assert Less(s[|s| - 1], s[i]); }
  }

  /** Popping the cache leaves every cache in line with the saved keys. */
  lemma PopCacheOk(data: Contents, first: int, w: Work, p: Data, q: Data)
    requires Inv(data, first, w) && |p| == PAIR_SIZE && |q| == PAIR_SIZE && Stack(w, p) != []
    ensures var s := Stack(w, p);
            CacheOk(Removed(w.(cache := w.cache[p := s[..|s| - 1]]), s[|s| - 1]), q)
  {
    hide Less; hide DelegatePrefix; hide Virtual; hide BatchMeans; hide SavedGood; hide DeletedOld; hide GoodStore;
    var s := Stack(w, p);
    var k := s[|s| - 1];
    assert CacheOk(w, p) && CacheOk(w, q);
    assert k in s;
    if q == p {
      WithoutLast(s);
      var w' := Removed(w.(cache := w.cache[p := s[..|s| - 1]]), k);
      var t := Stack(w', p);
      assert t == s[..|s| - 1];
      forall x ensures x in t <==> x in w'.save && DelegatePrefix(p) <= x {
        assert x in s <==> x in w.save && DelegatePrefix(p) <= x;
      }
      forall i, j | 0 <= i < j < |t| ensures Less(t[j], t[i]) { assert Less(s[j], s[i]); }
    } else if DelegatePrefix(q) <= k {
      PrefixUnique(p, q, k);
    }
  }

  lemma PopCacheStep(data: Contents, first: int, w: Work, p: Data)
    requires Inv(data, first, w) && |p| == PAIR_SIZE && Stack(w, p) != []
    ensures var w', top := PopCache(w, p), StackOf(Virtual(data, w), p);
            Inv(data, first, w') && w'.thrown == w.thrown && w'.counter == w.counter && top != [] &&
            w'.statuses == w.statuses + [UnDelegating(top[0].value, top[0].hash)]
    ensures forall q :: |q| == PAIR_SIZE ==>
              StackOf(Virtual(data, PopCache(w, p)), q) ==
              if q == p then StackOf(Virtual(data, w), q)[1..] else StackOf(Virtual(data, w), q)
  {
    hide DeletedOld; hide StackOf; hide DelegatePrefix; hide DeserDelegateState; hide GoodStore; hide KeyCounter;
    hide Less;
    hide PairKeys; hide Virtual; hide IsDelegateKey;
    var s, v := Stack(w, p), Virtual(data, w);
    var k := s[|s| - 1];
    var w0 := w.(cache := w.cache[p := s[..|s| - 1]]);
    assert CacheOk(w, p) && k in s;
    CacheTop(data, first, w, p);
    assert k in w.save && k in v && v[k] == w.save[k] && Good(k, w.save[k], w.counter);
    hide BatchMeans; hide SavedGood;
    PopBatch(data, first, w, w0, k);
    forall q | |q| == PAIR_SIZE ensures CacheOk(Removed(w0, k), q) { PopCacheOk(data, first, w, p, q); }
    PoppedStacks(v, p, k);
    var d := Decoded(w.save[k]);
    ReportedInv(data, first, Removed(w0, k), UnDelegating(d.value, d.hash));
    SameOps(data, Removed(w0, k), Reported(Removed(w0, k), UnDelegating(d.value, d.hash)));
  }

  /** Removing the least key of a pair pops that pair and no other. */
  lemma PoppedStacks(v: Contents, p: Data, k: Key)
    requires |p| == PAIR_SIZE && IsLeast(k, PairKeys(v, p))
    ensures StackOf(v, p) != [] && StackOf(v, p)[0] == Decoded(v[k])
    ensures forall q :: |q| == PAIR_SIZE ==>
              StackOf(v - {k}, q) == if q == p then StackOf(v, q)[1..] else StackOf(v, q)
  {
    hide StackOf; hide DelegatePrefix; hide Decoded; hide Less;
    PoppedKeys(v, p, k);
    forall q | |q| == PAIR_SIZE ensures StackOf(v - {k}, q) == if q == p then StackOf(v, q)[1..] else StackOf(v, q) {
      if q != p {
        if DelegatePrefix(q) <= k { PrefixUnique(p, q, k); }
        OtherKey(v, q, k, []);
      }
    }
  }

  lemma PopStoreStep(data: Contents, first: int, w: Work, p: Data)
    requires Inv(data, first, w) && |p| == PAIR_SIZE && Stack(w, p) == []
    ensures var w', s := PopStore(data, w, p), StackOf(Virtual(data, w), p);
            var top := if s == [] then NO_STATE else s[0];
            Inv(data, first, w') && w'.thrown == w.thrown && w'.counter == w.counter &&
            w'.statuses == w.statuses + [UnDelegating(top.value, top.hash)]
    ensures forall q :: |q| == PAIR_SIZE ==>
              var s := StackOf(Virtual(data, w), q);
              StackOf(Virtual(data, PopStore(data, w, p)), q) == if q == p && s != [] then s[1..] else s
  {
    hide DeletedOld; hide StackOf; hide DelegatePrefix; hide DeserDelegateState; hide KeyCounter; hide Less;
    hide Virtual; hide SavedGood; hide FirstOf; hide BatchMeans; hide PairKeys;
    var v := Virtual(data, w);
    StoreView(data, first, w, p);
    EmptyStack(v, p);
    match FirstOf(data, DelegatePrefix(p), w.deleted)
    case None =>
      assert Virtual(data, Reported(w, UnDelegating(0, []))) == v by {
        SameOps(data, w, Reported(w, UnDelegating(0, [])));
      }
      ReportedInv(data, first, w, UnDelegating(0, []));
    case Some(k) =>
      assert k in PairKeys(v, p);
      PairKeyIn(v, p, k);
      PrefixIsDelegate(p, k);
      assert Good(k, data[k], first);
      hide IsDelegateKey; hide GoodStore;
      PopBatch(data, first, w, w, k);
      forall q | |q| == PAIR_SIZE ensures CacheOk(Removed(w, k), q) { StoreCacheOk(data, first, w, k, q); }
      PoppedStacks(v, p, k);
      ReportedInv(data, first, Removed(w, k), UnDelegating(Decoded(data[k]).value, Decoded(data[k]).hash));
      SameOps(data, Removed(w, k), Reported(Removed(w, k),
        UnDelegating(Decoded(data[k]).value, Decoded(data[k]).hash)));
  }

  lemma PairKeyIn(v: Contents, p: Data, k: Key)
    requires k in PairKeys(v, p)
    ensures k in v && DelegatePrefix(p) <= k
  {
  }

  lemma SameOps(data: Contents, w: Work, w': Work)
    requires w.ops == w'.ops
    ensures Virtual(data, w) == Virtual(data, w')
  {
  }

  /** Reporting a status changes nothing else. */
  lemma ReportedInv(data: Contents, first: int, w: Work, s: TxStatus)
    requires Inv(data, first, w)
    ensures Inv(data, first, Reported(w, s))
  {
    hide Less; hide Good; hide KeyCounter; hide DelegatePrefix; hide IsDelegateKey; hide Virtual; hide GoodStore;
    var w' := Reported(w, s);
    SameOps(data, w, w');
    forall p | |p| == PAIR_SIZE ensures CacheOk(w', p) { assert CacheOk(w, p); }
  }

  lemma StoreCacheOk(data: Contents, first: int, w: Work, k: Key, q: Data)
    requires Inv(data, first, w) && |q| == PAIR_SIZE && k !in w.save
    ensures CacheOk(Removed(w, k), q)
  {
    hide Less; hide Good; hide KeyCounter; hide DelegatePrefix; hide IsDelegateKey; hide ApplyOps;
    assert CacheOk(w, q);
  }
}
