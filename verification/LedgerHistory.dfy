/** The histories of an address and of its tokens: rows numbered by the decreasing counter read back newest first, page
    by page. */
module LedgerHistory {
  import opened Bytes
  import opened Serialize
  import opened Store
  import opened Transaction
  import opened BalanceInfo
  import opened Records
  import opened Ledger
  import opened LedgerTerms
  import S = LedgerStack
  import R = LedgerRuns
  import C = LedgerCommit

  // ----- the range findAddress scans -----

  /** The two lists of an address: the transactions it takes part in, and those of its tokens. */
  datatype List = OfAddress | OfTokens

  function Prefix(l: List): Data { if l.OfAddress? then ADDRESS_PREFIX else ADDRESS_TOKEN_PREFIX }

  function RowPrefixSize(l: List): nat { if l.OfAddress? then 28 else 29 }

  function RowSize(l: List): nat { RowPrefixSize(l) + 8 }

  function RowsBegin(l: List, address: Address): Key { HistoryPrefix(Prefix(l), address) }

  function RowsEnd(l: List, address: Address): Key { Prefix(l) + BdString(address) + [POSTFIX + 1] }

  /** A key lies in the scanned range exactly when it carries the address's prefix. */
  lemma RangeIsPrefix(l: List, address: Address, k: Key)
    ensures !Less(k, RowsBegin(l, address)) && Less(k, RowsEnd(l, address)) <==> RowsBegin(l, address) <= k
  {
    NextPrefix(Prefix(l) + BdString(address), POSTFIX, k);
  }

  lemma {:induction false} NextPrefix(p: Data, c: byte, k: Key)
    requires c < 255
    ensures !Less(k, p + [c]) && Less(k, p + [c + 1]) <==> p + [c] <= k
  {
    if p == [] {
      assert p + [c] == [c] && p + [c + 1] == [c + 1];
      LessSingle(k, c);
      LessSingle(k, c + 1);
      if k != [] { assert [c] <= k <==> k[0] == c; }
    } else if k != [] {
      assert (p + [c])[1..] == p[1..] + [c] && (p + [c + 1])[1..] == p[1..] + [c + 1];
      NextPrefix(p[1..], c, k[1..]);
      assert p + [c] <= k <==> k[0] == p[0] && p[1..] + [c] <= k[1..] by { PrefixHead(p + [c], k); }
    }
  }

  lemma LessSingle(k: Key, c: byte)
    ensures Less(k, [c]) <==> k == [] || k[0] < c
  {
    if k != [] && k[0] == c {
      assert [c][1..] == [];
      assert !Less(k[1..], [c][1..]);
    }
  }

  lemma PrefixHead(q: Data, k: Data)
    requires q != [] && k != []
    ensures q <= k <==> k[0] == q[0] && q[1..] <= k[1..]
  {
    if k[0] == q[0] && q[1..] <= k[1..] {
      assert q == [q[0]] + q[1..] && k == [k[0]] + k[1..];
    }
  }

  /** The keys of an address's rows, in store order. */
  function RowKeys(l: List, data: Contents, address: Address): seq<Key>
  {
    SortedKeys(Candidates(data, RowsBegin(l, address), {}))
  }

  lemma RowKeysAreRange(l: List, data: Contents, address: Address)
    ensures RangeKeys(data, RowsBegin(l, address), RowsEnd(l, address)) == RowKeys(l, data, address)
  {
    hide Less; hide SortedKeys; hide RowsBegin; hide RowsEnd; hide Ascending;
    forall k ensures !Less(k, RowsBegin(l, address)) && Less(k, RowsEnd(l, address)) <==> RowsBegin(l, address) <= k {
      RangeIsPrefix(l, address, k);
    }
    SortedUnique(RangeKeys(data, RowsBegin(l, address), RowsEnd(l, address)), RowKeys(l, data, address));
  }

  function DecodedRow(v: Data): Option<AddressInfo>
  {
    match DeserAddressInfo(v) case Returned(a) => Some(a) case Thrown => None
  }

  function Along(data: Contents, ks: seq<Key>): seq<Option<AddressInfo>>
    requires forall k :: k in ks ==> k in data
  {
    seq(|ks|, i requires 0 <= i < |ks| => DecodedRow(data[ks[i]]))
  }

  /** The rows of an address as findAddress and findAddressTokens read them. */
  function History(l: List, data: Contents, address: Address): seq<Option<AddressInfo>>
  {
    Along(data, RowKeys(l, data, address))
  }

  /** findAddress and findAddressTokens over the store object. */
  method FindAddress(l: List, db: LevelDb, address: Address, from: nat, count: nat)
    returns (thrown: bool, r: seq<AddressInfo>)
    ensures thrown <==> None in Page(History(l, db.data, address), from, count)
    ensures !thrown ==>
              Page(History(l, db.data, address), from, count) == seq(|r|, i requires 0 <= i < |r| => Some(r[i]))
  {
    hide Less; hide SortedKeys; hide RowsBegin; hide RowsEnd; hide DecodedRow;
    var ks := db.FindKeyInternal(RowsBegin(l, address), RowsEnd(l, address), from, count);
    RowKeysAreRange(l, db.data, address);
    var data := db.data;
    PageMembers(RowKeys(l, data, address), from, count);
    AlongPage(data, RowKeys(l, data, address), from, count);
    ghost var rows := Page(History(l, data, address), from, count);
    r := [];
    for i := 0 to |ks|
      invariant |r| == i && forall k :: 0 <= k < i ==> rows[k] == Some(r[k])
    {
      var row := DecodedRow(data[ks[i]]);
      assert rows[i] == row;
      if row.None? { return true, []; }
      r := r + [row.value];
    }
    thrown := false;
  }

  lemma PageMembers(ks: seq<Key>, from: nat, count: nat)
    ensures forall k :: k in Page(ks, from, count) ==> k in ks
  {
  }

  lemma AlongPage(data: Contents, ks: seq<Key>, from: nat, count: nat)
    requires forall k :: k in ks ==> k in data
    ensures forall k :: k in Page(ks, from, count) ==> k in data
    ensures Along(data, Page(ks, from, count)) == Page(Along(data, ks), from, count)
  {
    hide DecodedRow;
    PageMembers(ks, from, count);
  }

  // ----- pages -----

  function Pages<T>(s: seq<T>, count: nat, from: nat): seq<T>
    requires count > 0
    decreases |s| - from
  {
    if from >= |s| then [] else Page(s, from, count) + Pages(s, count, from + count)
  }

  lemma SplitAt<T>(s: seq<T>, from: nat, to: nat)
    requires from <= to <= |s|
    ensures s[from..] == s[from..to] + s[to..]
  {
  }

  /** Successive pages of any nonzero size tile the history: nothing missing, nothing twice. */
  lemma {:induction false} PagesTile<T>(s: seq<T>, count: nat, from: nat)
    requires count > 0 && from <= |s|
    ensures Pages(s, count, from) == s[from..]
    decreases |s| - from
  {
    if from < |s| {
      if from + count <= |s| {
        PagesTile(s, count, from + count);
        SplitAt(s, from, from + count);
      } else {
        assert Pages(s, count, from + count) == [];
      }
    }
  }

  // ----- a row is put before all older rows of its address -----

  predicate IsRowKey(l: List, k: Key) { Prefix(l) <= k }

  /** Every stored row is well formed and numbered above the counter. */
  ghost predicate RowsAbove(l: List, v: Contents, floor: int)
  {
    forall k :: k in v && IsRowKey(l, k) ==> |k| == RowSize(l) && FromBigEndian(k[RowPrefixSize(l)..]) > floor
  }

  lemma RowKeyShape(l: List, address: Address, c: u64)
    requires |address| == 25
    ensures var k := HistoryKey(Prefix(l), address, c);
            |k| == RowSize(l) && IsRowKey(l, k) && RowsBegin(l, address) <= k &&
              FromBigEndian(k[RowPrefixSize(l)..]) == c
    ensures |RowsBegin(l, address)| == RowPrefixSize(l)
  {
    hide SerInt; hide FromBigEndian;
    var k := HistoryKey(Prefix(l), address, c);
    assert k[RowPrefixSize(l)..] == SerInt(c);
    assert Prefix(l) == k[..|Prefix(l)|];
    S.CounterRoundTrip(c);
  }

  lemma RowPrefixUnique(l: List, a: Address, b: Address, k: Key)
    requires |a| == |b| == 25 && RowsBegin(l, a) <= k && RowsBegin(l, b) <= k
    ensures a == b
  {
    assert RowsBegin(l, a) == k[..RowPrefixSize(l)] == RowsBegin(l, b);
    assert a == RowsBegin(l, a)[|Prefix(l)|..RowPrefixSize(l) - 1] &&
      b == RowsBegin(l, b)[|Prefix(l)|..RowPrefixSize(l) - 1];
  }

  lemma RowPrefixIsRow(l: List, a: Address, k: Key)
    requires RowsBegin(l, a) <= k
    ensures IsRowKey(l, k)
  {
    assert Prefix(l) == RowsBegin(l, a)[..|Prefix(l)|] == k[..|Prefix(l)|];
  }

  lemma RowOrder(l: List, a: Address, x: Key, y: Key)
    requires |a| == 25 && |x| == |y| == RowSize(l) && RowsBegin(l, a) <= x && RowsBegin(l, a) <= y
    ensures Less(x, y) <==> FromBigEndian(x[RowPrefixSize(l)..]) < FromBigEndian(y[RowPrefixSize(l)..])
  {
    hide Less; hide FromBigEndian;
    var pre := RowsBegin(l, a);
    assert x == pre + x[RowPrefixSize(l)..] && y == pre + y[RowPrefixSize(l)..];
    LessAfterPrefix(pre, x[RowPrefixSize(l)..], y[RowPrefixSize(l)..]);
    FromBigEndianOrder(x[RowPrefixSize(l)..], y[RowPrefixSize(l)..]);
  }

  lemma AlongAgree(a: Contents, b: Contents, ks: seq<Key>)
    requires forall k :: k in ks ==> k in a && k in b && a[k] == b[k]
    ensures Along(a, ks) == Along(b, ks)
  {
    hide DecodedRow;
    forall i | 0 <= i < |ks| ensures a[ks[i]] == b[ks[i]] { assert ks[i] in ks; }
  }

  lemma OtherRow(l: List, v: Contents, a: Address, k: Key, x: Data)
    requires !(RowsBegin(l, a) <= k)
    ensures History(l, v[k := x], a) == History(l, v, a)
  {
    hide SortedKeys; hide DecodedRow; hide RowsBegin;
    assert Candidates(v[k := x], RowsBegin(l, a), {}) == Candidates(v, RowsBegin(l, a), {});
    AlongAgree(v, v[k := x], RowKeys(l, v, a));
  }

  lemma NewRowKey(l: List, v: Contents, a: Address, c: u64, x: Data)
    requires |a| == 25 && RowsAbove(l, v, c)
    ensures var k := HistoryKey(Prefix(l), a, c);
            k !in v && RowKeys(l, v[k := x], a) == [k] + RowKeys(l, v, a)
  {
    hide Less; hide SortedKeys; hide FromBigEndian; hide HistoryKey; hide IsRowKey; hide RowsBegin;
    var k := HistoryKey(Prefix(l), a, c);
    RowKeyShape(l, a, c);
    var s, t := Candidates(v, RowsBegin(l, a), {}), Candidates(v[k := x], RowsBegin(l, a), {});
    forall y | y in s ensures Less(k, y) {
      RowPrefixIsRow(l, a, y);
      RowOrder(l, a, k, y);
    }
    assert t == s + {k} && s == t - {k};
    assert IsLeast(k, t);
    S.SortedWithLeast(t, k);
  }

  lemma NewRow(l: List, v: Contents, a: Address, c: u64, x: Data)
    requires |a| == 25 && RowsAbove(l, v, c)
    ensures var k := HistoryKey(Prefix(l), a, c);
            k !in v && History(l, v[k := x], a) == [DecodedRow(x)] + History(l, v, a)
  {
    hide RowKeys; hide DecodedRow; hide HistoryKey; hide RowsAbove;
    var k := HistoryKey(Prefix(l), a, c);
    NewRowKey(l, v, a, c, x);
    RowKeysIn(l, v, a);
    AlongAgree(v, v[k := x], RowKeys(l, v, a));
    AlongCons(v[k := x], k, RowKeys(l, v, a));
  }

  lemma RowKeysIn(l: List, v: Contents, a: Address)
    ensures forall k :: k in RowKeys(l, v, a) ==> k in v
  {
    hide SortedKeys;
  }

  lemma AlongCons(v: Contents, k: Key, ks: seq<Key>)
    requires k in v && forall x :: x in ks ==> x in v
    ensures Along(v, [k] + ks) == [DecodedRow(v[k])] + Along(v, ks)
  {
    hide DecodedRow;
  }

  // ----- one transaction -----

  function InfoOf(tx: Tx): AddressInfo
  {
    AddressInfo(FilePosition(tx.fileName, tx.filePos), tx.blockNumber, tx.blockIndex, None)
  }

  /** The addresses that a token transaction names have 25 bytes. */
  predicate Named(tx: Tx, info: TokenInfo)
  {
    match info
    case Create(owner, _, begin) => |owner| == 25 && forall i :: 0 <= i < |begin| ==> |begin[i].0| == 25
    case ChangeOwner(newOwner) => |tx.from| == 25 && |newOwner| == 25
    case ChangeEmission => |tx.from| == 25
    case AddTokens(to, _) => |to| == 25
    case MoveTokens(to, _) => |tx.from| == 25 && |to| == 25
    case BurnTokens(_) => |tx.from| == 25
  }

  /** Senders are 25-byte addresses or the initial wallet, recipients 25-byte addresses. */
  predicate Addressed(tx: Tx, m: Modules)
  {
    (tx.from == [] || |tx.from| == 25) && |tx.to| == 25 && |tx.fileName| < TWO_64 &&
    (m.txs && tx.tokenInfo.Some? && Successful(tx) ==> Named(tx, tx.tokenInfo.value))
  }

  /** Rows are keyed by 25-byte addresses. */
  predicate RowFits(tx: Tx, x: Action)
  {
    R.RowOk(x) && (x.Row? ==> |x.address| == 25)
  }

  function RowsFor(l: List, actions: seq<Action>, a: Address): nat
    decreases actions
  {
    if actions == [] then 0 else (if actions[0] == Row(Prefix(l), a) then 1 else 0) + RowsFor(l, actions[1..], a)
  }

  function Repeat<T>(x: T, n: nat): seq<T> { seq(n, _ => x) }

  ghost predicate HistoryInv(l: List, data: Contents, w: Work)
  {
    RowsAbove(l, S.Virtual(data, w), w.counter)
  }

  lemma OtherKeyNotRow(l: List, prefix: Data, a: Address, c: u64)
    requires prefix != Prefix(l) && (prefix == ADDRESS_PREFIX || prefix == ADDRESS_TOKEN_PREFIX)
    ensures !IsRowKey(l, HistoryKey(prefix, a, c))
  {
    assert HistoryKey(prefix, a, c)[0] == prefix[0];
  }

  lemma DecodedRowOf(tx: Tx)
    requires |tx.fileName| < TWO_64
    ensures DecodedRow(SerAddressInfo(InfoOf(tx))) == Some(InfoOf(tx))
  {
    hide SerAddressInfo; hide DeserAddressInfo;
    AddressInfoRoundTrip(InfoOf(tx));
  }

  lemma PutKeepsRows(l: List, v: Contents, k: Key, x: Data, floor: int, c: u64)
    requires RowsAbove(l, v, floor) && c == floor &&
             (IsRowKey(l, k) ==> |k| == RowSize(l) && FromBigEndian(k[RowPrefixSize(l)..]) == c)
    ensures RowsAbove(l, v[k := x], floor - 1)
  {
    hide IsRowKey; hide FromBigEndian;
  }

  lemma PerformHistory(l: List, data: Contents, w: Work, tx: Tx, x: Action, a: Address)
    requires HistoryInv(l, data, w) && RowFits(tx, x) && |a| == 25 && (x.Row? ==> w.counter >= 1) &&
             |tx.fileName| < TWO_64
    requires !Perform(w, tx, x).thrown
    ensures var w' := Perform(w, tx, x);
            HistoryInv(l, data, w') && w'.counter == w.counter - (if x.Row? then 1 else 0) &&
            History(l, S.Virtual(data, w'), a) ==
            (if x == Row(Prefix(l), a) then [Some(InfoOf(tx))] else []) + History(l, S.Virtual(data, w), a)
  {
    hide ApplyOps; hide History; hide SerAddressInfo; hide HistoryKey; hide Apply; hide Applies; hide IsRowKey;
    hide FromBigEndian; hide RowsBegin; hide RowsAbove;
    var v, c := S.Virtual(data, w), w.counter;
    assert [] + History(l, v, a) == History(l, v, a);
    if x.Row? {
      var k, value := HistoryKey(x.prefix, x.address, c), SerAddressInfo(InfoOf(tx));
      ApplyOpsAppend(data, w.ops, Put(k, value));
      if x.prefix == Prefix(l) {
        RowKeyShape(l, x.address, c);
        PutKeepsRows(l, v, k, value, c, c);
        if x.address == a {
          NewRow(l, v, a, c, value);
          DecodedRowOf(tx);
        } else {
          if RowsBegin(l, a) <= k { RowPrefixUnique(l, a, x.address, k); }
          OtherRow(l, v, a, k, value);
        }
      } else {
        OtherKeyNotRow(l, x.prefix, x.address, c);
        PutKeepsRows(l, v, k, value, c, c);
        if RowsBegin(l, a) <= k { RowPrefixIsRow(l, a, k); }
        OtherRow(l, v, a, k, value);
      }
    }
  }

  lemma {:induction false} PerformAllHistory(l: List, data: Contents, w: Work, tx: Tx, actions: seq<Action>, a: Address)
    requires HistoryInv(l, data, w) && (forall x :: x in actions ==> RowFits(tx, x)) && |a| == 25 &&
             |tx.fileName| < TWO_64
    requires R.RowCount(actions) <= w.counter && !PerformAll(w, tx, actions).thrown
    ensures var w' := PerformAll(w, tx, actions);
            HistoryInv(l, data, w') && w'.counter == w.counter - R.RowCount(actions) &&
            History(l, S.Virtual(data, w'), a) == Repeat(Some(InfoOf(tx)), RowsFor(l, actions, a)) +
              History(l, S.Virtual(data, w), a)
    decreases actions
  {
    hide HistoryInv; hide History; hide S.Virtual; hide Perform; hide RowFits;
    var h := History(l, S.Virtual(data, w), a);
    if actions == [] {
      assert Repeat(Some(InfoOf(tx)), 0) + h == h;
    } else {
      var w1 := Perform(w, tx, actions[0]);
      var rest := actions[1..];
      assert actions[0] in actions;
      AllRun(w1, tx, rest);
      PerformHistory(l, data, w, tx, actions[0], a);
      PerformAllHistory(l, data, w1, tx, rest, a);
      RepeatMore(Some(InfoOf(tx)), RowsFor(l, rest, a), actions[0] == Row(Prefix(l), a), h);
    }
  }

  lemma {:induction false} AllRun(w: Work, tx: Tx, actions: seq<Action>)
    requires !PerformAll(w, tx, actions).thrown
    ensures !w.thrown
    decreases actions
  {
    if actions != [] {
      AllRun(Perform(w, tx, actions[0]), tx, actions[1..]);
      R.PerformThrown(w, tx, actions[0]);
    }
  }

  lemma RepeatMore<T>(x: T, n: nat, more: bool, h: seq<T>)
    ensures Repeat(x, n) + ((if more then [x] else []) + h) == Repeat(x, n + if more then 1 else 0) + h
  {
    assert Repeat(x, n + 1) == Repeat(x, n) + [x];
  }

  // ----- which rows a transaction makes -----

  /** How many of the shares go to the address. */
  function SharesTo(begin: seq<(Address, u64)>, a: Address): nat
  {
    if begin == [] then 0 else (if begin[0].0 == a then 1 else 0) + SharesTo(begin[1..], a)
  }

  /** How often a token transaction names the address; who moves tokens to himself is named once. */
  function TimesNamed(tx: Tx, info: TokenInfo, a: Address): nat
  {
    match info
    case Create(owner, _, begin) => (if owner == a then 1 else 0) + SharesTo(begin, a)
    case ChangeOwner(newOwner) => (if tx.from == a then 1 else 0) + if newOwner == a then 1 else 0
    case ChangeEmission => if tx.from == a then 1 else 0
    case AddTokens(to, _) => if to == a then 1 else 0
    case MoveTokens(to, _) => if tx.from == a || to == a then 1 else 0
    case BurnTokens(_) => if tx.from == a then 1 else 0
  }

  /** How often a transaction is in a list of an address: once if the address takes part in it; and, when it succeeds,
      as often as its token part names the address. */
  function TimesIn(l: List, tx: Tx, m: Modules, a: Address): nat
  {
    match l
    case OfAddress => if m.addrTxs && Counted(tx) && (tx.from == a || tx.to == a) then 1 else 0
    case OfTokens =>
      if m.txs && tx.tokenInfo.Some? && Successful(tx) then TimesNamed(tx, tx.tokenInfo.value, a) else 0
  }

  lemma {:induction false} RowsForConcat(l: List, s: seq<Action>, t: seq<Action>, a: Address)
    ensures RowsFor(l, s + t, a) == RowsFor(l, s, a) + RowsFor(l, t, a)
    decreases s
  {
    if s == [] {
      assert s + t == t;
    } else {
      assert (s + t)[1..] == s[1..] + t;
      RowsForConcat(l, s[1..], t, a);
    }
  }

  lemma {:induction false} RowsForNone(l: List, s: seq<Action>, a: Address)
    requires forall x :: x in s ==> x != Row(Prefix(l), a)
    ensures RowsFor(l, s, a) == 0
    decreases s
  {
    if s != [] {
      assert s[0] in s && forall x :: x in s[1..] ==> x in s;
      RowsForNone(l, s[1..], a);
    }
  }

  lemma OneRow(l: List, prefix: Data, address: Address, a: Address)
    ensures RowsFor(l, [Row(prefix, address)], a) == if prefix == Prefix(l) && address == a then 1 else 0
  {
    assert [Row(prefix, address)][1..] == [];
  }

  lemma PrefixesDiffer(l: List)
    ensures Prefix(l) == ADDRESS_PREFIX <==> l.OfAddress?
    ensures Prefix(l) == ADDRESS_TOKEN_PREFIX <==> l.OfTokens?
  {
    assert ADDRESS_TOKEN_PREFIX[0] != ADDRESS_PREFIX[0];
  }

  lemma AddressRowsFor(l: List, tx: Tx, address: Address, status: TxStatus, m: Modules, isForging: bool, a: Address)
    requires address == [] || |address| == 25
    ensures RowsFor(l, AddressActions(tx, address, status, m, isForging), a) ==
            if l.OfAddress? && address != [] && Counted(tx) && m.addrTxs && address == a then 1 else 0
    ensures forall x :: x in AddressActions(tx, address, status, m, isForging) ==> RowFits(tx, x)
  {
    var actions := AddressActions(tx, address, status, m, isForging);
    PrefixesDiffer(l);
    if address != [] && Counted(tx) && m.addrTxs {
      assert actions == [Row(ADDRESS_PREFIX, address)] + actions[1..];
      RowsForConcat(l, [Row(ADDRESS_PREFIX, address)], actions[1..], a);
      RowsForNone(l, actions[1..], a);
      OneRow(l, ADDRESS_PREFIX, address, a);
    } else {
      RowsForNone(l, actions, a);
    }
  }

  function ShareRows(begin: seq<(Address, u64)>): seq<Action>
  {
    seq(|begin|, i requires 0 <= i < |begin| => Row(ADDRESS_TOKEN_PREFIX, begin[i].0))
  }

  lemma {:induction false} ShareRowsFor(begin: seq<(Address, u64)>, a: Address)
    ensures RowsFor(OfTokens, ShareRows(begin), a) == SharesTo(begin, a)
    decreases begin
  {
    if begin != [] {
      assert ShareRows(begin)[1..] == ShareRows(begin[1..]);
      ShareRowsFor(begin[1..], a);
    }
  }

  lemma NamedRowsFor(tx: Tx, info: TokenInfo, a: Address)
    ensures RowsFor(OfTokens, TokenRows(tx, info), a) == TimesNamed(tx, info, a)
  {
    hide RowsFor;
    match info
    case Create(owner, _, begin) =>
      RowsForConcat(OfTokens, [Row(ADDRESS_TOKEN_PREFIX, owner)], ShareRows(begin), a);
      OneRow(OfTokens, ADDRESS_TOKEN_PREFIX, owner, a);
      ShareRowsFor(begin, a);
    case ChangeOwner(newOwner) =>
      assert TokenRows(tx, info) == [Row(ADDRESS_TOKEN_PREFIX, tx.from)] + [Row(ADDRESS_TOKEN_PREFIX, newOwner)];
      RowsForConcat(OfTokens, [Row(ADDRESS_TOKEN_PREFIX, tx.from)], [Row(ADDRESS_TOKEN_PREFIX, newOwner)], a);
      OneRow(OfTokens, ADDRESS_TOKEN_PREFIX, tx.from, a);
      OneRow(OfTokens, ADDRESS_TOKEN_PREFIX, newOwner, a);
    case MoveTokens(to, _) =>
      OneRow(OfTokens, ADDRESS_TOKEN_PREFIX, tx.from, a);
      if tx.from != to {
        RowsForConcat(OfTokens, [Row(ADDRESS_TOKEN_PREFIX, tx.from)], [Row(ADDRESS_TOKEN_PREFIX, to)], a);
        OneRow(OfTokens, ADDRESS_TOKEN_PREFIX, to, a);
      } else {
        assert TokenRows(tx, info) == [Row(ADDRESS_TOKEN_PREFIX, tx.from)];
      }
    case AddTokens(to, _) => OneRow(OfTokens, ADDRESS_TOKEN_PREFIX, to, a);
    case ChangeEmission => OneRow(OfTokens, ADDRESS_TOKEN_PREFIX, tx.from, a);
    case BurnTokens(_) => OneRow(OfTokens, ADDRESS_TOKEN_PREFIX, tx.from, a);
  }

  lemma TxRowsFor(l: List, tx: Tx, m: Modules, a: Address)
    ensures RowsFor(l, TxRows(tx, m), a) == if l.OfTokens? then TimesIn(l, tx, m, a) else 0
  {
    if m.txs && tx.tokenInfo.Some? && Successful(tx) && l.OfTokens? {
      var rows := TokenRows(tx, tx.tokenInfo.value);
      NamedRowsFor(tx, tx.tokenInfo.value, a);
      assert TxRows(tx, m) == [Keep] + rows;
      RowsForConcat(l, [Keep], rows, a);
      RowsForNone(l, [Keep], a);
    } else {
      PrefixesDiffer(l);
      RowsForNone(l, TxRows(tx, m), a);
    }
  }

  lemma PostsFor(l: List, tx: Tx, info: TokenInfo, a: Address)
    ensures RowsFor(l, TokenPosts(tx, info), a) == 0
    ensures forall x :: x in TokenPosts(tx, info) ==> RowFits(tx, x)
  {
    RowsForNone(l, TokenPosts(tx, info), a);
  }

  lemma TxRowsFit(tx: Tx, m: Modules)
    requires Addressed(tx, m)
    ensures forall x :: x in TxRows(tx, m) ==> RowFits(tx, x)
  {
  }

  lemma NoRowsFor(l: List, a: Address)
    ensures RowsFor(l, [], a) == 0
  {
  }

  lemma ActionsRowsFor(l: List, tx: Tx, status: TxStatus, m: Modules, isForging: bool, a: Address)
    requires Addressed(tx, m) && |a| == 25
    ensures RowsFor(l, ActionsOf(tx, status, m, isForging), a) == TimesIn(l, tx, m, a)
    ensures forall x :: x in ActionsOf(tx, status, m, isForging) ==> RowFits(tx, x)
  {
    hide AddressActions; hide TxRows; hide TokenPosts; hide RowFits; hide RowsFor; hide TimesNamed;
    AddressRowsFor(l, tx, tx.from, status, m, isForging, a);
    AddressRowsFor(l, tx, tx.to, status, m, isForging, a);
    TxRowsFor(l, tx, m, a);
    TxRowsFit(tx, m);
    if tx.tokenInfo.Some? { PostsFor(l, tx, tx.tokenInfo.value, a); }
    NoRowsFor(l, a);
    var f := AddressActions(tx, tx.from, status, m, isForging);
    var b := if tx.from != tx.to then AddressActions(tx, tx.to, status, m, isForging) else [];
    var t := TxRows(tx, m);
    var p := if m.balance && tx.tokenInfo.Some? then TokenPosts(tx, tx.tokenInfo.value) else [];
    RowsForConcat(l, f, b + (t + p), a);
    RowsForConcat(l, b, t + p, a);
    RowsForConcat(l, t, p, a);
  }

  /** Delegations do not touch the rows. */
  lemma SameHistory(l: List, v: Contents, u: Contents, a: Address)
    requires C.SameElsewhere(v, u)
    ensures History(l, v, a) == History(l, u, a)
    ensures forall floor: int :: RowsAbove(l, v, floor) <==> RowsAbove(l, u, floor)
  {
    hide SortedKeys; hide DecodedRow; hide FromBigEndian; hide RowsBegin;
    forall k | IsRowKey(l, k) ensures !S.IsDelegateKey(k) { assert k[0] == Prefix(l)[0] != DELEGATE_PREFIX[0]; }
    hide S.IsDelegateKey; hide IsRowKey;
    forall k | RowsBegin(l, a) <= k ensures IsRowKey(l, k) { RowPrefixIsRow(l, a, k); }
    assert Candidates(v, RowsBegin(l, a), {}) == Candidates(u, RowsBegin(l, a), {});
    AlongAgree(v, u, RowKeys(l, v, a));
  }

  lemma TxStepHistory(l: List, data: Contents, m: Modules, isForging: bool, w: Work, tx: Tx, a: Address)
    requires HistoryInv(l, data, w) && C.CacheKeys(w) && Addressed(tx, m) && |a| == 25 && R.AnyModule(m)
    requires R.Draws(tx, m) <= w.counter && !TxStep(data, m, isForging, w, tx).thrown
    ensures var w' := TxStep(data, m, isForging, w, tx);
            HistoryInv(l, data, w') &&
            History(l, S.Virtual(data, w'), a) == Repeat(Some(InfoOf(tx)), TimesIn(l, tx, m, a)) +
              History(l, S.Virtual(data, w), a)
  {
    hide History; hide S.Virtual; hide DelegateStep; hide ActionsOf; hide PerformAll; hide C.CacheKeys;
    hide C.SameElsewhere; hide RowFits; hide RowsAbove; hide R.RowOk;
    C.DelegateStepKeeps(data, w, tx);
    R.DelegateStepCounter(data, w, tx);
    var w1 := DelegateStep(data, w, tx);
    var actions := ActionsOf(tx, LastStatus(w1), m, isForging);
    SameHistory(l, S.Virtual(data, w1), S.Virtual(data, w), a);
    LowerRows(l, S.Virtual(data, w1), w.counter, w1.counter);
    R.ActionRows(tx, LastStatus(w1), m, isForging);
    ActionsRowsFor(l, tx, LastStatus(w1), m, isForging, a);
    PerformAllHistory(l, data, w1, tx, actions, a);
  }

  lemma LowerRows(l: List, v: Contents, x: int, y: int)
    requires RowsAbove(l, v, x) && y <= x
    ensures RowsAbove(l, v, y)
  {
    hide IsRowKey; hide FromBigEndian;
  }

  /** The history after a list of transactions: the participating ones, newest first, before what was there. */
  function HistoryRun(l: List, txs: seq<Tx>, m: Modules, a: Address,
                      h: seq<Option<AddressInfo>>): seq<Option<AddressInfo>>
  {
    if txs == [] then h
    else
      var tx := txs[|txs| - 1];
      Repeat(Some(InfoOf(tx)), TimesIn(l, tx, m, a)) + HistoryRun(l, txs[..|txs| - 1], m, a, h)
  }

  lemma {:induction false} TxStepsHistory(l: List, data: Contents, first: u64, m: Modules, isForging: bool,
                                          txs: seq<Tx>, n: u64,
                                          a: Address)
    requires RowsAbove(l, data, first) && |a| == 25 && R.AnyModule(m) && R.TotalDraws(txs, m) <= first
    requires forall tx :: tx in txs ==> Addressed(tx, m) && tx.blockNumber == n
    requires !TxSteps(data, m, isForging, StartWork(first), txs).thrown
    ensures var w := TxSteps(data, m, isForging, StartWork(first), txs);
            HistoryInv(l, data, w) && History(l, S.Virtual(data, w), a) == HistoryRun(l, txs, m, a, History(l, data, a))
    decreases txs
  {
    hide History; hide S.Virtual; hide TxStep; hide C.CacheKeys; hide RowsAbove; hide R.Draws; hide TimesIn;
    hide Addressed; hide C.SameBalances; hide C.DeltasUpTo;
    if txs == [] {
      S.VirtualStart(data, first);
    } else {
      var k := |txs| - 1;
      var w := TxSteps(data, m, isForging, StartWork(first), txs[..k]);
      R.ThrownSticks(data, m, isForging, w, txs[k]);
      TxStepsHistory(l, data, first, m, isForging, txs[..k], n, a);
      C.TxStepsReady(data, first, m, isForging, txs[..k], n);
      R.TxStepsCounter(data, first, m, isForging, txs[..k]);
      TxStepHistory(l, data, m, isForging, w, txs[k], a);
    }
  }

  // ----- blocks and runs -----

  lemma ForeignRow(l: List, v: Contents, k: Key, x: Data, a: Address, floor: int)
    requires !IsRowKey(l, k) && RowsAbove(l, v, floor)
    ensures History(l, v[k := x], a) == History(l, v, a) && RowsAbove(l, v[k := x], floor)
  {
    hide History; hide IsRowKey; hide FromBigEndian; hide RowsBegin;
    if RowsBegin(l, a) <= k { RowPrefixIsRow(l, a, k); }
    OtherRow(l, v, a, k, x);
  }

  lemma BalanceKeyNotRow(l: List, bd: Data)
    ensures !IsRowKey(l, BalanceKey(bd)) && !IsRowKey(l, MAIN_BLOCK_KEY)
  {
    assert BalanceKey(bd)[0] == BALANCE_PREFIX[0] != Prefix(l)[0];
    assert MAIN_BLOCK_KEY[0] != Prefix(l)[0];
  }

  lemma {:induction false} MergeAllHistory(l: List, data: Contents, n: u64, w: Work, addresses: seq<Data>, a: Address)
    requires HistoryInv(l, data, w)
    ensures var w' := MergeAll(data, n, w, addresses);
            HistoryInv(l, data, w') && w'.counter == w.counter &&
              History(l, S.Virtual(data, w'), a) == History(l, S.Virtual(data, w), a)
    decreases addresses
  {
    hide History; hide RowsAbove; hide ApplyOps; hide StoredBalance; hide SerBalance; hide BalanceKey; hide Plus;
    hide BalanceOf;
    if addresses != [] {
      var k := |addresses| - 1;
      var bd := addresses[k];
      var w1 := MergeAll(data, n, w, addresses[..k]);
      var w2 := MergeOne(data, n, w1, bd);
      MergeAllHistory(l, data, n, w, addresses[..k], a);
      if w2.ops != w1.ops {
        var x := SerBalance(Plus(StoredBalance(data, bd).value, BalanceOf(w1.balances, bd)));
        BalanceKeyNotRow(l, bd);
        ApplyOpsAppend(data, w1.ops, Put(BalanceKey(bd), x));
        ForeignRow(l, S.Virtual(data, w1), BalanceKey(bd), x, a, w1.counter);
      }
    }
  }

  /** Block numbers and addresses are in shape, and the counter does not run out. */
  predicate BlockRows(node: Node, m: Modules, b: Block)
  {
    (forall tx :: tx in R.LedgerTxs(b) ==> Addressed(tx, m) && tx.blockNumber == b.number) &&
    |b.hash| < TWO_64 && R.TotalDraws(R.LedgerTxs(b), m) <= node.counter
  }

  lemma BlockHistory(l: List, node: Node, m: Modules, b: Block, a: Address)
    requires RowsAbove(l, node.data, node.counter) && R.AnyModule(m) && BlockRows(node, m, b) && Commits(node, m, b) &&
             |a| == 25
    ensures var node' := BlockStep(node, m, b);
            RowsAbove(l, node'.data, node'.counter) &&
            R.LastRecord(node'.data, MainBlockInfo(b.number, b.hash, node'.counter)) &&
            History(l, node'.data, a) == HistoryRun(l, R.LedgerTxs(b), m, a, History(l, node.data, a))
  {
    hide TxSteps; hide SortedKeys; hide SerMainBlock; hide Accepted; hide History; hide HistoryRun; hide RowsAbove;
    hide R.LedgerTxs; hide R.TotalDraws;
    hide MergeAll; hide BlockWork; hide Addressed; hide ApplyOps; hide R.LastRecord;
    R.BlockWorkShape(node, m, b);
    var data := node.data;
    var w := R.TxWork(node, m, b);
    var w1 := if m.balance then MergeAll(data, b.number, w, SortedKeys(w.balances.Keys)) else w;
    var info := MainBlockInfo(b.number, b.hash, w1.counter);
    assert !w.thrown by { if w.thrown && m.balance { R.MergeThrown(data, b.number, w, SortedKeys(w.balances.Keys)); } }
    TxStepsHistory(l, data, node.counter, m, b.kind.Forging?, R.LedgerTxs(b), b.number, a);
    if m.balance { MergeAllHistory(l, data, b.number, w, SortedKeys(w.balances.Keys), a); }
    BalanceKeyNotRow(l, []);
    ApplyOpsAppend(data, w1.ops, Put(MAIN_BLOCK_KEY, SerMainBlock(info)));
    ForeignRow(l, S.Virtual(data, w1), MAIN_BLOCK_KEY, SerMainBlock(info), a, w1.counter);
    R.WrittenRecord(S.Virtual(data, w1), info);
  }

  ghost predicate NodeRows(l: List, node: Node)
  {
    RowsAbove(l, node.data, node.counter) && MainBlockOf(node.data).Returned? &&
    if MainBlockOf(node.data).value == NO_MAIN_BLOCK
    then forall k :: k in node.data ==> !IsRowKey(l, k)
    else RowsAbove(l, node.data, MainBlockOf(node.data).value.countVal)
  }

  /** What the environment owes an event. */
  predicate EventRows(node: Node, m: Modules, e: Event)
  {
    match e
    case Process(b) => Accepted(node.data, b) ==> BlockRows(node, m, b)
    case Reboot =>
      var info := MainBlockOf(node.data);
      info.Returned? && info.value != NO_MAIN_BLOCK ==> info.value.countVal >= 1
  }

  predicate RunRows(m: Modules, events: seq<Event>)
  {
    events == [] ||
    (RunRows(m, events[..|events| - 1]) &&
     EventRows(Run(FIRST_NODE, m, events[..|events| - 1]), m, events[|events| - 1]))
  }

  /** The committed transactions in a list of an address, newest first. */
  function HistoryAfter(l: List, m: Modules, events: seq<Event>, a: Address): seq<Option<AddressInfo>>
  {
    if events == [] then []
    else
      var before := events[..|events| - 1];
      var h := HistoryAfter(l, m, before, a);
      match events[|events| - 1]
      case Reboot => h
      case Process(b) => if Commits(Run(FIRST_NODE, m, before), m, b) then HistoryRun(l, R.LedgerTxs(b), m, a, h) else h
  }

  lemma BlockNodeRows(l: List, node: Node, m: Modules, b: Block, a: Address)
    requires NodeRows(l, node) && R.AnyModule(m) && EventRows(node, m, Process(b)) && |a| == 25
    ensures NodeRows(l, BlockStep(node, m, b))
    ensures History(l, BlockStep(node, m, b).data, a) ==
            if Commits(node, m, b) then HistoryRun(l, R.LedgerTxs(b), m, a, History(l, node.data, a))
              else History(l, node.data, a)
  {
    hide History; hide HistoryRun; hide RowsAbove; hide R.LedgerTxs; hide BlockWork; hide IsRowKey; hide R.LastRecord;
    hide Addressed;
    if Commits(node, m, b) {
      hide BlockStep;
      BlockHistory(l, node, m, b, a);
      R.CommittedRecord(node, m, b, BlockStep(node, m, b));
    } else {
      if Accepted(node.data, b) { BlockCounter(node, m, b); }
      LowerRows(l, node.data, node.counter, BlockStep(node, m, b).counter);
    }
  }

  lemma BlockCounter(node: Node, m: Modules, b: Block)
    requires R.TotalDraws(R.LedgerTxs(b), m) <= node.counter
    ensures BlockWork(node, m, b).counter <= node.counter
  {
    hide TxSteps; hide MergeAll; hide SortedKeys; hide SerMainBlock; hide R.LedgerTxs;
    R.NoTxs(node, m, b);
    R.TxStepsCounter(node.data, node.counter, m, b.kind.Forging?, R.LedgerTxs(b));
    var w, failed := R.TxWork(node, m, b), Failed(StartWork(node.counter));
    R.MergeCounter(node.data, b.number, w, SortedKeys(w.balances.Keys));
    R.MergeCounter(node.data, b.number, failed, SortedKeys(failed.balances.Keys));
    R.LedgerTxsOf(b);
  }

  lemma RestartNodeRows(l: List, node: Node, m: Modules)
    requires NodeRows(l, node) && EventRows(node, m, Reboot)
    ensures NodeRows(l, Restart(node)) && Restart(node).data == node.data
  {
    hide MainBlockOf; hide IsRowKey; hide FromBigEndian;
    var info := MainBlockOf(node.data).value;
    if info != NO_MAIN_BLOCK {
      LowerRows(l, node.data, info.countVal, info.countVal - 1);
      R.RestartCounter(info.countVal);
    }
  }

  lemma FirstHistory(l: List, a: Address)
    ensures NodeRows(l, FIRST_NODE) && History(l, FIRST_NODE.data, a) == []
  {
    hide SortedKeys;
    assert Candidates(map[], RowsBegin(l, a), {}) == {};
  }

  /** Over every run of blocks and restarts, what findAddress reads for an address is the list of the committed
      transactions it took part in, and what findAddressTokens reads is the list of the committed token transactions,
      each as often as it names the address; newest first, so successive pages list them all. */
  lemma {:induction false} RunHistory(l: List, m: Modules, events: seq<Event>, a: Address, count: nat)
    requires R.AnyModule(m) && RunRows(m, events) && |a| == 25 && count > 0
    ensures NodeRows(l, Run(FIRST_NODE, m, events))
    ensures History(l, Run(FIRST_NODE, m, events).data, a) == HistoryAfter(l, m, events, a)
    ensures Pages(History(l, Run(FIRST_NODE, m, events).data, a), count, 0) == HistoryAfter(l, m, events, a)
    decreases events
  {
    hide NodeRows; hide History; hide EventRows; hide HistoryRun; hide BlockStep; hide Restart; hide Commits;
    hide Pages;
    if events == [] {
      FirstHistory(l, a);
    } else {
      var n := |events| - 1;
      var node := Run(FIRST_NODE, m, events[..n]);
      RunHistory(l, m, events[..n], a, count);
      match events[n]
      case Reboot => RestartNodeRows(l, node, m);
      case Process(b) => BlockNodeRows(l, node, m, b, a);
    }
    PagesTile(History(l, Run(FIRST_NODE, m, events).data, a), count, 0);
  }
}
