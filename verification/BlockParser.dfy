/** The parser of the transactions of a block and of one transaction at its recorded position (src/BlockchainRead.cpp).
    A cursor into a buffer is modelled by the bytes that are left. */
module BlockParser {
  import opened Bytes
  import opened BlockFile

  const HEADER_SIZE := 80
  const ADDRESS_SIZE := 25

  /** Address derivation, hashing and signature checking are foreign code. */
  datatype Crypto = Crypto(address: Data -> Data, hash: Data -> Data, verify: (Data, Data, Data) -> bool)

  /** `from` is empty for the initial wallet. */
  datatype Transaction = Transaction(
    to: Data, value: nat, fees: nat, nonce: nat, data: Data, sign: Data, pubKey: Data, from: Data, status: Option<nat>,
      hash: Data,
    size: nat)

  // ----- numbers -----

  /** What is left is a suffix of what was there. */
  predicate Suffix(rest: Data, d: Data) { |rest| <= |d| && rest == d[|d| - |rest|..] }

  lemma SuffixTrans(a: Data, b: Data, c: Data)
    requires Suffix(a, b) && Suffix(b, c)
    ensures Suffix(a, c)
  {
  }

  /** How many bytes follow the first one. */
  function Following(first: byte): Option<nat>
  {
    if first <= 249 then Some(0) else if first == 250 then Some(2) else if first == 251 then Some(4)
      else if first == 252 then Some(8) else None
  }

  function ReadVarInt(d: Data): (r: Result<(nat, Data)>)
    ensures r.Returned? ==> |r.value.1| < |d| && Suffix(r.value.1, d)
  {
    if d == [] then Thrown
    else
      var n := Following(d[0]);
      if n.None? || |d| < 1 + n.value then Thrown
      else Returned((if n.value == 0 then d[0] else FromLittle(d[1..1 + n.value]), d[1 + n.value..]))
  }

  /** The number depends on its own bytes only. */
  lemma VarIntPrefix(a: Data, b: Data)
    requires ReadVarInt(a).Returned?
    ensures var used := |a| - |ReadVarInt(a).value.1|;
            ReadVarInt(a).value.1 == a[used..] && 0 < used <= 9 &&
            (|b| >= used && a[..used] == b[..used] ==> ReadVarInt(b) == Returned((ReadVarInt(a).value.0, b[used..])))
  {
    hide FromLittle;
    var used := |a| - |ReadVarInt(a).value.1|;
    if |b| >= used && a[..used] == b[..used] {
      assert a[0] == a[..used][0] && b[0] == b[..used][0];
      assert a[1..used] == a[..used][1..] && b[1..used] == b[..used][1..];
    }
  }

  function ReadBytes(d: Data, size: nat): (r: Result<(Data, Data)>)
    ensures r.Returned? ==> |r.value.0| == size && |r.value.1| == |d| - size && Suffix(r.value.1, d)
  {
    if |d| < size then Thrown else Returned((d[..size], d[size..]))
  }

  function ReadSized(d: Data): (r: Result<(Data, Data)>)
    ensures r.Returned? ==> |r.value.1| < |d| && Suffix(r.value.1, d)
  {
    var (size, d1) :- ReadVarInt(d);
    ReadBytes(d1, size)
  }

  // ----- one transaction -----

  /** A sender whose data is 9 bytes starting with 1 is a blocked one: its address starts with 1. */
  function Sender(crypto: Crypto, pubKey: Data, data: Data): Result<Data>
  {
    if pubKey == [] then Returned([])
    else
      var address := crypto.address(pubKey);
      if address == [] then Thrown
      else Returned(if |data| == 9 && data[0] == 1 then address[0 := 1] else address)
  }

  /** Amount, fee, nonce and data. */
  function ParseClear(d: Data): (r: Result<((nat, nat, nat, Data), Data)>)
    ensures r.Returned? ==> Suffix(r.value.1, d)
  {
    var (value, d1) :- ReadVarInt(d);
    var (fees, d2) :- ReadVarInt(d1);
    var (nonce, d3) :- ReadVarInt(d2);
    var (data, d4) :- ReadSized(d3);
    SuffixTrans(d2, d1, d);
    SuffixTrans(d3, d2, d);
    SuffixTrans(d4, d3, d);
    Returned(((value, fees, nonce, data), d4))
  }

  /** Signature and public key. */
  function ParseKeys(d: Data): (r: Result<((Data, Data), Data)>)
    ensures r.Returned? ==> Suffix(r.value.1, d)
  {
    var (sign, d1) :- ReadSized(d);
    var (pubKey, d2) :- ReadSized(d1);
    SuffixTrans(d2, d1, d);
    Returned(((sign, pubKey), d2))
  }

  /** A status, if anything is left. */
  function ParseStatus(d: Data): (r: Result<(Option<nat>, Data)>)
    ensures r.Returned? ==> Suffix(r.value.1, d)
  {
    if d == [] then Returned((None, d))
    else
      var (status, d1) :- ReadVarInt(d);
      Returned((Some(status), d1))
  }

  /** The fields of a transaction of this many bytes, and what is left of the bytes after them. The status is not
      hashed. */
  function ParseBody(crypto: Crypto, validate: bool, body: Data): (r: Result<(Transaction, Data)>)
    ensures r.Returned? ==> Suffix(r.value.1, body) && |body| >= ADDRESS_SIZE
  {
    var (to, d1) :- ReadBytes(body, ADDRESS_SIZE);
    var ((value, fees, nonce, data), d2) :- ParseClear(d1);
    var ((sign, pubKey), d3) :- ParseKeys(d2);
    var (status, d4) :- ParseStatus(d3);
    var from :- Sender(crypto, pubKey, data);
    SuffixTrans(d2, d1, body);
    SuffixTrans(d3, d2, body);
    SuffixTrans(d4, d3, body);
    if validate && pubKey != [] && !crypto.verify(sign, pubKey, body[..|body| - |d2|]) then Thrown
    else Returned((Transaction(to, value, fees, nonce, data, sign, pubKey, from, status,
      crypto.hash(body[..|body| - (|d3| - |d4|)]), |body|), d4))
  }

  datatype Read = End(rest: Data) | Next(tx: Transaction, rest: Data)

  /** One transaction from the bytes that are left; size 0 ends the list. What stands between the fields and the
      announced size is read on from. */
  function ReadTransaction(crypto: Crypto, validate: bool, d: Data): (r: Result<Read>)
    ensures r.Returned? ==> |r.value.rest| < |d|
  {
    var (size, d1) :- ReadVarInt(d);
    if size == 0 then Returned(End(d1))
    else
      var (body, after) :- ReadBytes(d1, size);
      var (tx, left) :- ParseBody(crypto, validate, body);
      Returned(Next(tx, left + after))
  }

  lemma TransactionSuffix(crypto: Crypto, validate: bool, d: Data)
    requires ReadTransaction(crypto, validate, d).Returned?
    ensures Suffix(ReadTransaction(crypto, validate, d).value.rest, d)
  {
    hide ReadVarInt; hide ParseBody; hide Suffix;
    var (size, d1) := ReadVarInt(d).value;
    if size > 0 {
      var (body, after) := ReadBytes(d1, size).value;
      var (_, left) := ParseBody(crypto, validate, body).value;
      LeftSuffix(left, body, after, d1);
      SuffixTrans(left + after, d1, d);
    }
  }

  lemma LeftSuffix(left: Data, body: Data, after: Data, d: Data)
    requires Suffix(left, body) && d == body + after
    ensures Suffix(left + after, d)
  {
  }

  // ----- the transactions of a block -----

  datatype Helper = Helper(first: bool, prevSign: bool, prevData: Data)

  const AT_START := Helper(true, true, [])

  /** A block signature: nothing sent to oneself, and, after the first transaction, the same data as the signature
      before. */
  predicate IsSign(tx: Transaction, h: Helper)
  {
    h.prevSign && tx.from == tx.to && tx.value == 0 && (h.first || (tx.data == h.prevData && tx.data != []))
  }

  datatype Entry = Entry(tx: Transaction, sign: bool, pos: nat, index: nat)

  /** Reads to the end, or until `want` transactions are read if that is not 0. */
  function ReadEntries(crypto: Crypto, validate: bool, d: Data, h: Helper, pos: nat, index: nat,
                       want: nat): (r: Result<seq<Entry>>)
    decreases |d|
  {
    var read :- ReadTransaction(crypto, validate, d);
    if read.End? then Returned([])
    else
      var e := Entry(read.tx, IsSign(read.tx, h), pos, index);
      if want == 1 then Returned([e])
      else
        var more :- ReadEntries(crypto, validate, read.rest, Helper(false, e.sign, read.tx.data),
          pos + |d| - |read.rest|, index + 1,
                                if want == 0 then 0 else want - 1);
        Returned([e] + more)
  }

  function CountSigns(es: seq<Entry>): (n: nat)
    ensures n <= |es|
  {
    if es == [] then 0 else CountSigns(es[..|es| - 1]) + if es[|es| - 1].sign then 1 else 0
  }

  datatype BlockTxs = BlockTxs(entries: seq<Entry>, countTxs: nat, countSignTx: nat, signature: Option<Data>)

  /** The transactions of a block whose record stands at `posInFile`; the header names their hash. */
  function ParseBlock(crypto: Crypto, validate: bool, block: Data, posInFile: nat, want: nat): Result<BlockTxs>
  {
    if |block| < HEADER_SIZE || crypto.hash(block[HEADER_SIZE..]) != block[48..HEADER_SIZE] then Thrown
    else
      var es :- ReadEntries(crypto, validate, block[HEADER_SIZE..], AT_START, posInFile + SIZE_SIZE + HEADER_SIZE, 0,
        want);
      Returned(BlockTxs(es, if want == 0 then |es| else 0, if want == 0 then CountSigns(es) else 0,
                        if es != [] && es[0].tx.from == es[0].tx.to && es[0].tx.value == 0 then Some(es[0].tx.data)
                          else None))
  }

  // ----- the loop -----

  method ReadTxs(crypto: Crypto, validate: bool, d0: Data, pos0: nat, want: nat)
    returns (thrown: bool, es: seq<Entry>, signs: nat)
    ensures thrown == ReadEntries(crypto, validate, d0, AT_START, pos0, 0, want).Thrown?
    ensures !thrown ==> ReadEntries(crypto, validate, d0, AT_START, pos0, 0, want) == Returned(es)
    ensures !thrown && want == 0 ==> signs == CountSigns(es)
  {
    hide ReadTransaction; hide IsSign;
    var d, h, pos: nat := d0, AT_START, pos0;
    thrown, es, signs := false, [], 0;
    ghost var all := ReadEntries(crypto, validate, d, h, pos, 0, want);
    assert all.Returned? ==> [] + all.value == all.value;
    while true
      invariant (want == 0 || |es| < want) && signs == CountSigns(es)
      invariant Joined(es, ReadEntries(crypto, validate, d, h, pos, |es|, Left(want, es))) == all
      decreases |d|
    {
      var read := ReadTransaction(crypto, validate, d);
      if read.Thrown? { return true, [], 0; }
      if read.value.End? {
        assert es + [] == es;
        return;
      }
      var tx, rest := read.value.tx, read.value.rest;
      var e := Entry(tx, IsSign(tx, h), pos, |es|);
      JoinedNext(crypto, validate, d, h, pos, Left(want, es), es, e, rest);
      CountNext(es, e);
      es := es + [e];
      if want != 0 && |es| >= want { return; }
      h := Helper(false, e.sign, tx.data);
      if e.sign { signs := signs + 1; }
      pos := pos + |d| - |rest|;
      d := rest;
    }
  }

  /** How many are still wanted. */
  function Left(want: nat, es: seq<Entry>): nat { if want == 0 || |es| >= want then 0 else want - |es| }

  method ReadBlockTxs(crypto: Crypto, validate: bool, block: Data, posInFile: nat, want: nat)
    returns (result: Result<BlockTxs>)
    ensures result == ParseBlock(crypto, validate, block, posInFile, want)
  {
    hide ReadEntries; hide CountSigns;
    if |block| < HEADER_SIZE || crypto.hash(block[HEADER_SIZE..]) != block[48..HEADER_SIZE] { return Thrown; }
    var thrown, es, signs := ReadTxs(crypto, validate, block[HEADER_SIZE..], posInFile + SIZE_SIZE + HEADER_SIZE, want);
    if thrown { return Thrown; }
    var count, countSign := 0, 0;
    if want == 0 { count, countSign := |es|, signs; }
    var signature := None;
    if es != [] && es[0].tx.from == es[0].tx.to && es[0].tx.value == 0 { signature := Some(es[0].tx.data); }
    result := Returned(BlockTxs(es, count, countSign, signature));
  }

  function Joined(es: seq<Entry>, more: Result<seq<Entry>>): Result<seq<Entry>>
  {
    if more.Thrown? then Thrown else Returned(es + more.value)
  }

  lemma CountNext(es: seq<Entry>, e: Entry)
    ensures CountSigns(es + [e]) == CountSigns(es) + if e.sign then 1 else 0
  {
    assert (es + [e])[..|es|] == es;
  }

  lemma JoinedNext(crypto: Crypto, validate: bool, d: Data, h: Helper, pos: nat, left: nat, es: seq<Entry>, e: Entry,
                   rest: Data)
    requires ReadTransaction(crypto, validate, d) == Returned(Next(e.tx, rest)) &&
             e == Entry(e.tx, IsSign(e.tx, h), pos, |es|)
    ensures Joined(es, ReadEntries(crypto, validate, d, h, pos, |es|, left)) ==
              if left == 1 then Returned(es + [e])
              else Joined(es + [e], ReadEntries(crypto, validate, rest, Helper(false, e.sign, e.tx.data),
                pos + |d| - |rest|, |es + [e]|,
                                                if left == 0 then 0 else left - 1))
  {
    hide ReadTransaction; hide IsSign;
    if left != 1 {
      var more := ReadEntries(crypto, validate, rest, Helper(false, e.sign, e.tx.data), pos + |d| - |rest|, |es| + 1,
        if left == 0 then 0 else left - 1);
      if more.Returned? { assert es + [e] + more.value == es + ([e] + more.value); }
    }
  }

  // ----- which transactions are signatures -----

  /** Nothing, sent to oneself. */
  predicate ToSelf(tx: Transaction) { tx.from == tx.to && tx.value == 0 }

  /** Entry `i` and all before it send nothing to themselves, and all but the first carry the first one's data, which is
      then not empty. */
  ghost predicate SignsTo(es: seq<Entry>, i: nat)
    requires i < |es|
  {
    (forall j :: 0 <= j <= i ==> ToSelf(es[j].tx)) &&
    forall j :: 1 <= j <= i ==> es[j].tx.data == es[0].tx.data && es[j].tx.data != []
  }

  /** The same for entries that follow others. */
  ghost predicate SignsOn(es: seq<Entry>, i: nat, h: Helper)
    requires i < |es|
  {
    h.prevSign && (forall j :: 0 <= j <= i ==> ToSelf(es[j].tx)) &&
    forall j :: 0 <= j <= i ==> es[j].tx.data == h.prevData && es[j].tx.data != []
  }

  lemma SignsOnNext(e: Entry, more: seq<Entry>, i: nat, h: Helper)
    requires i < |more| && e.sign == IsSign(e.tx, h)
    ensures var h' := Helper(false, e.sign, e.tx.data);
            SignsOn(more, i, h') <==>
            if h.first then h.prevSign && SignsTo([e] + more, i + 1) else SignsOn([e] + more, i + 1, h)
  {
    var es := [e] + more;
    assert es[0] == e && es[i + 1] == more[i] && forall j :: 0 <= j <= i ==> more[j] == es[j + 1];
    assert forall j :: 1 <= j <= i + 1 ==> es[j] == more[j - 1];
  }

  lemma {:induction false} SignIff(crypto: Crypto, validate: bool, d: Data, h: Helper, pos: nat, index: nat,
                                   want: nat, i: nat)
    requires ReadEntries(crypto, validate, d, h, pos, index, want).Returned? &&
             i < |ReadEntries(crypto, validate, d, h, pos, index, want).value|
    ensures var es := ReadEntries(crypto, validate, d, h, pos, index, want).value;
            es[i].sign <==> if h.first then h.prevSign && SignsTo(es, i) else SignsOn(es, i, h)
    decreases |d|
  {
    hide ReadTransaction; hide SignsTo; hide SignsOn;
    var es := ReadEntries(crypto, validate, d, h, pos, index, want).value;
    var read := ReadTransaction(crypto, validate, d).value;
    if i == 0 {
      FirstSign(es, h);
    } else {
      var sign := IsSign(read.tx, h);
      var h', pos' := Helper(false, sign, read.tx.data), pos + |d| - |read.rest|;
      var want' := if want == 0 then 0 else want - 1;
      var more := ReadEntries(crypto, validate, read.rest, h', pos', index + 1, want').value;
      SignIff(crypto, validate, read.rest, h', pos', index + 1, want', i - 1);
      SignsOnNext(es[0], more, i - 1, h);
    }
  }

  lemma FirstSign(es: seq<Entry>, h: Helper)
    requires es != [] && es[0].sign == IsSign(es[0].tx, h)
    ensures es[0].sign <==> if h.first then h.prevSign && SignsTo(es, 0) else SignsOn(es, 0, h)
  {
  }

  /** The signatures of a list: a prefix. */
  ghost predicate SignsLead(es: seq<Entry>)
  {
    forall i, j :: 0 <= i < j < |es| && es[j].sign ==> es[i].sign
  }

  lemma {:induction false} CountIsPrefix(es: seq<Entry>)
    requires SignsLead(es)
    ensures forall i :: 0 <= i < |es| ==> (es[i].sign <==> i < CountSigns(es))
  {
    if es != [] {
      var front := es[..|es| - 1];
      assert SignsLead(front) by { assert forall i :: 0 <= i < |front| ==> front[i] == es[i]; }
      CountIsPrefix(front);
      var last := es[|es| - 1];
      if last.sign {
        AllSigned(front);
      } else {
        assert CountSigns(es) == CountSigns(front);
      }
    }
  }

  lemma {:induction false} AllSigned(es: seq<Entry>)
    ensures (forall i :: 0 <= i < |es| ==> es[i].sign) ==> CountSigns(es) == |es|
  {
    if es != [] { AllSigned(es[..|es| - 1]); }
  }

  /** In every block that the parser accepts, however many transactions are wanted, exactly the leading ones that send
      nothing to themselves and repeat the first one's data are flagged; the block's signature is the data of the first
      transaction, when that one sends nothing to itself. */
  lemma SignaturesAre(crypto: Crypto, validate: bool, block: Data, posInFile: nat, want: nat)
    requires ParseBlock(crypto, validate, block, posInFile, want).Returned?
    ensures var b := ParseBlock(crypto, validate, block, posInFile, want).value;
            (forall i :: 0 <= i < |b.entries| ==> (b.entries[i].sign <==> SignsTo(b.entries, i))) &&
            b.signature == if b.entries != [] && ToSelf(b.entries[0].tx) then Some(b.entries[0].tx.data) else None
  {
    hide ReadEntries; hide SignsTo;
    var es := ParseBlock(crypto, validate, block, posInFile, want).value.entries;
    forall i | 0 <= i < |es| ensures es[i].sign <==> SignsTo(es, i) {
      SignIff(crypto, validate, block[HEADER_SIZE..], AT_START, posInFile + SIZE_SIZE + HEADER_SIZE, 0, want, i);
    }
  }

  lemma SignsPrefix(es: seq<Entry>)
    requires forall i :: 0 <= i < |es| ==> (es[i].sign <==> SignsTo(es, i))
    ensures SignsLead(es)
  {
  }

  /** In every block that the parser accepts, the flagged transactions are a prefix with one data, and countSignTx is
      its length. */
  lemma SignaturesLead(crypto: Crypto, validate: bool, block: Data, posInFile: nat)
    requires ParseBlock(crypto, validate, block, posInFile, 0).Returned?
    ensures var b := ParseBlock(crypto, validate, block, posInFile, 0).value;
            b.countSignTx <= b.countTxs == |b.entries| &&
            forall i :: 0 <= i < |b.entries| ==>
              (b.entries[i].sign <==> i < b.countSignTx) && (i < b.countSignTx <==> SignsTo(b.entries, i))
  {
    hide ReadEntries; hide SignsTo;
    SignaturesAre(crypto, validate, block, posInFile, 0);
    var es := ParseBlock(crypto, validate, block, posInFile, 0).value.entries;
    SignsPrefix(es);
    CountIsPrefix(es);
  }

  /** Reading a limited number gives the beginning of the whole. */
  lemma {:induction false} LimitedIsPrefix(crypto: Crypto, validate: bool, d: Data, h: Helper, pos: nat, index: nat,
                                           k: nat)
    requires ReadEntries(crypto, validate, d, h, pos, index, 0).Returned? &&
             0 < k <= |ReadEntries(crypto, validate, d, h, pos, index, 0).value|
    ensures ReadEntries(crypto, validate, d, h, pos, index, k) ==
            Returned(ReadEntries(crypto, validate, d, h, pos, index, 0).value[..k])
    decreases |d|
  {
    hide ReadTransaction; hide IsSign;
    var read := ReadTransaction(crypto, validate, d).value;
    if read.Next? && k > 1 {
      var h', pos' := Helper(false, IsSign(read.tx, h), read.tx.data), pos + |d| - |read.rest|;
      LimitedIsPrefix(crypto, validate, read.rest, h', pos', index + 1, k - 1);
      var e, more := Entry(read.tx, IsSign(read.tx, h), pos, index),
        ReadEntries(crypto, validate, read.rest, h', pos', index + 1, 0).value;
      assert ([e] + more)[..k] == [e] + more[..k - 1];
    }
  }

  /** Reading again with the number of signatures as the limit returns exactly the flagged transactions. */
  lemma ReparseSignatures(crypto: Crypto, validate: bool, block: Data, posInFile: nat)
    requires ParseBlock(crypto, validate, block, posInFile, 0).Returned? &&
             ParseBlock(crypto, validate, block, posInFile, 0).value.countSignTx > 0
    ensures var b := ParseBlock(crypto, validate, block, posInFile, 0).value;
            var again := ParseBlock(crypto, validate, block, posInFile, b.countSignTx);
            again.Returned? && again.value.entries == b.entries[..b.countSignTx] &&
            (forall i :: 0 <= i < |again.value.entries| ==> again.value.entries[i].sign) &&
            (forall i :: b.countSignTx <= i < |b.entries| ==> !b.entries[i].sign)
  {
    hide ReadEntries; hide CountSigns;
    SignaturesLead(crypto, validate, block, posInFile);
    var b := ParseBlock(crypto, validate, block, posInFile, 0).value;
    LimitedIsPrefix(crypto, validate, block[HEADER_SIZE..], AT_START, posInFile + SIZE_SIZE + HEADER_SIZE, 0,
      b.countSignTx);
  }

  // ----- one transaction at its position -----

  /** Reads the size, then a buffer with room for the size and the transaction, zero-filled behind the end of the
      file. */
  function ReadOne(crypto: Crypto, file: Data, pos: nat): Result<Option<Transaction>>
  {
    if |file| <= pos || |file| - pos < SIZE_SIZE then Returned(None)
    else
      var (size, _) :- ReadVarInt(Filled(file, pos, 9));
      var read :- ReadTransaction(crypto, false, Filled(file, pos, size + 2 * SIZE_SIZE));
      Returned(if read.Next? then Some(read.tx) else None)
  }

  lemma BodyWithoutCheck(crypto: Crypto, validate: bool, body: Data)
    requires ParseBody(crypto, validate, body).Returned?
    ensures ParseBody(crypto, false, body) == ParseBody(crypto, validate, body)
  {
    hide ReadBytes; hide ParseClear; hide ParseKeys; hide ParseStatus; hide Sender;
  }

  /** How many bytes a transaction takes: its size and what it announces. */
  function Extent(d: Data): nat
    requires ReadVarInt(d).Returned?
  {
    |d| - |ReadVarInt(d).value.1| + ReadVarInt(d).value.0
  }

  /** A transaction depends on its own bytes only. */
  lemma TransactionPrefix(crypto: Crypto, validate: bool, a: Data, b: Data)
    requires ReadTransaction(crypto, validate, a).Returned? && ReadTransaction(crypto, validate, a).value.Next?
    ensures ReadVarInt(a).Returned? && 9 <= ADDRESS_SIZE < Extent(a) <= |a| && ReadVarInt(a).value.0 + 9 >= Extent(a)
    ensures |b| >= Extent(a) && a[..Extent(a)] == b[..Extent(a)] ==>
              ReadTransaction(crypto, false, b).Returned? && ReadTransaction(crypto, false, b).value.Next? &&
              ReadTransaction(crypto, false, b).value.tx == ReadTransaction(crypto, validate, a).value.tx
  {
    hide ReadVarInt; hide ParseBody;
    VarIntPrefix(a, b);
    var (size, d1) := ReadVarInt(a).value;
    var used, all := |a| - |d1|, Extent(a);
    var body := ReadBytes(d1, size).value.0;
    assert body == a[used..all];
    BodyWithoutCheck(crypto, validate, body);
    if |b| >= all && a[..all] == b[..all] {
      assert a[..used] == a[..all][..used] && b[..used] == b[..all][..used];
      assert b[used..][..size] == b[..all][used..] == a[..all][used..] == body;
    }
  }

  lemma FilledAgrees(file: Data, pos: nat, d: Data, count: nat, k: nat)
    requires pos <= |file| && |d| <= |file| - pos && file[pos..pos + |d|] == d && k <= |d| && k <= count
    ensures Filled(file, pos, count)[..k] == d[..k]
  {
    assert file[pos..pos + k] == file[pos..pos + |d|][..k];
  }

  /** Where the bytes of a transaction stand in the file, the transaction is read back. */
  lemma ReadOneThere(crypto: Crypto, validate: bool, d: Data, file: Data, pos: nat)
    requires ReadTransaction(crypto, validate, d).Returned? && ReadTransaction(crypto, validate, d).value.Next?
    requires pos <= |file| && |d| <= |file| - pos && file[pos..pos + |d|] == d
    ensures ReadOne(crypto, file, pos) == Returned(Some(ReadTransaction(crypto, validate, d).value.tx))
  {
    hide ReadVarInt; hide ReadTransaction; hide Filled;
    TransactionPrefix(crypto, validate, d, d);
    var size, used := ReadVarInt(d).value.0, |d| - |ReadVarInt(d).value.1|;
    VarIntPrefix(d, Filled(file, pos, 9));
    FilledAgrees(file, pos, d, 9, used);
    FilledAgrees(file, pos, d, size + 2 * SIZE_SIZE, Extent(d));
    TransactionPrefix(crypto, validate, d, Filled(file, pos, size + 2 * SIZE_SIZE));
  }

  lemma SuffixSlice(rest: Data, d: Data, k: nat)
    requires Suffix(rest, d) && k <= |rest|
    ensures |rest| <= |d| && rest[k..] == d[|d| - |rest| + k..]
  {
  }

  /** The entry's transaction is what its recorded position holds. */
  ghost predicate EntryAt(crypto: Crypto, validate: bool, d: Data, pos: nat, index: nat, e: Entry)
  {
    pos <= e.pos <= pos + |d| && e.index == index &&
    var read := ReadTransaction(crypto, validate, d[e.pos - pos..]);
    read.Returned? && read.value.Next? && read.value.tx == e.tx
  }

  lemma {:induction false} EntryBytes(crypto: Crypto, validate: bool, d: Data, h: Helper, pos: nat, index: nat,
                                      want: nat, i: nat)
    requires ReadEntries(crypto, validate, d, h, pos, index, want).Returned? &&
             i < |ReadEntries(crypto, validate, d, h, pos, index, want).value|
    ensures EntryAt(crypto, validate, d, pos, index + i, ReadEntries(crypto, validate, d, h, pos, index, want).value[i])
    decreases |d|
  {
    hide ReadTransaction; hide IsSign; hide Suffix;
    var read := ReadTransaction(crypto, validate, d).value;
    if i == 0 {
      assert d[0..] == d;
    } else {
      var h', pos', want' := Helper(false, IsSign(read.tx, h), read.tx.data), pos + |d| - |read.rest|, if want == 0
        then 0 else want - 1;
      EntryBytes(crypto, validate, read.rest, h', pos', index + 1, want', i - 1);
      TransactionSuffix(crypto, validate, d);
      var e := ReadEntries(crypto, validate, read.rest, h', pos', index + 1, want').value[i - 1];
      assert ReadEntries(crypto, validate, d, h, pos, index, want).value[i] == e;
      SuffixSlice(read.rest, d, e.pos - pos');
    }
  }

  /** Reading at the recorded position gives the transaction that parsing its block gave, whatever is appended to the
      file. */
  lemma RandomAccess(crypto: Crypto, validate: bool, block: Data, file: Data, posInFile: nat, want: nat, i: nat)
    requires ParseBlock(crypto, validate, block, posInFile, want).Returned? &&
             i < |ParseBlock(crypto, validate, block, posInFile, want).value.entries|
    requires posInFile + SIZE_SIZE + |block| <= |file| &&
             file[posInFile + SIZE_SIZE..posInFile + SIZE_SIZE + |block|] == block
    ensures var e := ParseBlock(crypto, validate, block, posInFile, want).value.entries[i];
            e.index == i && ReadOne(crypto, file, e.pos) == Returned(Some(e.tx))
  {
    hide ReadEntries; hide ReadTransaction; hide ReadOne;
    var base := posInFile + SIZE_SIZE + HEADER_SIZE;
    var d := block[HEADER_SIZE..];
    var e := ParseBlock(crypto, validate, block, posInFile, want).value.entries[i];
    EntryBytes(crypto, validate, d, AT_START, base, 0, want, i);
    var there := d[e.pos - base..];
    var start := posInFile + SIZE_SIZE;
    assert file[e.pos..e.pos + |there|] == file[start..start + |block|][e.pos - start..];
    ReadOneThere(crypto, validate, there, file, e.pos);
  }

  /** The same for a block of a file that was written by appending. */
  lemma FileAccess(crypto: Crypto, validate: bool, blocks: seq<Data>, tail: Data, k: nat, i: nat)
    requires k < |blocks| && ParseBlock(crypto, validate, blocks[k], Position(blocks, k), 0).Returned?
    requires i < |ParseBlock(crypto, validate, blocks[k], Position(blocks, k), 0).value.entries|
    ensures var e := ParseBlock(crypto, validate, blocks[k], Position(blocks, k), 0).value.entries[i];
            ReadOne(crypto, Contents(blocks) + tail, e.pos) == Returned(Some(e.tx))
  {
    hide ParseBlock; hide ReadOne; hide Contents; hide Little;
    ContentsSplit(blocks, k);
    var file, p, q := Contents(blocks) + tail, Position(blocks, k), Position(blocks, k + 1);
    assert file[p + SIZE_SIZE..q] == Contents(blocks)[p..q][SIZE_SIZE..] == blocks[k];
    RandomAccess(crypto, validate, blocks[k], file, p, 0, i);
  }

  // ----- the format -----

  function VarInt(n: u64): Data
  {
    if n <= 249 then [n] else if n < 0x1_0000 then [250] + Little(n, 2) else if n < 0x1_0000_0000
      then [251] + Little(n, 4) else [252] + Little(n, 8)
  }

  lemma WidthOf(n: u64)
    ensures Pow256(2) == 0x1_0000 && Pow256(4) == 0x1_0000_0000 && Pow256(8) == TWO_64
  {
    Pow256Of8();
    assert Pow256(2) == 0x1_0000;
  }

  lemma PrefixedNumber(first: byte, n: u64, width: nat, rest: Data)
    requires Following(first) == Some(width) && width > 0 && n < Pow256(width)
    ensures ReadVarInt([first] + Little(n, width) + rest) == Returned((n, rest))
  {
    hide Little; hide FromLittle;
    var d := [first] + Little(n, width) + rest;
    LittleRoundTrip(n, width);
    assert d[1..1 + width] == Little(n, width) && d[1 + width..] == rest;
  }

  lemma VarIntRoundTrip(n: u64, rest: Data)
    ensures ReadVarInt(VarInt(n) + rest) == Returned((n, rest))
  {
    hide Little; hide FromLittle; hide Pow256;
    WidthOf(n);
    if n <= 249 {
      var d := [n] + rest;
      assert d[1..] == rest;
    } else if n < 0x1_0000 {
      PrefixedNumber(250, n, 2, rest);
    } else if n < 0x1_0000_0000 {
      PrefixedNumber(251, n, 4, rest);
    } else {
      PrefixedNumber(252, n, 8, rest);
    }
  }

  function Sized(d: Data): Data
    requires |d| < TWO_64
  {
    VarInt(|d|) + d
  }

  lemma SizedRoundTrip(d: Data, rest: Data)
    requires |d| < TWO_64
    ensures ReadSized(Sized(d) + rest) == Returned((d, rest))
  {
    hide VarInt; hide ReadVarInt;
    VarIntRoundTrip(|d|, d + rest);
    assert Sized(d) + rest == VarInt(|d|) + (d + rest);
    assert (d + rest)[..|d|] == d && (d + rest)[|d|..] == rest;
  }

  datatype Fields = Fields(to: Data, value: u64, fees: u64, nonce: u64, data: Data, sign: Data, pubKey: Data,
                           status: Option<u64>)

  predicate FieldsFit(f: Fields)
  {
    |f.to| == ADDRESS_SIZE && |f.data| < TWO_64 && |f.sign| < TWO_64 && |f.pubKey| < TWO_64
  }

  /** Recipient, amount, fee, nonce and data: what is signed. */
  function ClearPart(f: Fields): Data
    requires FieldsFit(f)
  {
    f.to + (VarInt(f.value) + (VarInt(f.fees) + (VarInt(f.nonce) + Sized(f.data))))
  }

  function KeyPart(f: Fields): Data
    requires FieldsFit(f)
  {
    Sized(f.sign) + Sized(f.pubKey)
  }

  function StatusPart(f: Fields): Data { if f.status.None? then [] else VarInt(f.status.value) }

  function Body(f: Fields): Data
    requires FieldsFit(f)
  {
    ClearPart(f) + (KeyPart(f) + StatusPart(f))
  }

  lemma ClearRead(f: Fields, rest: Data)
    requires FieldsFit(f)
    ensures ParseClear(ClearPart(f)[ADDRESS_SIZE..] + rest) == Returned(((f.value, f.fees, f.nonce, f.data), rest))
  {
    hide VarInt; hide ReadVarInt; hide Sized; hide ReadSized; hide Suffix;
    var v, e, n, d := VarInt(f.value), VarInt(f.fees), VarInt(f.nonce), Sized(f.data);
    assert ClearPart(f)[ADDRESS_SIZE..] == v + (e + (n + d));
    assert v + (e + (n + d)) + rest == v + (e + (n + (d + rest)));
    VarIntRoundTrip(f.value, e + (n + (d + rest)));
    VarIntRoundTrip(f.fees, n + (d + rest));
    VarIntRoundTrip(f.nonce, d + rest);
    SizedRoundTrip(f.data, rest);
  }

  lemma KeysRead(f: Fields, rest: Data)
    requires FieldsFit(f)
    ensures ParseKeys(KeyPart(f) + rest) == Returned(((f.sign, f.pubKey), rest))
  {
    hide Sized; hide ReadSized; hide Suffix;
    assert KeyPart(f) + rest == Sized(f.sign) + (Sized(f.pubKey) + rest);
    SizedRoundTrip(f.sign, Sized(f.pubKey) + rest);
    SizedRoundTrip(f.pubKey, rest);
  }

  lemma StatusRead(f: Fields)
    ensures ParseStatus(StatusPart(f)) == Returned((if f.status.None? then None else Some(f.status.value), []))
    ensures f.status.Some? ==> StatusPart(f) != []
  {
    hide ReadVarInt;
    if f.status.Some? {
      VarIntRoundTrip(f.status.value, []);
      assert StatusPart(f) + [] == StatusPart(f);
    }
  }

  /** The public key, if there is one, has an address. */
  predicate Known(crypto: Crypto, f: Fields) { f.pubKey != [] ==> crypto.address(f.pubKey) != [] }

  /** The initial wallet without a public key, else the key's address; nine bytes of data that begin with 1 block the
      sender and make its address begin with 1. */
  function From(crypto: Crypto, f: Fields): Data
    requires Known(crypto, f)
  {
    if f.pubKey == [] then []
    else if |f.data| == 9 && f.data[0] == 1 then [1] + crypto.address(f.pubKey)[1..]
    else crypto.address(f.pubKey)
  }

  /** The transaction that the fields mean: the status is not hashed. */
  function TransactionOf(crypto: Crypto, f: Fields): Transaction
    requires FieldsFit(f) && Known(crypto, f)
  {
    Transaction(f.to, f.value, f.fees, f.nonce, f.data, f.sign, f.pubKey, From(crypto, f),
      if f.status.None? then None else Some(f.status.value), crypto.hash(ClearPart(f) + KeyPart(f)), |Body(f)|)
  }

  /** The sender is known and, if signatures are checked, has signed the clear part. */
  predicate Valid(crypto: Crypto, validate: bool, f: Fields)
    requires FieldsFit(f)
  {
    Known(crypto, f) && (validate && f.pubKey != [] ==> crypto.verify(f.sign, f.pubKey, ClearPart(f)))
  }

  lemma SenderIs(crypto: Crypto, f: Fields)
    ensures Sender(crypto, f.pubKey, f.data) == if Known(crypto, f) then Returned(From(crypto, f)) else Thrown
  {
    var address := crypto.address(f.pubKey);
    if address != [] { assert address[0 := 1] == [1] + address[1..]; }
  }

  /** Every field is read back from its place in the format, and nothing is left over; or the transaction is refused. */
  lemma BodyRead(crypto: Crypto, validate: bool, f: Fields)
    requires FieldsFit(f)
    ensures ParseBody(crypto, validate, Body(f)) ==
            if Valid(crypto, validate, f) then Returned((TransactionOf(crypto, f), [])) else Thrown
  {
    hide Sender; hide ParseClear; hide ParseKeys; hide ParseStatus; hide Suffix; hide StatusPart; hide KeyPart;
    hide ClearPart; hide Body; hide From; hide Known;
    BodyStart(f);
    BodyEnds(f);
    ClearRead(f, KeyPart(f) + StatusPart(f));
    KeysRead(f, StatusPart(f));
    StatusRead(f);
    SenderIs(crypto, f);
  }

  lemma BodyStart(f: Fields)
    requires FieldsFit(f)
    ensures |Body(f)| >= ADDRESS_SIZE && |ClearPart(f)| >= ADDRESS_SIZE && Body(f)[..ADDRESS_SIZE] == f.to
    ensures Body(f)[ADDRESS_SIZE..] == ClearPart(f)[ADDRESS_SIZE..] + (KeyPart(f) + StatusPart(f))
  {
    hide StatusPart; hide KeyPart; hide ClearPart;
    ClearLength(f);
  }

  lemma BodyEnds(f: Fields)
    requires FieldsFit(f)
    ensures var n := |Body(f)| - |KeyPart(f) + StatusPart(f)|; n >= 0 && Body(f)[..n] == ClearPart(f)
    ensures var n := |Body(f)| - |StatusPart(f)|; n >= 0 && Body(f)[..n] == ClearPart(f) + KeyPart(f)
  {
    hide StatusPart; hide KeyPart; hide ClearPart;
  }

  lemma ClearLength(f: Fields)
    requires FieldsFit(f)
    ensures |ClearPart(f)| >= ADDRESS_SIZE && ClearPart(f)[..ADDRESS_SIZE] == f.to
  {
    hide VarInt; hide Sized;
  }

  function Written(f: Fields): Data
    requires FieldsFit(f) && |Body(f)| < TWO_64
  {
    Sized(Body(f))
  }

  /** A written transaction is read as what it means, and reading goes on right behind it; it is refused exactly when it
      is not valid. */
  lemma ReadsWritten(crypto: Crypto, validate: bool, f: Fields, rest: Data)
    requires FieldsFit(f) && |Body(f)| < TWO_64
    ensures ReadTransaction(crypto, validate, Written(f) + rest) ==
            if Valid(crypto, validate, f) then Returned(Next(TransactionOf(crypto, f), rest)) else Thrown
  {
    hide VarInt; hide ReadVarInt; hide ParseBody; hide TransactionOf; hide Known; hide Valid;
    var body := Body(f);
    ClearLength(f);
    assert |body| > 0;
    hide Body;
    VarIntRoundTrip(|body|, body + rest);
    assert Written(f) + rest == VarInt(|body|) + (body + rest);
    assert (body + rest)[..|body|] == body && (body + rest)[|body|..] == rest;
    BodyRead(crypto, validate, f);
    assert [] + rest == rest;
  }

  ghost predicate AllFit(fs: seq<Fields>)
  {
    forall i :: 0 <= i < |fs| ==> FieldsFit(fs[i]) && |Body(fs[i])| < TWO_64
  }

  ghost predicate AllValid(crypto: Crypto, validate: bool, fs: seq<Fields>)
    requires AllFit(fs)
  {
    forall i :: 0 <= i < |fs| ==> Valid(crypto, validate, fs[i])
  }

  /** The transactions of a block and the zero size that ends them. */
  ghost function WrittenAll(fs: seq<Fields>): Data
    requires AllFit(fs)
  {
    if fs == [] then [0] else Written(fs[0]) + WrittenAll(fs[1..])
  }

  /** Any list of transactions written in the format is read back, each one with its place in the list; it is refused
      exactly when one of them is not valid. */
  lemma {:induction false} ReadsAll(crypto: Crypto, validate: bool, fs: seq<Fields>, h: Helper, pos: nat, index: nat)
    requires AllFit(fs)
    ensures var r := ReadEntries(crypto, validate, WrittenAll(fs), h, pos, index, 0);
            (r.Returned? <==> AllValid(crypto, validate, fs)) &&
            (r.Returned? ==>
               |r.value| == |fs| &&
               forall i :: 0 <= i < |fs| ==>
                 Known(crypto, fs[i]) && r.value[i].tx == TransactionOf(crypto, fs[i]) && r.value[i].index == index + i)
    decreases |fs|
  {
    hide ReadTransaction; hide TransactionOf; hide FieldsFit; hide Valid; hide Body; hide Written; hide Known;
    var d := WrittenAll(fs);
    if fs == [] {
      EndRead(crypto, validate);
    } else {
      ReadsWritten(crypto, validate, fs[0], WrittenAll(fs[1..]));
      ValidIsKnown(crypto, validate, fs[0]);
      if Valid(crypto, validate, fs[0]) {
        var read := ReadTransaction(crypto, validate, d).value;
        ReadsAll(crypto, validate, fs[1..], Helper(false, IsSign(read.tx, h), read.tx.data),
          pos + |d| - |read.rest|, index + 1);
      }
    }
  }

  lemma ValidIsKnown(crypto: Crypto, validate: bool, f: Fields)
    requires FieldsFit(f)
    ensures Valid(crypto, validate, f) ==> Known(crypto, f)
  {
  }

  /** A written block is accepted exactly when its header names the hash of its transactions and all of them are valid;
      then it has exactly these transactions. */
  lemma BlockReads(crypto: Crypto, validate: bool, header: Data, fs: seq<Fields>, posInFile: nat)
    requires AllFit(fs) && |header| == HEADER_SIZE
    ensures var r := ParseBlock(crypto, validate, header + WrittenAll(fs), posInFile, 0);
            (r.Returned? <==> crypto.hash(WrittenAll(fs)) == header[48..] && AllValid(crypto, validate, fs)) &&
            (r.Returned? ==>
               |r.value.entries| == |fs| == r.value.countTxs &&
               forall i :: 0 <= i < |fs| ==>
                 Known(crypto, fs[i]) &&
                 r.value.entries[i].tx == TransactionOf(crypto, fs[i]) && r.value.entries[i].index == i)
  {
    hide ReadEntries; hide TransactionOf; hide FieldsFit; hide Valid; hide Body; hide Written; hide Known;
    hide WrittenAll; hide CountSigns;
    var block := header + WrittenAll(fs);
    assert block[HEADER_SIZE..] == WrittenAll(fs) && block[48..HEADER_SIZE] == header[48..];
    ReadsAll(crypto, validate, fs, AT_START, posInFile + SIZE_SIZE + HEADER_SIZE, 0);
  }

  lemma EndRead(crypto: Crypto, validate: bool)
    ensures ReadTransaction(crypto, validate, [0]) == Returned(End([]))
  {
    var d: Data := [0];
    assert d[1..] == [];
  }
}
