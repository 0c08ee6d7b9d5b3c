/** The stored form of a balance: fixed fields, token rows in any order, then tagged optional sections. */
module BalanceCodec {
  import opened Bytes
  import opened Serialize
  import opened BalanceInfo

  const TAG_DELEGATE: byte := 100  // 'd'
  const TAG_FORGED: byte := 102    // 'f'
  const TAG_TOKEN: byte := 116     // 't'

  // ----- writing -----

  function TokenInts(t: TokenBalance): seq<u64>
  {
    [t.balance.received, t.balance.spent, t.countOp, t.countReceived, t.countSpent]
  }

  function SerRow(token: Data, t: TokenBalance): (r: Data)
    ensures |r| == 48 + |token|
  {
    SerString(token) + SerInts(TokenInts(t))
  }

  function SerTokens(tokens: map<Data, TokenBalance>, order: seq<Data>): Data
    requires forall t :: t in order ==> t in tokens
    decreases order
  {
    if order == [] then []
    else SerRow(order[0], tokens[order[0]]) + SerTokens(tokens, order[1..])
  }

  function DelegateInts(d: DelegateBalance): seq<u64>
  {
    [d.countOp, d.delegate.spent, d.delegate.received, d.delegated.received, d.delegated.spent, d.reserved]
  }

  function SerDelegate(b: Balance): Data
  {
    if b.delegated.None? then [] else SerTag(TAG_DELEGATE) + SerInts(DelegateInts(b.delegated.value))
  }

  function SerForged(b: Balance): Data
  {
    if b.forged.None? then [] else SerTag(TAG_FORGED) + SerInts([b.forged.value.countOp, b.forged.value.forged])
  }

  function SerTokenBlock(b: Balance): Data
  {
    if b.tokenBlockNumber.None? then [] else SerTag(TAG_TOKEN) + SerInts([b.tokenBlockNumber.value])
  }

  function HeadInts(b: Balance): seq<u64>
  {
    [b.balance.received, b.balance.spent, b.countReceived, b.countSpent, b.blockNumber, b.countTxs, |b.tokens| % TWO_64]
  }

  /** `order` is the order the unordered token map happens to be walked in. */
  function Ser(b: Balance, order: seq<Data>): Data
    requires forall t :: t in order ==> t in b.tokens
  {
    SerInts(HeadInts(b)) + (SerTokens(b.tokens, order) + (SerDelegate(b) + (SerForged(b) + SerTokenBlock(b))))
  }

  // ----- reading -----

  function ReadRow(raw: Data, from: nat): Cursor<(Data, TokenBalance)>
  {
    var (token, p) :- ReadString(raw, from);
    var (ns, q) :- ReadInts(raw, p, 5);
    Returned(((token, TokenBalance(Element(ns[0], ns[1]), ns[2], ns[3], ns[4])), q))
  }

  /** Rows are emplaced: a repeated token keeps its first row. */
  function ReadTokens(raw: Data, from: nat, count: nat, acc: map<Data, TokenBalance>): Cursor<map<Data, TokenBalance>>
    decreases count
  {
    if count == 0 then Returned((acc, from))
    else
      var (row, p) :- ReadRow(raw, from);
      ReadTokens(raw, p, count - 1, if row.0 in acc then acc else acc[row.0 := row.1])
  }

  function ReadSections(raw: Data, from: nat, b: Balance): Result<Balance>
    decreases |raw| - from
  {
    if |raw| <= from then Returned(b)
    else
      var (tag, p) :- ReadTag(raw, from);
      if tag == TAG_DELEGATE then
        var (ns, q) :- ReadInts(raw, p, 6);
        ReadSections(raw, q, b.(delegated := Some(DelegateBalance(Element(ns[2], ns[1]), Element(ns[3], ns[4]), ns[5],
          ns[0]))))
      else if tag == TAG_FORGED then
        var (ns, q) :- ReadInts(raw, p, 2);
        ReadSections(raw, q, b.(forged := Some(ForgedBalance(ns[1], ns[0]))))
      else if tag == TAG_TOKEN then
        var (ns, q) :- ReadInts(raw, p, 1);
        ReadSections(raw, q, b.(tokenBlockNumber := Some(ns[0])))
      else Thrown
  }

  /** The fixed fields and the number of token rows. */
  function ReadHead(raw: Data): Result<(Balance, u64)>
  {
    var (ns, _) :- ReadInts(raw, 0, 7);
    Returned((Balance(Element(ns[0], ns[1]), ns[2], ns[3], ns[5], None, None, ns[4], None, map[]), ns[6]))
  }

  function Deser(raw: Data): Result<Balance>
  {
    if raw == [] then Returned(EMPTY)
    else
      var (head, count) :- ReadHead(raw);
      var (tokens, q) :- ReadTokens(raw, 56, count, map[]);
      ReadSections(raw, q, head.(tokens := tokens))
  }

  // ----- round trip -----

  ghost predicate Distinct<T>(s: seq<T>)
  {
    forall i, j :: 0 <= i < j < |s| ==> s[i] != s[j]
  }

  /** `order` walks every token exactly once. */
  ghost predicate Walks(order: seq<Data>, tokens: map<Data, TokenBalance>)
  {
    Distinct(order) && |order| == |tokens| && forall t :: t in order <==> t in tokens
  }

  /** Sizes fit their 64-bit fields. */
  predicate Storable(b: Balance)
  {
    |b.tokens| < TWO_64 && forall t :: t in b.tokens ==> |t| < TWO_64
  }

  /** The rows of `order` put into `acc` one after the other. */
  function Collected(tokens: map<Data, TokenBalance>, order: seq<Data>,
                     acc: map<Data, TokenBalance>): map<Data, TokenBalance>
    requires forall t :: t in order ==> t in tokens
    decreases order
  {
    if order == [] then acc else Collected(tokens, order[1..], acc[order[0] := tokens[order[0]]])
  }

  lemma {:induction false} CollectedAll(tokens: map<Data, TokenBalance>, order: seq<Data>, acc: map<Data, TokenBalance>)
    requires forall t :: t in order ==> t in tokens
    ensures Collected(tokens, order, acc) == acc + map t | t in order :: tokens[t]
    decreases order
  {
    if order != [] {
      CollectedAll(tokens, order[1..], acc[order[0] := tokens[order[0]]]);
      CollectedOne(tokens, order, acc);
    }
  }

  lemma CollectedOne(tokens: map<Data, TokenBalance>, order: seq<Data>, acc: map<Data, TokenBalance>)
    requires order != [] && forall t :: t in order ==> t in tokens
    ensures forall t :: t in order[1..] ==> t in tokens
    ensures acc[order[0] := tokens[order[0]]] + (map t | t in order[1..] :: tokens[t]) == acc + map t | t in order ::
            tokens[t]
  {
    assert order == [order[0]] + order[1..];
    assert forall t :: t in order <==> t == order[0] || t in order[1..];
  }

  ghost predicate Fresh(order: seq<Data>, acc: map<Data, TokenBalance>)
  {
    Distinct(order) && forall t :: t in order ==> t !in acc
  }

  lemma FreshRest(order: seq<Data>, acc: map<Data, TokenBalance>, row: TokenBalance)
    requires Fresh(order, acc) && order != []
    ensures order[0] !in acc && Fresh(order[1..], acc[order[0] := row])
  {
  }

  lemma ReadRowAt(raw: Data, from: nat, token: Data, t: TokenBalance)
    requires |token| < TWO_64
    requires At(raw, from, SerRow(token, t))
    ensures ReadRow(raw, from) == Returned(((token, t), from + 48 + |token|))
  {
    hide SerString; hide ReadString; hide SerInts; hide ReadInts; hide At;
    AtSplit(raw, from, SerString(token), SerInts(TokenInts(t)));
    ReadStringAt(raw, from, token);
    ReadIntsAt(raw, from + 8 + |token|, TokenInts(t));
  }

  lemma {:induction false} ReadTokensAt(raw: Data, from: nat, tokens: map<Data, TokenBalance>, order: seq<Data>,
                                        acc: map<Data, TokenBalance>)
    requires Fresh(order, acc)
    requires forall t :: t in order ==> t in tokens && |t| < TWO_64
    requires At(raw, from, SerTokens(tokens, order))
    ensures ReadTokens(raw, from, |order|, acc) ==
            Returned((Collected(tokens, order, acc), from + |SerTokens(tokens, order)|))
    decreases order
  {
    hide SerRow; hide ReadRow; hide At; hide Fresh;
    if order == [] {
      assert ReadTokens(raw, from, 0, acc) == Returned((acc, from));
    } else {
      var t, rest := order[0], order[1..];
      AtSplit(raw, from, SerRow(t, tokens[t]), SerTokens(tokens, rest));
      ReadRowAt(raw, from, t, tokens[t]);
      FreshRest(order, acc, tokens[t]);
      var next := from + 48 + |t|;
      assert ReadTokens(raw, from, |order|, acc) == ReadTokens(raw, next, |rest|, acc[t := tokens[t]]);
      assert Collected(tokens, order, acc) == Collected(tokens, rest, acc[t := tokens[t]]);
      hide ReadTokens; hide Collected;
      ReadTokensAt(raw, next, tokens, rest, acc[t := tokens[t]]);
    }
  }

  lemma ReadTokenBlockAt(raw: Data, from: nat, b: Balance, c: Balance)
    requires At(raw, from, SerTokenBlock(b)) && from + |SerTokenBlock(b)| == |raw|
    requires c.tokenBlockNumber.None?
    ensures ReadSections(raw, from, c) == Returned(c.(tokenBlockNumber := b.tokenBlockNumber))
  {
    if b.tokenBlockNumber.Some? {
      hide SerTag; hide ReadTag; hide SerInts; hide ReadInts; hide At;
      var ns := [b.tokenBlockNumber.value];
      AtSplit(raw, from, SerTag(TAG_TOKEN), SerInts(ns));
      ReadTagAt(raw, from, TAG_TOKEN);
      ReadIntsAt(raw, from + 1, ns);
    }
  }

  lemma ReadForgedAt(raw: Data, from: nat, b: Balance, c: Balance)
    requires At(raw, from, SerForged(b) + SerTokenBlock(b)) && from + |SerForged(b) + SerTokenBlock(b)| == |raw|
    requires c.forged.None? && c.tokenBlockNumber.None?
    ensures ReadSections(raw, from, c) == Returned(c.(forged := b.forged, tokenBlockNumber := b.tokenBlockNumber))
  {
    AtSplit(raw, from, SerForged(b), SerTokenBlock(b));
    var d := c.(forged := b.forged);
    hide SerTag; hide ReadTag; hide SerInts; hide ReadInts; hide At; hide SerTokenBlock;
    ReadTokenBlockAt(raw, from + |SerForged(b)|, b, d);
    if b.forged.Some? {
      var ns := [b.forged.value.countOp, b.forged.value.forged];
      AtSplit(raw, from, SerTag(TAG_FORGED), SerInts(ns));
      ReadTagAt(raw, from, TAG_FORGED);
      ReadIntsAt(raw, from + 1, ns);
    }
  }

  lemma ReadSectionsAt(raw: Data, from: nat, b: Balance, c: Balance)
    requires var tail := SerDelegate(b) + (SerForged(b) + SerTokenBlock(b));
             At(raw, from, tail) && from + |tail| == |raw|
    requires c.delegated.None? && c.forged.None? && c.tokenBlockNumber.None?
    ensures ReadSections(raw, from, c) ==
            Returned(c.(delegated := b.delegated, forged := b.forged, tokenBlockNumber := b.tokenBlockNumber))
  {
    hide SerDelegate; hide SerForged; hide SerTokenBlock; hide At; hide ReadSections;
    AtSplit(raw, from, SerDelegate(b), SerForged(b) + SerTokenBlock(b));
    ReadForgedAt(raw, from + |SerDelegate(b)|, b, c.(delegated := b.delegated));
    ReadDelegateAt(raw, from, b, c);
  }

  lemma ReadDelegateAt(raw: Data, from: nat, b: Balance, c: Balance)
    requires At(raw, from, SerDelegate(b)) && c.delegated.None?
    ensures ReadSections(raw, from, c) == ReadSections(raw, from + |SerDelegate(b)|, c.(delegated := b.delegated))
  {
    hide SerTag; hide ReadTag; hide SerInts; hide ReadInts; hide At;
    if b.delegated.Some? {
      var ns := DelegateInts(b.delegated.value);
      AtSplit(raw, from, SerTag(TAG_DELEGATE), SerInts(ns));
      ReadTagAt(raw, from, TAG_DELEGATE);
      ReadIntsAt(raw, from + 1, ns);
    }
  }

  lemma ReadHeadAt(raw: Data, b: Balance)
    requires |b.tokens| < TWO_64 && At(raw, 0, SerInts(HeadInts(b)))
    ensures ReadHead(raw) ==
            Returned((Balance(b.balance, b.countReceived, b.countSpent, b.countTxs, None, None, b.blockNumber, None,
              map[]), |b.tokens|))
  {
    hide SerInts; hide ReadInts; hide At;
    ReadIntsAt(raw, 0, HeadInts(b));
  }

  lemma ReadAllTokensAt(raw: Data, tokens: map<Data, TokenBalance>, order: seq<Data>)
    requires Walks(order, tokens) && forall t :: t in tokens ==> |t| < TWO_64
    requires At(raw, 56, SerTokens(tokens, order))
    ensures ReadTokens(raw, 56, |tokens|, map[]) == Returned((tokens, 56 + |SerTokens(tokens, order)|))
  {
    hide At; hide SerTokens; hide ReadTokens; hide Collected;
    ReadTokensAt(raw, 56, tokens, order, map[]);
    CollectedAll(tokens, order, map[]);
    assert Collected(tokens, order, map[]) == tokens;
  }

  /** A stored balance is read back unchanged, whatever order its tokens were written in. */
  lemma RoundTrip(b: Balance, order: seq<Data>)
    requires Storable(b) && Walks(order, b.tokens)
    ensures Deser(Ser(b, order)) == Returned(b)
  {
    hide SerInts; hide At; hide SerTokens; hide ReadTokens; hide ReadSections; hide HeadInts; hide ReadHead;
    hide SerDelegate; hide SerForged; hide SerTokenBlock;
    var raw := Ser(b, order);
    var rows, tail := SerTokens(b.tokens, order), SerDelegate(b) + (SerForged(b) + SerTokenBlock(b));
    HeadLength(b);
    assert raw == SerInts(HeadInts(b)) + (rows + tail);
    assert |raw| == 56 + |rows| + |tail|;
    hide Ser;
    AtStart(raw);
    AtSplit(raw, 0, SerInts(HeadInts(b)), rows + tail);
    AtSplit(raw, 56, rows, tail);
    ReadHeadAt(raw, b);
    ReadAllTokensAt(raw, b.tokens, order);
    var c := Balance(b.balance, b.countReceived, b.countSpent, b.countTxs, None, None, b.blockNumber, None, b.tokens);
    ReadSectionsAt(raw, 56 + |rows|, b, c);
  }

  lemma HeadLength(b: Balance)
    ensures |SerInts(HeadInts(b))| == 56
  {
  }
}
