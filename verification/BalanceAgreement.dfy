/** Folding a block into a delta and merging it agrees with applying its entries one by one. */
module BalanceAgreement {
  import opened Bytes
  import opened Transaction
  import opened BalanceInfo

  // ----- what a record means, with every accumulator reduced to its net value -----

  datatype DelegateView = DelegateView(delegate: u64, delegated: u64, reserved: u64, countOp: u64)
  datatype TokenView = TokenView(net: u64, countOp: u64, countReceived: u64, countSpent: u64)

  datatype View = View(
    net: u64, countReceived: u64, countSpent: u64, countTxs: u64,
    delegated: Option<DelegateView>, forged: Option<ForgedBalance>,
    blockNumber: u64, tokenBlockNumber: Option<u64>, tokens: map<Data, TokenView>)

  function ViewDelegate(d: DelegateBalance): DelegateView
  {
    DelegateView(d.delegate.Net(), d.delegated.Net(), d.reserved, d.countOp)
  }

  function ViewToken(t: TokenBalance): TokenView
  {
    TokenView(t.balance.Net(), t.countOp, t.countReceived, t.countSpent)
  }

  function ViewTokens(m: map<Data, TokenBalance>): map<Data, TokenView>
  {
    map t | t in m :: ViewToken(m[t])
  }

  function ViewOf(b: Balance): View
  {
    View(b.balance.Net(), b.countReceived, b.countSpent, b.countTxs,
         if b.delegated.None? then None else Some(ViewDelegate(b.delegated.value)), b.forged,
         b.blockNumber, b.tokenBlockNumber, ViewTokens(b.tokens))
  }

  // ----- adding views, component by component -----

  function Add(a: u64, b: u64): u64 { Wrap(a + b) }

  function AddDelegate(a: Option<DelegateView>, b: Option<DelegateView>): Option<DelegateView>
  {
    if a.None? then b else if b.None? then a else
      Some(DelegateView(Add(a.value.delegate, b.value.delegate), Add(a.value.delegated, b.value.delegated),
                        Add(a.value.reserved, b.value.reserved), Add(a.value.countOp, b.value.countOp)))
  }

  function AddForged(a: Option<ForgedBalance>, b: Option<ForgedBalance>): Option<ForgedBalance>
  {
    if a.None? then b else if b.None? then a else
      Some(ForgedBalance(Add(a.value.forged, b.value.forged), Add(a.value.countOp, b.value.countOp)))
  }

  function AddToken(a: TokenView, b: TokenView): TokenView
  {
    TokenView(Add(a.net, b.net), Add(a.countOp, b.countOp),
              Add(a.countReceived, b.countReceived), Add(a.countSpent, b.countSpent))
  }

  function AddTokens(a: map<Data, TokenView>, b: map<Data, TokenView>): map<Data, TokenView>
  {
    map t | t in a.Keys + b.Keys ::
      if t !in b then a[t] else if t !in a then b[t] else AddToken(a[t], b[t])
  }

  function AddView(a: View, b: View): View
  {
    View(Add(a.net, b.net), Add(a.countReceived, b.countReceived), Add(a.countSpent, b.countSpent),
      Add(a.countTxs, b.countTxs),
         AddDelegate(a.delegated, b.delegated), AddForged(a.forged, b.forged),
         Max(a.blockNumber, b.blockNumber), MergeBlockNumber(a.tokenBlockNumber, b.tokenBlockNumber),
         AddTokens(a.tokens, b.tokens))
  }

  lemma AddAssociative(a: u64, b: u64, c: u64)
    ensures Add(Add(a, b), c) == Add(a, Add(b, c))
  {
    WrapAdd(a + b, c);
    WrapAdd(a, b + c);
  }

  lemma AddDelegateAssociative(a: Option<DelegateView>, b: Option<DelegateView>, c: Option<DelegateView>)
    ensures AddDelegate(AddDelegate(a, b), c) == AddDelegate(a, AddDelegate(b, c))
  {
    if a.Some? && b.Some? && c.Some? {
      AddAssociative(a.value.delegate, b.value.delegate, c.value.delegate);
      AddAssociative(a.value.delegated, b.value.delegated, c.value.delegated);
      AddAssociative(a.value.reserved, b.value.reserved, c.value.reserved);
      AddAssociative(a.value.countOp, b.value.countOp, c.value.countOp);
    }
  }

  lemma AddForgedAssociative(a: Option<ForgedBalance>, b: Option<ForgedBalance>, c: Option<ForgedBalance>)
    ensures AddForged(AddForged(a, b), c) == AddForged(a, AddForged(b, c))
  {
    if a.Some? && b.Some? && c.Some? {
      AddAssociative(a.value.forged, b.value.forged, c.value.forged);
      AddAssociative(a.value.countOp, b.value.countOp, c.value.countOp);
    }
  }

  lemma AddTokenAssociative(a: TokenView, b: TokenView, c: TokenView)
    ensures AddToken(AddToken(a, b), c) == AddToken(a, AddToken(b, c))
  {
    AddAssociative(a.net, b.net, c.net);
    AddAssociative(a.countOp, b.countOp, c.countOp);
    AddAssociative(a.countReceived, b.countReceived, c.countReceived);
    AddAssociative(a.countSpent, b.countSpent, c.countSpent);
  }

  lemma AddTokensAssociative(a: map<Data, TokenView>, b: map<Data, TokenView>, c: map<Data, TokenView>)
    ensures AddTokens(AddTokens(a, b), c) == AddTokens(a, AddTokens(b, c))
  {
    var l, r := AddTokens(AddTokens(a, b), c), AddTokens(a, AddTokens(b, c));
    assert l.Keys == r.Keys;
    forall t | t in l ensures l[t] == r[t] {
      if t in a && t in b && t in c { AddTokenAssociative(a[t], b[t], c[t]); }
    }
  }

  lemma AddViewAssociative(a: View, b: View, c: View)
    ensures AddView(AddView(a, b), c) == AddView(a, AddView(b, c))
  {
    AddAssociative(a.net, b.net, c.net);
    AddAssociative(a.countReceived, b.countReceived, c.countReceived);
    AddAssociative(a.countSpent, b.countSpent, c.countSpent);
    AddAssociative(a.countTxs, b.countTxs, c.countTxs);
    AddDelegateAssociative(a.delegated, b.delegated, c.delegated);
    AddForgedAssociative(a.forged, b.forged, c.forged);
    AddTokensAssociative(a.tokens, b.tokens, c.tokens);
  }

  // ----- merging records adds their views -----

  lemma MergeElementNet(a: Element, b: Element)
    ensures MergeElement(a, b).Net() == Add(a.Net(), b.Net())
    ensures MergeDelegateElement(a, b).Net() == Add(a.Net(), b.Net())
  {
    hide Wrap;
    ElementNet(a, b.received);
    ElementNet(a.Receive(b.received), b.spent);
    ElementNet(a, b.spent);
    ElementNet(a.Spend(b.spent), b.received);
    WrapAdd(a.Net() + b.received, 0 - b.spent);
    WrapAdd(a.Net() - b.spent, b.received);
    WrapAdd(a.Net(), b.received - b.spent);
  }

  lemma AddZero(a: u64)
    ensures Add(a, 0) == a && Add(0, a) == a
  {
  }

  /** A change starting from any value is the change starting from zero, added. */
  lemma AddWrap(a: u64, change: int)
    ensures Wrap(a + change) == Add(a, Wrap(0 + change))
  {
    WrapAdd(a, change);
  }

  lemma MergeDelegateView(a: DelegateBalance, b: DelegateBalance)
    ensures Some(ViewDelegate(MergeDelegate(a, b))) == AddDelegate(Some(ViewDelegate(a)), Some(ViewDelegate(b)))
  {
    hide Wrap; hide Element.Net; hide MergeElement; hide MergeDelegateElement;
    MergeElementNet(a.delegate, b.delegate);
    MergeElementNet(a.delegated, b.delegated);
  }

  lemma ZeroNet()
    ensures ZERO.Net() == 0
  {
  }

  lemma NoDelegateView(b: DelegateBalance)
    ensures AddDelegate(Some(ViewDelegate(NO_DELEGATE)), Some(ViewDelegate(b))) == Some(ViewDelegate(b))
  {
    hide Add; hide Wrap; hide Element.Net;
    ZeroNet();
    AddZero(b.delegate.Net());
    AddZero(b.delegated.Net());
    AddZero(b.reserved);
    AddZero(b.countOp);
  }

  lemma MergeTokenView(a: TokenBalance, b: TokenBalance)
    ensures ViewToken(MergeToken(a, b)) == AddToken(ViewToken(a), ViewToken(b))
  {
    hide Wrap; hide Element.Net; hide MergeElement;
    MergeElementNet(a.balance, b.balance);
  }

  lemma NoTokensView(b: TokenView)
    ensures AddToken(ViewToken(NO_TOKENS), b) == b
  {
    hide Wrap; hide Element.Net; hide Add;
    ZeroNet();
    AddZero(b.net);
    AddZero(b.countOp);
    AddZero(b.countReceived);
    AddZero(b.countSpent);
  }

  lemma MergeTokensView(a: map<Data, TokenBalance>, b: map<Data, TokenBalance>)
    ensures ViewTokens(MergeTokens(a, b)) == AddTokens(ViewTokens(a), ViewTokens(b))
  {
    hide AddToken; hide MergeToken; hide ViewToken;
    var l, r := ViewTokens(MergeTokens(a, b)), AddTokens(ViewTokens(a), ViewTokens(b));
    assert l.Keys == r.Keys;
    forall t | t in l ensures l[t] == r[t] {
      if t in b {
        MergeTokenView(if t in a then a[t] else NO_TOKENS, b[t]);
        NoTokensView(ViewToken(b[t]));
      }
    }
  }

  lemma MergeForged(a: Option<ForgedBalance>, b: ForgedBalance)
    ensures AddForged(a, Some(b)) ==
            Some(ForgedBalance(Wrap(Or(a, NO_FORGED).forged + b.forged), Wrap(Or(a, NO_FORGED).countOp + b.countOp)))
  {
    AddZero(b.forged);
    AddZero(b.countOp);
  }

  /** `old + delta` has the sum of the two views. */
  lemma PlusView(a: Balance, b: Balance)
    ensures ViewOf(Plus(a, b)) == AddView(ViewOf(a), ViewOf(b))
  {
    hide Wrap; hide Element.Net; hide MergeElement; hide MergeTokens; hide AddTokens; hide ViewTokens;
    hide MergeDelegate; hide ViewDelegate;
    MergeElementNet(a.balance, b.balance);
    MergeTokensView(a.tokens, b.tokens);
    if b.delegated.Some? {
      MergeDelegateView(Or(a.delegated, NO_DELEGATE), b.delegated.value);
      NoDelegateView(b.delegated.value);
    }
    if b.forged.Some? { MergeForged(a.forged, b.forged.value); }
  }

  // ----- one entry adds the same view to every record -----

  /** The block number of the transaction behind an entry. */
  function EntryBlock(e: Entry): u64 { e.tx.blockNumber }

  /** The record was last touched by tokens no later than block `n`. */
  predicate TokensUpTo(b: Balance, n: u64)
  {
    b.tokenBlockNumber.Some? ==> b.tokenBlockNumber.value <= n
  }

  lemma SpendView(e: Element, amount: u64)
    ensures e.Spend(amount).Net() == Add(e.Net(), ZERO.Spend(amount).Net())
    ensures e.Receive(amount).Net() == Add(e.Net(), ZERO.Receive(amount).Net())
  {
    hide Wrap; hide Element.Net; hide Element.Spend; hide Element.Receive;
    ZeroNet();
    ElementNet(e, amount);
    ElementNet(ZERO, amount);
    AddWrap(e.Net(), 0 - amount);
    AddWrap(e.Net(), amount);
  }

  lemma SpendReceiveView(e: Element, spent: u64, received: u64)
    ensures e.Spend(spent).Receive(received).Net() == Add(e.Net(), ZERO.Spend(spent).Receive(received).Net())
  {
    hide Add; hide Element.Net; hide Element.Spend; hide Element.Receive;
    SpendView(e, spent);
    SpendView(e.Spend(spent), received);
    SpendView(ZERO.Spend(spent), received);
    AddAssociative(e.Net(), ZERO.Spend(spent).Net(), ZERO.Receive(received).Net());
  }

  lemma NoTokenChange(tokens: map<Data, TokenBalance>)
    ensures AddTokens(ViewTokens(tokens), ViewTokens(map[])) == ViewTokens(tokens)
    ensures AddTokens(ViewTokens(map[]), ViewTokens(tokens)) == ViewTokens(tokens)
  {
    assert ViewTokens(map[]) == map[];
  }

  lemma PlainNetView(b: Balance, e: Entry)
    requires e.Plain? && Applies(e)
    ensures Apply(b, e).balance.Net() == Add(b.balance.Net(), Apply(EMPTY, e).balance.Net())
  {
    hide Add; hide Wrap; hide Element.Net; hide Element.Spend; hide Element.Receive; hide Tx.RealFee;
    var tx := e.tx;
    var spent := Wrap(tx.value + tx.RealFee());
    SpendView(b.balance, spent);
    SpendView(b.balance, tx.value);
    SpendReceiveView(b.balance, spent, tx.value);
    ZeroNet();
    AddZero(b.balance.Net());
  }

  lemma PlainCountsView(b: Balance, e: Entry)
    requires e.Plain? && Applies(e)
    ensures var r, z := Apply(b, e), Apply(EMPTY, e);
            r.countReceived == Add(b.countReceived, z.countReceived) &&
              r.countSpent == Add(b.countSpent, z.countSpent) &&
            r.countTxs == Add(b.countTxs, z.countTxs) && r.blockNumber == Max(b.blockNumber, z.blockNumber) &&
            r.tokenBlockNumber == b.tokenBlockNumber && r.tokens == b.tokens && z.tokenBlockNumber == None &&
              z.tokens == map[]
  {
    hide Add; hide Wrap; hide Element.Net; hide Element.Spend; hide Element.Receive; hide Tx.RealFee;
    AddZero(b.countReceived);
    AddZero(b.countSpent);
    AddWrap(b.countReceived, 1);
    AddWrap(b.countSpent, 1);
    AddWrap(b.countTxs, 1);
  }

  lemma PlainView(b: Balance, e: Entry)
    requires e.Plain? && Applies(e)
    ensures ViewOf(Apply(b, e)) == AddView(ViewOf(b), ViewOf(Apply(EMPTY, e)))
  {
    hide Add; hide Element.Net; hide ViewTokens; hide AddTokens; hide AddDelegate; hide ViewDelegate; hide AddForged;
    hide Apply; hide Applies;
    PlainNetView(b, e);
    PlainCountsView(b, e);
    NoTokenChange(b.tokens);
    PlainDelegateView(b, e);
    PlainForgedView(b, e);
  }

  lemma PlainForgedView(b: Balance, e: Entry)
    requires e.Plain? && Applies(e)
    ensures Apply(b, e).forged == AddForged(b.forged, Apply(EMPTY, e).forged)
  {
    hide Add; hide Wrap; hide Element.Spend; hide Element.Receive; hide Tx.RealFee;
    var f := Or(b.forged, NO_FORGED);
    AddWrap(f.forged, e.tx.value);
    AddWrap(f.countOp, 1);
  }

  lemma PlainDelegateView(b: Balance, e: Entry)
    requires e.Plain? && Applies(e)
    ensures ViewOf(Apply(b, e)).delegated == AddDelegate(ViewOf(b).delegated, ViewOf(Apply(EMPTY, e)).delegated)
  {
    hide Add; hide Wrap; hide Element.Net; hide Element.Spend; hide Element.Receive; hide Tx.RealFee; hide ViewTokens;
    if e.tx.delegate.Some? {
      var d := Or(b.delegated, NO_DELEGATE);
      ZeroNet();
      AddZero(d.delegate.Net());
      AddZero(d.delegated.Net());
      AddZero(d.reserved);
      AddZero(d.countOp);
      AddWrap(d.reserved, e.tx.delegate.value.value);
    }
  }

  lemma WithDelegateView(b: Balance, e: Entry)
    requires e.WithDelegate? && Applies(e)
    ensures ViewOf(Apply(b, e)) == AddView(ViewOf(b), ViewOf(Apply(EMPTY, e)))
  {
    hide Add; hide Wrap; hide Element.Net; hide Element.Spend; hide Element.Receive;
    hide ViewTokens; hide AddTokens; hide AddDelegate; hide ViewDelegate; hide AddForged;
    var WithDelegate(tx, address, u, ok) := e;
    SpendView(b.balance, tx.delegate.value.value);
    SpendView(b.balance, Or(u, 0));
    ZeroNet();
    AddZero(b.balance.Net());
    AddZero(b.countReceived);
    AddZero(b.countSpent);
    AddZero(b.countTxs);
    NoTokenChange(b.tokens);
    assert AddForged(b.forged, None) == b.forged by { NoForgedChange(b.forged); }
    WithDelegatePart(b, e);
  }

  lemma NoForgedChange(f: Option<ForgedBalance>)
    ensures AddForged(f, None) == f
  {
  }

  lemma WithDelegatePart(b: Balance, e: Entry)
    requires e.WithDelegate? && Applies(e)
    ensures ViewOf(Apply(b, e)).delegated == AddDelegate(ViewOf(b).delegated, ViewOf(Apply(EMPTY, e)).delegated)
  {
    hide Add; hide Wrap; hide Element.Net; hide Element.Spend; hide Element.Receive; hide ViewTokens;
    var WithDelegate(tx, address, u, ok) := e;
    var amount := if tx.delegate.value.isDelegate then tx.delegate.value.value else Or(u, 0);
    var d := Or(b.delegated, NO_DELEGATE);
    SpendView(d.delegate, amount);
    SpendView(d.delegated, amount);
    ZeroNet();
    AddZero(d.delegate.Net());
    AddZero(d.delegated.Net());
    AddZero(d.reserved);
    AddWrap(d.reserved, 0 - tx.delegate.value.value);
    AddWrap(d.countOp, 1);
  }

  /** Writing one token's row adds the view of that row. */
  lemma TokenRowView(tokens: map<Data, TokenBalance>, token: Data, t: TokenBalance, delta: TokenBalance)
    requires ViewToken(t) == AddToken(ViewToken(if token in tokens then tokens[token] else NO_TOKENS), ViewToken(delta))
    ensures ViewTokens(tokens[token := t]) == AddTokens(ViewTokens(tokens), ViewTokens(map[token := delta]))
  {
    hide AddToken; hide ViewToken;
    var l, r := ViewTokens(tokens[token := t]), AddTokens(ViewTokens(tokens), ViewTokens(map[token := delta]));
    assert l.Keys == r.Keys;
    NoTokensView(ViewToken(delta));
  }

  lemma TokenRow(b: Balance, e: Entry)
    requires e.TokensAdded? || e.TokensMoved?
    requires e.isOkStatus && e.tx.tokenInfo.Some?
    ensures ViewToken(TokenOf(Apply(b, e), BdString(e.tx.to))) ==
            AddToken(ViewToken(TokenOf(b, BdString(e.tx.to))), ViewToken(TokenOf(Apply(EMPTY, e), BdString(e.tx.to))))
  {
    hide Add; hide Wrap; hide Element.Net; hide Element.Spend; hide Element.Receive; hide BdString;
    var t := TokenOf(b, BdString(e.tx.to));
    SpendView(t.balance, e.value);
    SpendReceiveView(t.balance, e.value, e.value);
    ZeroNet();
    AddZero(t.balance.Net());
    AddZero(t.countReceived);
    AddZero(t.countSpent);
    AddWrap(t.countReceived, 1);
    AddWrap(t.countSpent, 1);
    AddWrap(t.countOp, 1);
  }

  lemma TokensEntryTokens(b: Balance, e: Entry)
    requires e.TokensAdded? || e.TokensMoved?
    ensures ViewTokens(Apply(b, e).tokens) == AddTokens(ViewTokens(b.tokens), ViewTokens(Apply(EMPTY, e).tokens))
  {
    hide Add; hide Wrap; hide Element.Net; hide Element.Spend; hide Element.Receive; hide BdString;
    hide ViewToken; hide AddToken; hide ViewTokens; hide AddTokens;
    if e.isOkStatus && e.tx.tokenInfo.Some? {
      TokenRow(b, e);
      var token := BdString(e.tx.to);
      var after, delta := Apply(b, e).tokens[token], Apply(EMPTY, e).tokens[token];
      TokenRowView(b.tokens, token, after, delta);
      assert Apply(EMPTY, e).tokens == map[token := delta];
      assert Apply(b, e).tokens == b.tokens[token := after];
    } else {
      NoTokenChange(b.tokens);
    }
  }

  lemma TokensEntryView(b: Balance, e: Entry)
    requires e.TokensAdded? || e.TokensMoved?
    requires TokensUpTo(b, EntryBlock(e))
    ensures ViewOf(Apply(b, e)) == AddView(ViewOf(b), ViewOf(Apply(EMPTY, e)))
  {
    hide Add; hide Wrap; hide Element.Net; hide Element.Spend; hide Element.Receive;
    hide ViewTokens; hide AddTokens; hide ViewDelegate; hide BdString;
    ZeroNet();
    AddZero(b.balance.Net());
    AddZero(b.countReceived);
    AddZero(b.countSpent);
    AddZero(b.countTxs);
    TokensEntryTokens(b, e);
  }

  /** One entry moves every record by the same view, namely the one it gives the empty record. */
  lemma EntryView(b: Balance, e: Entry)
    requires Applies(e) && TokensUpTo(b, EntryBlock(e))
    ensures ViewOf(Apply(b, e)) == AddView(ViewOf(b), ViewOf(Apply(EMPTY, e)))
  {
    hide ViewOf; hide AddView; hide Apply;
    match e
    case Plain(_, _, _, _) => PlainView(b, e);
    case WithDelegate(_, _, _, _) => WithDelegateView(b, e);
    case _ => TokensEntryView(b, e);
  }

  lemma EmptyIsNeutral(b: Balance)
    ensures AddView(ViewOf(EMPTY), ViewOf(b)) == ViewOf(b)
    ensures AddView(ViewOf(b), ViewOf(EMPTY)) == ViewOf(b)
  {
    hide Add; hide Wrap; hide Element.Net; hide ViewTokens; hide AddTokens; hide ViewDelegate;
    ZeroNet();
    AddZero(b.balance.Net());
    AddZero(b.countReceived);
    AddZero(b.countSpent);
    AddZero(b.countTxs);
    NoTokenChange(b.tokens);
  }

  // ----- whole blocks -----

  predicate EntriesOfBlock(entries: seq<Entry>, n: u64)
  {
    forall e :: e in entries ==> Applies(e) && EntryBlock(e) == n
  }

  lemma {:induction false} ApplyAllView(b: Balance, entries: seq<Entry>, n: u64)
    requires EntriesOfBlock(entries, n) && TokensUpTo(b, n)
    ensures ViewOf(ApplyAll(b, entries)) == AddView(ViewOf(b), ViewOf(ApplyAll(EMPTY, entries)))
    decreases entries
  {
    if entries == [] {
      EmptyIsNeutral(b);
    } else {
      var e, rest := entries[0], entries[1..];
      EntryView(b, e);
      ApplyAllView(Apply(b, e), rest, n);
      ApplyAllView(Apply(EMPTY, e), rest, n);
      AddViewAssociative(ViewOf(b), ViewOf(Apply(EMPTY, e)), ViewOf(ApplyAll(EMPTY, rest)));
    }
  }

  /** Merging the block's delta gives every net value, counter, forged sum, token and block number
      that applying the block's entries one after the other gives. */
  lemma DeltaAgrees(old_: Balance, entries: seq<Entry>, n: u64)
    requires EntriesOfBlock(entries, n) && TokensUpTo(old_, n)
    ensures ViewOf(Plus(old_, ApplyAll(EMPTY, entries))) == ViewOf(ApplyAll(old_, entries))
  {
    ApplyAllView(old_, entries, n);
    PlusView(old_, ApplyAll(EMPTY, entries));
  }

  // ----- field by field, as long as no total reaches 2^64 - 1 -----

  /** The accumulators of a record. */
  datatype Account = Main | Delegate | Delegated | Token(token: Data)

  function Acc(b: Balance, a: Account): Element
  {
    match a
    case Main => b.balance
    case Delegate => Or(b.delegated, NO_DELEGATE).delegate
    case Delegated => Or(b.delegated, NO_DELEGATE).delegated
    case Token(t) => TokenOf(b, t).balance
  }

  function If(c: bool, m: Move): seq<Move> { if c then [m] else [] }

  /** What an entry does to an accumulator. */
  function Moves(e: Entry, a: Account): seq<Move>
    requires Applies(e)
  {
    match e
    case Plain(tx, address, change, _) =>
      if a != Main then []
      else
        If(tx.from == address && change, Out(Wrap(tx.value + tx.RealFee()))) +
        If(tx.to == address && change, In(tx.value))
    case WithDelegate(tx, address, u, ok) =>
      var d := tx.delegate.value;
      if a == Main || a == Delegate then If(ok && tx.from == address,
        if d.isDelegate then Out(d.value) else In(Or(u, 0)))
      else if a == Delegated then If(ok && tx.to == address, if d.isDelegate then In(d.value) else Out(Or(u, 0)))
      else []
    case TokensAdded(tx, value, ok) => If(a == Token(BdString(tx.to)) && ok && tx.tokenInfo.Some?, In(value))
    case TokensMoved(tx, address, toAddress, value, ok) =>
      if a != Token(BdString(tx.to)) || !ok || tx.tokenInfo.None? then []
      else If(tx.from == address, Out(value)) + If(toAddress == address, In(value))
  }

  function AllMoves(entries: seq<Entry>, a: Account): seq<Move>
    requires forall e :: e in entries ==> Applies(e)
    decreases entries
  {
    if entries == [] then [] else Moves(entries[0], a) + AllMoves(entries[1..], a)
  }

  lemma {:induction false} MovedAllConcat(e: Element, s: seq<Move>, t: seq<Move>)
    ensures MovedAll(e, s + t) == MovedAll(MovedAll(e, s), t)
    decreases s
  {
    if s == [] {
      assert s + t == t;
    } else {
      assert (s + t)[1..] == s[1..] + t;
      MovedAllConcat(Moved(e, s[0]), s[1..], t);
    }
  }

  lemma TwoMoves(e: Element, c: bool, m: Move, d: bool, n: Move)
    ensures MovedAll(e, If(c, m)) == if c then Moved(e, m) else e
    ensures MovedAll(e, If(c, m) + If(d, n)) ==
            var f := if c then Moved(e, m) else e; if d then Moved(f, n) else f
  {
    hide Moved;
    MovedAllConcat(e, If(c, m), If(d, n));
    assert [m][1..] == [] && [n][1..] == [];
  }

  lemma PlainMoves(b: Balance, e: Entry, a: Account)
    requires e.Plain? && Applies(e)
    ensures Acc(Apply(b, e), a) == MovedAll(Acc(b, a), Moves(e, a))
  {
    hide Wrap; hide Element.Spend; hide Element.Receive; hide Tx.RealFee;
    var Plain(tx, address, change, _) := e;
    TwoMoves(b.balance, tx.from == address && change, Out(Wrap(tx.value + tx.RealFee())), tx.to == address && change,
      In(tx.value));
  }

  lemma WithDelegateMoves(b: Balance, e: Entry, a: Account)
    requires e.WithDelegate? && Applies(e)
    ensures Acc(Apply(b, e), a) == MovedAll(Acc(b, a), Moves(e, a))
  {
    hide Wrap; hide Element.Spend; hide Element.Receive; hide MovedAll; hide If;
    var WithDelegate(tx, address, u, ok) := e;
    var d := tx.delegate.value;
    TwoMoves(Acc(b, a), ok && tx.from == address, if d.isDelegate then Out(d.value) else In(Or(u, 0)), false, In(0));
    TwoMoves(Acc(b, a), ok && tx.to == address, if d.isDelegate then In(d.value) else Out(Or(u, 0)), false, In(0));
    NoMoves(Acc(b, a));
  }

  lemma NoMoves(e: Element)
    ensures MovedAll(e, []) == e
  {
  }

  lemma TokensMoves(b: Balance, e: Entry, a: Account)
    requires e.TokensAdded? || e.TokensMoved?
    ensures Acc(Apply(b, e), a) == MovedAll(Acc(b, a), Moves(e, a))
  {
    hide Wrap; hide Element.Spend; hide Element.Receive; hide BdString; hide MovedAll; hide If;
    NoMoves(Acc(b, a));
    match e
    case TokensAdded(tx, value, ok) =>
      TwoMoves(Acc(b, a), a == Token(BdString(tx.to)) && ok && tx.tokenInfo.Some?, In(value), false, In(0));
    case TokensMoved(tx, address, toAddress, value, ok) =>
      TwoMoves(Acc(b, a), tx.from == address, Out(value), toAddress == address, In(value));
  }

  lemma ApplyMoves(b: Balance, e: Entry, a: Account)
    requires Applies(e)
    ensures Acc(Apply(b, e), a) == MovedAll(Acc(b, a), Moves(e, a))
  {
    hide Acc; hide Moves; hide MovedAll; hide Apply; hide Applies;
    match e
    case Plain(_, _, _, _) => PlainMoves(b, e, a);
    case WithDelegate(_, _, _, _) => WithDelegateMoves(b, e, a);
    case _ => TokensMoves(b, e, a);
  }

  /** Each accumulator of a record runs through exactly its own moves, in order. */
  lemma {:induction false} ApplyAllMoves(b: Balance, entries: seq<Entry>, a: Account)
    requires forall e :: e in entries ==> Applies(e)
    ensures Acc(ApplyAll(b, entries), a) == MovedAll(Acc(b, a), AllMoves(entries, a))
    decreases entries
  {
    hide Acc; hide Moves; hide Apply; hide Applies;
    if entries != [] {
      ApplyMoves(b, entries[0], a);
      ApplyAllMoves(Apply(b, entries[0]), entries[1..], a);
      MovedAllConcat(Acc(b, a), Moves(entries[0], a), AllMoves(entries[1..], a));
    }
  }

  /** The gross totals of the accumulator stay below 2^64-1. */
  predicate TotalsFit(old_: Balance, entries: seq<Entry>, a: Account)
    requires forall e :: e in entries ==> Applies(e)
  {
    Acc(old_, a).received + TotalIn(AllMoves(entries, a)) < MAX &&
    Acc(old_, a).spent + TotalOut(AllMoves(entries, a)) < MAX
  }

  lemma MergedAccount(old_: Balance, entries: seq<Entry>, a: Account)
    requires forall e :: e in entries ==> Applies(e)
    requires TotalsFit(old_, entries, a)
    ensures MergeElement(Acc(old_, a), Acc(ApplyAll(EMPTY, entries), a)) == Acc(ApplyAll(old_, entries), a)
    ensures MergeDelegateElement(Acc(old_, a), Acc(ApplyAll(EMPTY, entries), a)) == Acc(ApplyAll(old_, entries), a)
  {
    hide Moves; hide Apply; hide Applies; hide AllMoves; hide TotalIn; hide TotalOut; hide ApplyAll;
    assert Acc(EMPTY, a) == ZERO;
    ApplyAllMoves(old_, entries, a);
    ApplyAllMoves(EMPTY, entries, a);
    MovedAllPlain(Acc(old_, a), AllMoves(entries, a));
    MovedAllPlain(ZERO, AllMoves(entries, a));
  }

  lemma PlusAccount(old_: Balance, d: Balance, a: Account)
    requires Acc(old_, a).received < MAX && Acc(old_, a).spent < MAX
    ensures Acc(Plus(old_, d), a) == MergeElement(Acc(old_, a), Acc(d, a)) ||
            Acc(Plus(old_, d), a) == MergeDelegateElement(Acc(old_, a), Acc(d, a))
  {
    hide Wrap;
  }

  /** Two records with one meaning and equal accumulators are the same record. */
  lemma SameRecord(x: Balance, y: Balance)
    requires ViewOf(x) == ViewOf(y)
    requires forall a: Account :: Acc(x, a) == Acc(y, a)
    ensures x == y
  {
    hide Element.Net;
    assert Acc(x, Main) == Acc(y, Main) && Acc(x, Delegate) == Acc(y, Delegate) &&
      Acc(x, Delegated) == Acc(y, Delegated);
    assert x.tokens.Keys == ViewTokens(x.tokens).Keys == ViewTokens(y.tokens).Keys == y.tokens.Keys;
    forall t | t in x.tokens ensures x.tokens[t] == y.tokens[t] {
      assert ViewTokens(x.tokens)[t] == ViewTokens(y.tokens)[t];
      assert Acc(x, Token(t)) == Acc(y, Token(t));
    }
    assert x.tokens == y.tokens;
  }

  /** The merged record is the very record that applying the entries one by one gives, field by field. */
  lemma DeltaIdentical(old_: Balance, entries: seq<Entry>, n: u64)
    requires EntriesOfBlock(entries, n) && TokensUpTo(old_, n)
    requires forall a: Account :: TotalsFit(old_, entries, a)
    ensures Plus(old_, ApplyAll(EMPTY, entries)) == ApplyAll(old_, entries)
  {
    hide ViewOf; hide Plus; hide Acc; hide ApplyAll; hide MergeElement; hide MergeDelegateElement;
    DeltaAgrees(old_, entries, n);
    forall a: Account
      ensures Acc(Plus(old_, ApplyAll(EMPTY, entries)), a) == Acc(ApplyAll(old_, entries), a)
    {
      assert TotalsFit(old_, entries, a);
      PlusAccount(old_, ApplyAll(EMPTY, entries), a);
      MergedAccount(old_, entries, a);
    }
    SameRecord(Plus(old_, ApplyAll(EMPTY, entries)), ApplyAll(old_, entries));
  }
}
