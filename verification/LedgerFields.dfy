/** The additive fields of one address's record and what a transaction does to each of them, stated on the
    transaction. */
module LedgerFields {
  import opened Bytes
  import opened Store
  import opened Transaction
  import opened BalanceInfo
  import opened Records
  import opened Ledger
  import opened LedgerMeasures
  import opened LedgerTerms
  import BA = BalanceAgreement
  import S = LedgerSums

  /** Money: calcBalanceWithoutDelegate. Holding: the balance of a token. The others are counters and the forged sum. */
  datatype Field =
    | Money | Received | Sent | Transactions | Forged | ForgedOps | DelegateOps
    | Holding(token: Data) | TokenOps(token: Data) | TokenReceived(token: Data) | TokenSent(token: Data)

  predicate OfToken(f: Field) { f.Holding? || f.TokenOps? || f.TokenReceived? || f.TokenSent? }

  /** The initial wallet, the empty address, has no record of its own except for tokens. */
  predicate HasRecord(a: Address, f: Field) { a != [] || OfToken(f) }

  function Value(b: Balance, f: Field): u64
  {
    match f
    case Money => CalcBalanceWithoutDelegate(b)
    case Received => b.countReceived
    case Sent => b.countSpent
    case Transactions => b.countTxs
    case Forged => Or(b.forged, NO_FORGED).forged
    case ForgedOps => Or(b.forged, NO_FORGED).countOp
    case DelegateOps => Or(b.delegated, NO_DELEGATE).countOp
    case Holding(t) => TokenOf(b, t).balance.Net()
    case TokenOps(t) => TokenOf(b, t).countOp
    case TokenReceived(t) => TokenOf(b, t).countReceived
    case TokenSent(t) => TokenOf(b, t).countSpent
  }

  // ----- what a transaction means for an address -----

  function At(address: Address, bd: Data, value: int): int { if BdString(address) == bd then value else 0 }

  function Shares(begin: seq<(Address, u64)>): int
    decreases begin
  {
    if begin == [] then 0 else begin[0].1 + Shares(begin[1..])
  }

  function SharesOf(begin: seq<(Address, u64)>, bd: Data): int
    decreases begin
  {
    if begin == [] then 0 else At(begin[0].0, bd, begin[0].1) + SharesOf(begin[1..], bd)
  }

  /** How many shares an address gets. */
  function SharesAt(begin: seq<(Address, u64)>, bd: Data): int
    decreases begin
  {
    if begin == [] then 0 else At(begin[0].0, bd, 1) + SharesAt(begin[1..], bd)
  }

  /** What a successful token transaction gives to an address: the owner of a new token gets what is not distributed. */
  function Given(tx: Tx, info: TokenInfo, bd: Data): int
  {
    if info.Create? then SharesOf(info.beginDistribution, bd) +
      At(info.owner, bd, info.value - Shares(info.beginDistribution))
    else if info.AddTokens? then At(info.toAddress, bd, info.value)
    else if info.MoveTokens? then At(info.toAddress, bd, info.value) - At(tx.from, bd, info.value)
    else if info.BurnTokens? && tx.from != ZeroAddress() then 0 - At(tx.from, bd, info.value)
    else 0
  }

  /** How often it is a recipient: every share and the owner's rest count, and a burn by the zero address itself. */
  function TimesReceived(tx: Tx, info: TokenInfo, bd: Data): int
  {
    if info.Create? then SharesAt(info.beginDistribution, bd) + At(info.owner, bd, 1)
    else if info.AddTokens? then At(info.toAddress, bd, 1)
    else if info.MoveTokens? then At(info.toAddress, bd, 1)
    else if info.BurnTokens? && tx.from == ZeroAddress() then At(tx.from, bd, 1)
    else 0
  }

  function TimesSent(tx: Tx, info: TokenInfo, bd: Data): int
  {
    if info.MoveTokens? || info.BurnTokens? then At(tx.from, bd, 1) else 0
  }

  /** How often it takes part: moving to oneself is one operation. */
  function TimesInvolved(tx: Tx, info: TokenInfo, bd: Data): int
  {
    if info.Create? || info.AddTokens? then TimesReceived(tx, info, bd)
    else if info.MoveTokens? then At(info.toAddress, bd, 1) + If(info.toAddress != tx.from, At(tx.from, bd, 1))
    else if info.BurnTokens? then At(tx.from, bd, 1)
    else 0
  }

  function TokenEffect(tx: Tx, info: TokenInfo, bd: Data, f: Field): int
    requires OfToken(f)
  {
    match f
    case Holding(_) => Given(tx, info, bd)
    case TokenOps(_) => TimesInvolved(tx, info, bd)
    case TokenReceived(_) => TimesReceived(tx, info, bd)
    case TokenSent(_) => TimesSent(tx, info, bd)
  }

  /** What a transaction does to a field of an address: it pays the recipient, charges the sender value and fee, counts
      for both, and books what a forging block awards. */
  function Effect(tx: Tx, isForging: bool, a: Address, f: Field): int
  {
    match f
    case Money => If(Charged(tx) && tx.to == a, tx.value) - If(Charged(tx) && tx.from == a, tx.value + Fee(tx))
    case Received => If(Counted(tx) && tx.to == a, 1)
    case Sent => If(Counted(tx) && tx.from == a, 1)
    case Transactions => If(Counted(tx) && (tx.to == a || tx.from == a), 1)
    case Forged => If(Counted(tx) && isForging && tx.to == a, tx.value)
    case ForgedOps => If(Counted(tx) && isForging && tx.to == a, 1)
    case DelegateOps => If(Counted(tx) && tx.delegate.Some? && (tx.to == a || tx.from == a), 1)
    case _ =>
      if tx.tokenInfo.Some? && Successful(tx) && BdString(tx.to) == f.token
        then TokenEffect(tx, tx.tokenInfo.value, a, f)
      else 0
  }

  // ----- one entry -----

  predicate Concerns(tx: Tx, ok: bool, token: Data) { ok && tx.tokenInfo.Some? && BdString(tx.to) == token }

  /** How much an entry moves a field. */
  function EntryChange(e: Entry, f: Field): int
  {
    match e
    case Plain(tx, address, change, forging) =>
      (match f
       case Money =>
         If(tx.to == address && change, tx.value) - If(tx.from == address && change, Wrap(tx.value + tx.RealFee()))
       case Received => If(tx.to == address, 1)
       case Sent => If(tx.from == address, 1)
       case Transactions => 1
       case Forged => If(forging && tx.to == address, tx.value)
       case ForgedOps => If(forging && tx.to == address, 1)
       case _ => 0)
    case WithDelegate(_, _, _, _) => If(f.DelegateOps?, 1)
    case TokensAdded(tx, value, ok) =>
      if OfToken(f) && Concerns(tx, ok, f.token) then (if f.Holding? then value else If(!f.TokenSent?, 1)) else 0
    case TokensMoved(tx, address, to, value, ok) =>
      if !OfToken(f) || !Concerns(tx, ok, f.token) then 0
      else if f.Holding? then If(to == address, value) - If(tx.from == address, value)
      else if f.TokenReceived? then If(to == address, 1)
      else if f.TokenSent? then If(tx.from == address, 1)
      else 1
  }

  lemma MoneyEntry(b: Balance, e: Entry)
    requires Applies(e)
    ensures Value(Apply(b, e), Money) == Wrap(Value(b, Money) + EntryChange(e, Money))
  {
    hide Wrap; hide Apply; hide Tx.RealFee; hide Measure; hide CalcBalanceWithoutDelegate;
    EntryMeasure(b, e, Worth);
    WorthIsBalance(b);
    WorthIsBalance(Apply(b, e));
  }

  lemma HoldingEntry(b: Balance, e: Entry, token: Data)
    requires e.TokensAdded? || e.TokensMoved?
    ensures Value(Apply(b, e), Holding(token)) == Wrap(Value(b, Holding(token)) + EntryChange(e, Holding(token)))
  {
    hide Wrap; hide Element.Net; hide Element.Spend; hide Element.Receive; hide BdString;
    var t := TokenOf(b, token).balance;
    WrapOfU64(t.Net());
    if e.TokensAdded? {
      ElementNet(t, e.value);
    } else {
      ElementNet(t, e.value);
      ElementNet(t.Spend(e.value), e.value);
      AddWraps(t.Net(), 0 - e.value, e.value);
    }
  }

  lemma TokenCountEntry(b: Balance, e: Entry, f: Field)
    requires OfToken(f) && !f.Holding? && (e.TokensAdded? || e.TokensMoved?)
    ensures Value(Apply(b, e), f) == Wrap(Value(b, f) + EntryChange(e, f))
  {
    hide Wrap; hide Element.Net; hide Element.Spend; hide Element.Receive; hide BdString;
    WrapOfU64(Value(b, f));
  }

  lemma TokenEntry(b: Balance, e: Entry, f: Field)
    requires OfToken(f) && Applies(e)
    ensures Value(Apply(b, e), f) == Wrap(Value(b, f) + EntryChange(e, f))
  {
    if e.Plain? || e.WithDelegate? {
      hide Wrap; hide Element.Net; hide Element.Spend; hide Element.Receive; hide Tx.RealFee; hide BdString;
      WrapOfU64(Value(b, f));
    } else {
      hide *;
      if f.Holding? { HoldingEntry(b, e, f.token); } else { TokenCountEntry(b, e, f); }
    }
  }

  lemma CountEntry(b: Balance, e: Entry, f: Field)
    requires !OfToken(f) && !f.Money? && Applies(e)
    ensures Value(Apply(b, e), f) == Wrap(Value(b, f) + EntryChange(e, f))
  {
    hide Wrap; hide Element.Net; hide Element.Spend; hide Element.Receive; hide Tx.RealFee; hide BdString;
    WrapOfU64(Value(b, f));
  }

  lemma EntryField(b: Balance, e: Entry, f: Field)
    requires Applies(e)
    ensures Value(Apply(b, e), f) == Wrap(Value(b, f) + EntryChange(e, f))
  {
    hide Wrap; hide Value; hide Apply; hide EntryChange; hide Applies;
    if f.Money? {
      MoneyEntry(b, e);
    } else if OfToken(f) {
      TokenEntry(b, e, f);
    } else {
      CountEntry(b, e, f);
    }
  }

  lemma PlusField(a: Balance, b: Balance, f: Field)
    ensures Value(Plus(a, b), f) == Wrap(Value(a, f) + Value(b, f))
  {
    hide Wrap; hide Element.Net; hide MergeElement; hide MergeDelegateElement; hide CalcBalanceWithoutDelegate;
    WrapOfU64(Value(a, f));
    if f.Money? {
      PlusMeasure(a, b, Worth);
      WorthIsBalance(a);
      WorthIsBalance(b);
      WorthIsBalance(Plus(a, b));
    } else if OfToken(f) {
      BA.ZeroNet();
      WrapOfU64(Value(b, f));
      if f.token in b.tokens { BA.MergeElementNet(TokenOf(a, f.token).balance, b.tokens[f.token].balance); }
    }
  }

  lemma EmptyField(f: Field)
    ensures Value(EMPTY, f) == 0
  {
  }

  // ----- lists of actions -----

  function ActionChange(a: Action, bd: Data, f: Field): int
  {
    if a.Post? && a.bdAddress == bd then EntryChange(a.entry, f) else 0
  }

  function ActionsChange(actions: seq<Action>, bd: Data, f: Field): int
    decreases actions
  {
    if actions == [] then 0 else ActionChange(actions[0], bd, f) + ActionsChange(actions[1..], bd, f)
  }

  lemma {:induction false} ActionsConcat(s: seq<Action>, t: seq<Action>, bd: Data, f: Field)
    ensures ActionsChange(s + t, bd, f) == ActionsChange(s, bd, f) + ActionsChange(t, bd, f)
    decreases s
  {
    hide ActionChange;
    if s == [] {
      assert s + t == t;
    } else {
      assert (s + t)[1..] == s[1..] + t;
      ActionsConcat(s[1..], t, bd, f);
    }
  }

  lemma {:induction false} ActionsNone(actions: seq<Action>, bd: Data, f: Field)
    requires forall a :: a in actions ==> ActionChange(a, bd, f) == 0
    ensures ActionsChange(actions, bd, f) == 0
    decreases actions
  {
    hide ActionChange;
    if actions != [] {
      assert actions[0] in actions;
      ActionsNone(actions[1..], bd, f);
    }
  }

  lemma PerformField(w: Work, tx: Tx, a: Action, bd: Data, f: Field)
    requires !Perform(w, tx, a).thrown
    ensures Value(BalanceOf(Perform(w, tx, a).balances, bd), f) ==
            Wrap(Value(BalanceOf(w.balances, bd), f) + ActionChange(a, bd, f))
  {
    hide Wrap; hide Value; hide Apply; hide Applies; hide EntryChange; hide HistoryKey; hide SerAddressInfo;
    WrapOfU64(Value(BalanceOf(w.balances, bd), f));
    if a.Post? { EntryField(BalanceOf(w.balances, a.bdAddress), a.entry, f); }
  }

  lemma {:induction false} PerformAllField(w: Work, tx: Tx, actions: seq<Action>, bd: Data, f: Field)
    requires !PerformAll(w, tx, actions).thrown
    ensures Value(BalanceOf(PerformAll(w, tx, actions).balances, bd), f) ==
            Wrap(Value(BalanceOf(w.balances, bd), f) + ActionsChange(actions, bd, f))
    decreases actions
  {
    hide Wrap; hide Value; hide Perform; hide ActionChange; hide BalanceOf;
    var n := Value(BalanceOf(w.balances, bd), f);
    if actions == [] {
      WrapOfU64(n);
    } else {
      var w1 := Perform(w, tx, actions[0]);
      PerformAllField(w1, tx, actions[1..], bd, f);
      PerformAllMeasure(w1, tx, actions[1..], bd, Worth);
      PerformField(w, tx, actions[0], bd, f);
      AddWraps(n, ActionChange(actions[0], bd, f), ActionsChange(actions[1..], bd, f));
    }
  }

  lemma OnePost(a: Action, bd: Data, f: Field)
    ensures ActionsChange([a], bd, f) == ActionChange(a, bd, f)
  {
    assert [a][1..] == [];
  }

  // ----- the entries for the two addresses -----

  /** What the entries for one of the two addresses do to its fields. */
  function SideEffect(tx: Tx, isForging: bool, a: Address, f: Field): int
  {
    match f
    case Money =>
      If(Charged(tx) && tx.to == a, tx.value) - If(Charged(tx) && tx.from == a, Wrap(tx.value + Fee(tx)))
    case Received => If(Counted(tx) && tx.to == a, 1)
    case Sent => If(Counted(tx) && tx.from == a, 1)
    case Transactions => If(Counted(tx), 1)
    case Forged => If(Counted(tx) && isForging && tx.to == a, tx.value)
    case ForgedOps => If(Counted(tx) && isForging && tx.to == a, 1)
    case DelegateOps => If(Counted(tx) && tx.delegate.Some?, 1)
    case _ => 0
  }

  lemma PlainSide(tx: Tx, isForging: bool, a: Address, f: Field)
    requires Counted(tx)
    ensures EntryChange(Plain(tx, a, !tx.IsNoBalance(), isForging), f) ==
            if f.DelegateOps? then 0 else SideEffect(tx, isForging, a, f)
  {
    hide Tx.RealFee; hide Wrap; hide Fee;
    FeeIs(tx);
  }

  /** The entries for an address after its history row. */
  function SidePosts(tx: Tx, a: Address, status: TxStatus, isForging: bool): seq<Action>
  {
    [Post(a, Plain(tx, a, !tx.IsNoBalance(), isForging))] +
    if status == NoStatus then []
    else
      [Post(a, WithDelegate(tx, a, if status.UnDelegating? then Some(status.value) else None,
        status.Delegating? ==> status.isSuccess))]
  }

  lemma PostsSide(tx: Tx, status: TxStatus, isForging: bool, a: Address, f: Field)
    requires S.StatusFits(tx, status) && Counted(tx)
    ensures ActionsChange(SidePosts(tx, a, status, isForging), a, f) == SideEffect(tx, isForging, a, f)
  {
    PlainSide(tx, isForging, a, f);
    var posts := SidePosts(tx, a, status, isForging);
    ActionsConcat(posts[..1], posts[1..], a, f);
    OnePost(posts[0], a, f);
    if status != NoStatus { OnePost(posts[1], a, f); }
    PostsSum(tx, status, isForging, a, f, posts);
  }

  lemma PostsSum(tx: Tx, status: TxStatus, isForging: bool, a: Address, f: Field, posts: seq<Action>)
    requires S.StatusFits(tx, status) && Counted(tx) && posts == SidePosts(tx, a, status, isForging)
    requires EntryChange(Plain(tx, a, !tx.IsNoBalance(), isForging), f) ==
             if f.DelegateOps? then 0 else SideEffect(tx, isForging, a, f)
    ensures ActionChange(posts[0], a, f) + (if status == NoStatus then 0 else ActionChange(posts[1], a, f)) ==
            SideEffect(tx, isForging, a, f)
    ensures posts == posts[..1] + posts[1..] && posts[..1] == [posts[0]]
    ensures if status == NoStatus then posts[1..] == [] else posts[1..] == [posts[1]]
  {
    hide Tx.RealFee; hide Wrap; hide Fee;
  }

  lemma OwnSide(tx: Tx, status: TxStatus, m: Modules, isForging: bool, a: Address, f: Field)
    requires m.balance && S.StatusFits(tx, status) && a != []
    ensures ActionsChange(AddressActions(tx, a, status, m, isForging), a, f) == SideEffect(tx, isForging, a, f)
  {
    if Counted(tx) {
      hide S.StatusFits; hide SideEffect; hide EntryChange;
      var rows := if m.addrTxs then [Row(ADDRESS_PREFIX, a)] else [];
      assert AddressActions(tx, a, status, m, isForging) == rows + SidePosts(tx, a, status, isForging);
      ActionsNone(rows, a, f);
      ActionsConcat(rows, SidePosts(tx, a, status, isForging), a, f);
      PostsSide(tx, status, isForging, a, f);
    } else {
      ActionsNone(AddressActions(tx, a, status, m, isForging), a, f);
    }
  }

  lemma OtherSide(tx: Tx, status: TxStatus, m: Modules, isForging: bool, a: Address, other: Address, f: Field)
    requires a != other
    ensures ActionsChange(AddressActions(tx, other, status, m, isForging), a, f) == 0
  {
    ActionsNone(AddressActions(tx, other, status, m, isForging), a, f);
  }

  lemma SidesEffect(tx: Tx, status: TxStatus, m: Modules, isForging: bool, a: Address, f: Field)
    requires m.balance && S.StatusFits(tx, status) && a != [] && !OfToken(f)
    ensures Wrap(ActionsChange(AddressActions(tx, tx.from, status, m, isForging), a, f) +
                 If(tx.from != tx.to, ActionsChange(AddressActions(tx, tx.to, status, m, isForging), a, f))) ==
            Wrap(Effect(tx, isForging, a, f))
  {
    hide AddressActions; hide ActionsChange; hide Wrap; hide Fee;
    if tx.from == a {
      OwnSide(tx, status, m, isForging, a, f);
    } else {
      OtherSide(tx, status, m, isForging, a, tx.from, f);
    }
    if tx.to == a {
      OwnSide(tx, status, m, isForging, a, f);
    } else {
      OtherSide(tx, status, m, isForging, a, tx.to, f);
    }
    AddWraps(tx.value, 0, 0);
    AddWraps(0, 0, 0);
    ChargeWraps(If(Charged(tx) && tx.to == a, tx.value), tx.value + Fee(tx));
  }

  lemma ChargeWraps(paid: int, charge: int)
    ensures Wrap(paid - Wrap(charge)) == Wrap(paid - charge)
  {
    hide Wrap;
    AddWraps(paid, charge, 0);
    WrapAdd(paid, 0 - Wrap(charge));
    WrapAdd(paid, 0 - charge);
  }

  lemma SidesNoToken(tx: Tx, status: TxStatus, m: Modules, isForging: bool, address: Address, bd: Data, f: Field)
    requires OfToken(f)
    ensures ActionsChange(AddressActions(tx, address, status, m, isForging), bd, f) == 0
  {
    ActionsNone(AddressActions(tx, address, status, m, isForging), bd, f);
  }

  // ----- the entries of a token transaction -----

  lemma {:induction false} RestIs(value: u64, begin: seq<(Address, u64)>)
    ensures Rest(value, begin) == Wrap(value - Shares(begin))
    decreases begin
  {
    hide Wrap;
    WrapOfU64(value);
    if begin != [] {
      var first: int := begin[0].1;
      RestIs(Wrap(value - first), begin[1..]);
      AddWraps(value, 0 - first, 0 - Shares(begin[1..]));
    }
  }

  function SharePosts(tx: Tx, begin: seq<(Address, u64)>, ok: bool): seq<Action>
  {
    seq(|begin|, i requires 0 <= i < |begin| => Post(BdString(begin[i].0), TokensAdded(tx, begin[i].1, ok)))
  }

  lemma {:induction false} SharePostsChange(tx: Tx, begin: seq<(Address, u64)>, ok: bool, bd: Data, f: Field)
    requires OfToken(f)
    ensures ActionsChange(SharePosts(tx, begin, ok), bd, f) ==
            if !Concerns(tx, ok, f.token) then 0
            else if f.Holding? then SharesOf(begin, bd)
            else If(!f.TokenSent?, SharesAt(begin, bd))
    decreases begin
  {
    hide Concerns; hide BdString;
    if begin != [] {
      assert SharePosts(tx, begin, ok)[1..] == SharePosts(tx, begin[1..], ok);
      SharePostsChange(tx, begin[1..], ok, bd, f);
    }
  }

  lemma CreatePosts(tx: Tx, info: TokenInfo, bd: Data, f: Field)
    requires tx.tokenInfo == Some(info) && info.Create? && OfToken(f)
    ensures Wrap(ActionsChange(TokenPosts(tx, info), bd, f)) ==
            Wrap(if Concerns(tx, !tx.IsNotSuccess(), f.token) then TokenEffect(tx, info, bd, f) else 0)
  {
    hide Wrap; hide BdString;
    var Create(owner, value, begin) := info;
    var ok := !tx.IsNotSuccess();
    var shares, rest := SharePosts(tx, begin, ok), Post(BdString(owner), TokensAdded(tx, Rest(value, begin), ok));
    ActionsConcat(shares, [rest], bd, f);
    SharePostsChange(tx, begin, ok, bd, f);
    OnePost(rest, bd, f);
    RestIs(value, begin);
    AddWrapRight(SharesOf(begin, bd), value - Shares(begin));
  }

  lemma MovePosts(tx: Tx, info: TokenInfo, bd: Data, f: Field)
    requires tx.tokenInfo == Some(info) && info.MoveTokens? && OfToken(f)
    ensures ActionsChange(TokenPosts(tx, info), bd, f) ==
            if Concerns(tx, !tx.IsNotSuccess(), f.token) then TokenEffect(tx, info, bd, f) else 0
  {
    hide Wrap; hide Concerns;
    var MoveTokens(to, value) := info;
    var ok := !tx.IsNotSuccess();
    var a := Post(BdString(to), TokensMoved(tx, to, to, value, ok));
    var b := Post(BdString(tx.from), TokensMoved(tx, tx.from, to, value, ok));
    OnePost(a, bd, f);
    OnePost(b, bd, f);
    ActionsConcat([a], [b], bd, f);
    assert [a] + [] == [a];
  }

  lemma TokenPostsEffect(tx: Tx, info: TokenInfo, bd: Data, f: Field)
    requires tx.tokenInfo == Some(info) && OfToken(f)
    ensures Wrap(ActionsChange(TokenPosts(tx, info), bd, f)) ==
            Wrap(if Concerns(tx, !tx.IsNotSuccess(), f.token) then TokenEffect(tx, info, bd, f) else 0)
  {
    hide Wrap;
    var ok := !tx.IsNotSuccess();
    match info
    case Create(_, _, _) => CreatePosts(tx, info, bd, f);
    case AddTokens(to, value) => OnePost(Post(BdString(to), TokensAdded(tx, value, ok)), bd, f);
    case MoveTokens(_, _) => MovePosts(tx, info, bd, f);
    case BurnTokens(value) =>
      OnePost(Post(BdString(tx.from), TokensMoved(tx, tx.from, ZeroAddress(), value, ok)), bd, f);
    case ChangeOwner(_) =>
    case ChangeEmission =>
  }

  lemma TokenPostsElse(tx: Tx, info: TokenInfo, bd: Data, f: Field)
    requires !OfToken(f)
    ensures ActionsChange(TokenPosts(tx, info), bd, f) == 0
  {
    ActionsNone(TokenPosts(tx, info), bd, f);
  }

  lemma RowsNone(tx: Tx, m: Modules, bd: Data, f: Field)
    ensures ActionsChange(TxRows(tx, m), bd, f) == 0
  {
    ActionsNone(TxRows(tx, m), bd, f);
  }

  lemma ActionsParts(tx: Tx, status: TxStatus, m: Modules, isForging: bool, bd: Data, f: Field)
    requires m.balance
    ensures ActionsChange(ActionsOf(tx, status, m, isForging), bd, f) ==
            ActionsChange(AddressActions(tx, tx.from, status, m, isForging), bd, f) +
            If(tx.from != tx.to, ActionsChange(AddressActions(tx, tx.to, status, m, isForging), bd, f)) +
            if tx.tokenInfo.Some? then ActionsChange(TokenPosts(tx, tx.tokenInfo.value), bd, f) else 0
  {
    hide AddressActions; hide TxRows; hide TokenPosts; hide ActionChange;
    var x := AddressActions(tx, tx.from, status, m, isForging);
    var y := if tx.from != tx.to then AddressActions(tx, tx.to, status, m, isForging) else [];
    var t := TxRows(tx, m);
    var p := if m.balance && tx.tokenInfo.Some? then TokenPosts(tx, tx.tokenInfo.value) else [];
    ActionsConcat(x, y + (t + p), bd, f);
    ActionsConcat(y, t + p, bd, f);
    ActionsConcat(t, p, bd, f);
    RowsNone(tx, m, bd, f);
  }

  /** All entries of a transaction together have its effect, for every address and field, modulo 2^64. */
  lemma TxEffect(tx: Tx, status: TxStatus, m: Modules, isForging: bool, a: Address, f: Field)
    requires m.balance && S.StatusFits(tx, status) && HasRecord(a, f)
    ensures Wrap(ActionsChange(ActionsOf(tx, status, m, isForging), a, f)) == Wrap(Effect(tx, isForging, a, f))
  {
    hide AddressActions; hide TokenPosts; hide ActionsOf; hide ActionsChange; hide TokenEffect; hide Wrap; hide Fee;
    hide S.StatusFits; hide BdString;
    ActionsParts(tx, status, m, isForging, a, f);
    if OfToken(f) {
      SidesNoToken(tx, status, m, isForging, tx.from, a, f);
      SidesNoToken(tx, status, m, isForging, tx.to, a, f);
      if tx.tokenInfo.Some? { TokenPostsEffect(tx, tx.tokenInfo.value, a, f); }
    } else {
      if tx.tokenInfo.Some? { TokenPostsElse(tx, tx.tokenInfo.value, a, f); }
      SidesEffect(tx, status, m, isForging, a, f);
    }
  }
}
