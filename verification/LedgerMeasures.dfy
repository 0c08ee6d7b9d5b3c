/** The quantities of a balance that the ledger keeps in step with its transactions, and how each entry moves them. */
module LedgerMeasures {
  import opened Bytes
  import opened Store
  import opened Transaction
  import opened BalanceInfo
  import opened Records
  import opened Ledger
  import opened Totals
  import BA = BalanceAgreement

  /** Delegated out: delegate minus undelegate. Delegated in: delegated minus undelegated. Worth:
      calcBalanceWithoutDelegate. */
  datatype Which = DelegatedOut | DelegatedIn | Reserved | Worth

  function Measure(b: Balance, q: Which): u64
  {
    var d := Or(b.delegated, NO_DELEGATE);
    match q
    case DelegatedOut => Wrap(0 - d.delegate.Net())
    case DelegatedIn => d.delegated.Net()
    case Reserved => d.reserved
    case Worth => Wrap(b.balance.Net() - d.delegate.Net())
  }

  /** The worth of a record is what calcBalanceWithoutDelegate gives. */
  lemma WorthIsBalance(b: Balance)
    ensures Measure(b, Worth) == CalcBalanceWithoutDelegate(b)
  {
    hide Wrap;
    var d := Or(b.delegated, NO_DELEGATE);
    WrapAdd(b.balance.received - b.balance.spent, 0 - d.delegate.Net());
    WrapSub(b.balance.received - b.balance.spent, d.delegate.received - d.delegate.spent);
  }

  function Minus(x: int): int { -x }

  /** How much an entry moves a measure. */
  function Change(e: Entry, q: Which): int
    requires Applies(e)
  {
    match e
    case Plain(tx, address, change, _) =>
      if q == Worth then
        (if tx.from == address && change then 0 - Wrap(tx.value + tx.RealFee()) else 0) +
          (if tx.to == address && change then tx.value else 0)
      else if q == Reserved && tx.delegate.Some? && tx.delegate.value.isDelegate && tx.from == address
        then tx.delegate.value.value
      else 0
    case WithDelegate(tx, address, u, ok) =>
      var d := tx.delegate.value;
      (match q
       case DelegatedOut => if ok && tx.from == address then (if d.isDelegate then d.value else Minus(Or(u, 0))) else 0
       case DelegatedIn => if ok && tx.to == address then (if d.isDelegate then d.value else Minus(Or(u, 0))) else 0
       case Reserved => if tx.from == address && d.isDelegate then 0 - d.value else 0
       case Worth => 0)
    case _ => 0
  }

  lemma AddWraps(a: int, b: int, c: int)
    ensures Wrap(Wrap(a + b) + c) == Wrap(a + b + c)
    ensures Wrap(Wrap(a) - Wrap(b)) == Wrap(a - b)
    ensures Wrap(a - Wrap(b)) == Wrap(a - b)
    ensures Wrap(Wrap(a) + b) == Wrap(a + b)
  {
    hide Wrap;
    WrapAdd(a + b, c);
    WrapAdd(a, b);
    WrapAdd(a, 0 - Wrap(b));
    WrapSub(a, b);
  }

  lemma WrapOfU64(a: u64)
    ensures Wrap(a) == a
  {
  }

  /** Merging records adds every measure. */
  lemma PlusMeasure(a: Balance, b: Balance, q: Which)
    ensures Measure(Plus(a, b), q) == Wrap(Measure(a, q) + Measure(b, q))
  {
    hide Wrap; hide Element.Net; hide MergeElement; hide MergeDelegateElement; hide MergeTokens;
    var d, e := Or(a.delegated, NO_DELEGATE), Or(b.delegated, NO_DELEGATE);
    BA.MergeElementNet(a.balance, b.balance);
    BA.MergeElementNet(d.delegate, e.delegate);
    BA.MergeElementNet(d.delegated, e.delegated);
    BA.ZeroNet();
    WrapOfU64(d.delegate.Net());
    WrapOfU64(d.delegated.Net());
    WrapOfU64(d.reserved);
    PlusMeasureSums(a.balance.Net(), d.delegate.Net(), b.balance.Net(), e.delegate.Net());
  }

  lemma PlusMeasureSums(a: u64, x: u64, b: u64, y: u64)
    ensures Wrap(0 - Wrap(x + y)) == Wrap(Wrap(0 - x) + Wrap(0 - y))
    ensures Wrap(Wrap(a + b) - Wrap(x + y)) == Wrap(Wrap(a - x) + Wrap(b - y))
    ensures Wrap(Wrap(a + b) - x) == Wrap(Wrap(a - x) + Wrap(b - 0))
    ensures Wrap(0 - x) == Wrap(Wrap(0 - x) + Wrap(0 - 0))
  {
    hide Wrap;
    WrapSub(0, x + y);
    WrapAdd(0 - x, Wrap(0 - y));
    WrapAdd(0 - x, 0 - y);
    WrapAdd(0 - x, Wrap(0 - 0));
    WrapAdd(0 - x, 0 - 0);
    WrapAdd(a - x, Wrap(b - y));
    WrapAdd(a - x, b - y);
    WrapAdd(a - x, Wrap(b - 0));
    WrapAdd(a - x, b - 0);
    WrapAdd(a + b, 0 - Wrap(x + y));
    WrapSub(a + b, x + y);
    WrapAdd(a + b, 0 - x);
  }

  lemma PlainMeasure(b: Balance, e: Entry, q: Which)
    requires e.Plain? && Applies(e)
    ensures Measure(Apply(b, e), q) == Wrap(Measure(b, q) + Change(e, q))
  {
    hide Wrap; hide Element.Net; hide Element.Spend; hide Element.Receive; hide Tx.RealFee;
    var tx := e.tx;
    var spent := Wrap(tx.value + tx.RealFee());
    var d := Or(b.delegated, NO_DELEGATE);
    WrapOfU64(Measure(b, q));
    if q == Worth {
      var n := b.balance.Net();
      ElementNet(b.balance, spent);
      ElementNet(b.balance, tx.value);
      ElementNet(b.balance.Spend(spent), tx.value);
      AddWraps(n - spent, 0, tx.value);
      AddWraps(n - spent, tx.value, 0 - d.delegate.Net());
      AddWraps(n, 0 - spent, 0 - d.delegate.Net());
      AddWraps(n, tx.value, 0 - d.delegate.Net());
      AddWraps(n - d.delegate.Net(), 0, Change(e, q));
    }
  }

  lemma WithDelegateMeasure(b: Balance, e: Entry, q: Which)
    requires e.WithDelegate? && Applies(e)
    ensures Measure(Apply(b, e), q) == Wrap(Measure(b, q) + Change(e, q))
  {
    hide Wrap; hide Element.Net; hide Element.Spend; hide Element.Receive;
    var WithDelegate(tx, address, u, ok) := e;
    var amount := if tx.delegate.value.isDelegate then tx.delegate.value.value else Or(u, 0);
    var d := Or(b.delegated, NO_DELEGATE);
    var n, x := b.balance.Net(), d.delegate.Net();
    WrapOfU64(Measure(b, q));
    ElementNet(b.balance, amount);
    ElementNet(d.delegate, amount);
    ElementNet(d.delegated, amount);
    match q
    case DelegatedOut =>
      AddWraps(0, x - amount, 0);
      AddWraps(0, x + amount, 0);
      AddWraps(0 - x, 0, amount);
      AddWraps(0 - x, 0, 0 - amount);
    case Worth =>
      AddWraps(n - amount, x - amount, 0);
      AddWraps(n + amount, x + amount, 0);
    case _ =>
  }

  lemma TokensMeasure(b: Balance, e: Entry, q: Which)
    requires e.TokensAdded? || e.TokensMoved?
    ensures Measure(Apply(b, e), q) == Wrap(Measure(b, q) + Change(e, q))
  {
    hide Wrap; hide Element.Net; hide Element.Spend; hide Element.Receive; hide BdString;
    WrapOfU64(Measure(b, q));
  }

  /** Every entry moves every measure by exactly its change, modulo 2^64. */
  lemma EntryMeasure(b: Balance, e: Entry, q: Which)
    requires Applies(e)
    ensures Measure(Apply(b, e), q) == Wrap(Measure(b, q) + Change(e, q))
  {
    hide Measure; hide Apply; hide Change; hide Applies; hide Wrap;
    match e
    case Plain(_, _, _, _) => PlainMeasure(b, e, q);
    case WithDelegate(_, _, _, _) => WithDelegateMeasure(b, e, q);
    case _ => TokensMeasure(b, e, q);
  }

  // ----- lists of actions -----

  function ChangeAt(a: Action, bd: Data, q: Which): int
  {
    if a.Post? && a.bdAddress == bd && Applies(a.entry) then Change(a.entry, q) else 0
  }

  /** What a list of actions does to a measure of one address. */
  function ChangesAt(actions: seq<Action>, bd: Data, q: Which): int
    decreases actions
  {
    if actions == [] then 0 else ChangeAt(actions[0], bd, q) + ChangesAt(actions[1..], bd, q)
  }

  /** What a list of actions does to the worth of everybody together. */
  function WorthOf(a: Action): int
  {
    if a.Post? && Applies(a.entry) then Change(a.entry, Worth) else 0
  }

  function WorthAll(actions: seq<Action>): int
    decreases actions
  {
    if actions == [] then 0 else WorthOf(actions[0]) + WorthAll(actions[1..])
  }

  lemma {:induction false} ChangesConcat(s: seq<Action>, t: seq<Action>, bd: Data, q: Which)
    ensures ChangesAt(s + t, bd, q) == ChangesAt(s, bd, q) + ChangesAt(t, bd, q)
    ensures WorthAll(s + t) == WorthAll(s) + WorthAll(t)
    decreases s
  {
    hide ChangeAt; hide WorthOf;
    if s == [] {
      assert s + t == t;
    } else {
      assert (s + t)[1..] == s[1..] + t;
      ChangesConcat(s[1..], t, bd, q);
    }
  }

  lemma PerformMeasure(w: Work, tx: Tx, a: Action, bd: Data, q: Which)
    requires !Perform(w, tx, a).thrown
    ensures Measure(BalanceOf(Perform(w, tx, a).balances, bd), q) ==
            Wrap(Measure(BalanceOf(w.balances, bd), q) + ChangeAt(a, bd, q))
  {
    hide Wrap; hide Measure; hide Apply; hide Applies; hide Change; hide HistoryKey; hide SerAddressInfo;
    WrapOfU64(Measure(BalanceOf(w.balances, bd), q));
    if a.Post? { EntryMeasure(BalanceOf(w.balances, a.bdAddress), a.entry, q); }
  }

  lemma {:induction false} PerformAllMeasure(w: Work, tx: Tx, actions: seq<Action>, bd: Data, q: Which)
    requires !PerformAll(w, tx, actions).thrown
    ensures !w.thrown
    ensures Measure(BalanceOf(PerformAll(w, tx, actions).balances, bd), q) ==
            Wrap(Measure(BalanceOf(w.balances, bd), q) + ChangesAt(actions, bd, q))
    decreases actions
  {
    hide Wrap; hide Measure; hide Perform; hide ChangeAt; hide BalanceOf;
    var n := Measure(BalanceOf(w.balances, bd), q);
    if actions == [] {
      WrapOfU64(n);
    } else {
      var w1 := Perform(w, tx, actions[0]);
      PerformAllMeasure(w1, tx, actions[1..], bd, q);
      NotThrown(w, tx, actions[0]);
      PerformMeasure(w, tx, actions[0], bd, q);
      AddWraps(n, ChangeAt(actions[0], bd, q), ChangesAt(actions[1..], bd, q));
    }
  }

  lemma NotThrown(w: Work, tx: Tx, a: Action)
    requires !Perform(w, tx, a).thrown
    ensures !w.thrown
  {
  }

  lemma RowsArePlain(tx: Tx, m: Modules)
    ensures forall a :: a in TxRows(tx, m) ==> !a.Post?
  {
    hide TokenRows;
    if tx.tokenInfo.Some? { TokenRowsArePlain(tx, tx.tokenInfo.value); }
  }

  lemma TokenRowsArePlain(tx: Tx, info: TokenInfo)
    ensures forall a :: a in TokenRows(tx, info) ==> !a.Post?
  {
  }

  lemma TokenPostsAre(tx: Tx, info: TokenInfo)
    ensures forall a :: a in TokenPosts(tx, info) ==> a.Post? && (a.entry.TokensAdded? || a.entry.TokensMoved?)
  {
  }

  // ----- everybody together -----

  function Worths(balances: map<Data, Balance>): map<Data, int>
  {
    map bd | bd in balances :: Measure(balances[bd], Worth)
  }

  lemma PerformTotal(w: Work, tx: Tx, a: Action)
    requires !Perform(w, tx, a).thrown
    ensures Wrap(Total(Worths(Perform(w, tx, a).balances))) == Wrap(Total(Worths(w.balances)) + WorthOf(a))
  {
    hide Wrap; hide Measure; hide Apply; hide Applies; hide Change; hide HistoryKey; hide SerAddressInfo; hide Total;
    if a.Post? {
      var bd := a.bdAddress;
      var b, b' := BalanceOf(w.balances, bd), BalanceOf(Perform(w, tx, a).balances, bd);
      EntryMeasure(b, a.entry, Worth);
      EmptyWorth();
      TotalPut(Worths(w.balances), bd, Measure(b', Worth));
      assert Worths(Perform(w, tx, a).balances) == Worths(w.balances)[bd := Measure(b', Worth)];
      var rest := Total(Worths(w.balances)) - Measure(b, Worth);
      AddWrapRight(rest, Measure(b, Worth) + WorthOf(a));
    }
  }

  lemma AddWrapRight(a: int, b: int)
    ensures Wrap(a + Wrap(b)) == Wrap(a + b)
  {
    hide Wrap;
    WrapAdd(a, b);
  }

  lemma EmptyWorth()
    ensures Measure(EMPTY, Worth) == 0
  {
  }

  lemma {:induction false} PerformAllTotal(w: Work, tx: Tx, actions: seq<Action>)
    requires !PerformAll(w, tx, actions).thrown
    ensures Wrap(Total(Worths(PerformAll(w, tx, actions).balances))) ==
            Wrap(Total(Worths(w.balances)) + WorthAll(actions))
    decreases actions
  {
    hide Wrap; hide Worths; hide Perform; hide WorthOf; hide Total; hide Measure; hide ChangesAt; hide BalanceOf;
    if actions != [] {
      var w1 := Perform(w, tx, actions[0]);
      PerformAllTotal(w1, tx, actions[1..]);
      PerformAllMeasure(w1, tx, actions[1..], [], Worth);
      PerformTotal(w, tx, actions[0]);
      AddWraps(Total(Worths(w.balances)) + WorthOf(actions[0]), 0, WorthAll(actions[1..]));
      AddWraps(Total(Worths(w1.balances)), 0, WorthAll(actions[1..]));
    }
  }
}
