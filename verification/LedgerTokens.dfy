/** Tokens of all addresses together: moving conserves them, and only creations, additions and burns change their
    sum. */
module LedgerTokens {
  import opened Bytes
  import opened Store
  import opened Transaction
  import opened Ledger
  import opened LedgerFields
  import opened LedgerTerms
  import opened LedgerAccounts
  import opened Totals
  import M = LedgerMeasures
  import C = LedgerCommit
  import K = LedgerConservation
  import R = LedgerRuns

  // ----- all addresses together -----

  /** The new tokens of a transaction: creations and additions; a burn takes away, a move changes nothing. */
  function Supply(tx: Tx, info: TokenInfo): int
  {
    if info.Create? then info.value
    else if info.AddTokens? then info.value
    else if info.BurnTokens? && tx.from != ZeroAddress() then 0 - info.value
    else 0
  }

  /** The addresses that a token transaction touches lie in the set. */
  predicate Within(tx: Tx, info: TokenInfo, all: set<Data>)
  {
    if info.Create? then
      BdString(info.owner) in all && forall i :: 0 <= i < |info.beginDistribution| ==>
        BdString(info.beginDistribution[i].0) in all
    else if info.AddTokens? then BdString(info.toAddress) in all
    else if info.MoveTokens? then BdString(info.toAddress) in all && BdString(tx.from) in all
    else BdString(tx.from) in all
  }

  ghost function SumOver(all: set<Data>, f: Data -> int): int { Total(map bd | bd in all :: f(bd)) }

  lemma {:induction false} SumAdds(all: set<Data>, f: Data -> int, g: Data -> int, h: Data -> int)
    requires forall bd :: bd in all ==> f(bd) == g(bd) + h(bd)
    ensures SumOver(all, f) == SumOver(all, g) + SumOver(all, h)
    decreases |all|
  {
    if all != {} {
      var bd :| bd in all;
      SumAdds(all - {bd}, f, g, h);
      SumSplit(all, f, bd);
      SumSplit(all, g, bd);
      SumSplit(all, h, bd);
    } else {
      SumNothing(all, f);
      SumNothing(all, g);
      SumNothing(all, h);
    }
  }

  lemma SumSplit(all: set<Data>, f: Data -> int, bd: Data)
    requires bd in all
    ensures SumOver(all, f) == f(bd) + SumOver(all - {bd}, f)
  {
    var m := map x | x in all :: f(x);
    TotalRemove(m, bd);
    assert m - {bd} == map x | x in all - {bd} :: f(x);
  }

  lemma SumNothing(all: set<Data>, f: Data -> int)
    requires all == {}
    ensures SumOver(all, f) == 0
  {
    assert (map x | x in all :: f(x)) == map[];
  }

  lemma {:induction false} SumAt(all: set<Data>, address: Address, value: int)
    requires BdString(address) in all
    ensures SumOver(all, bd => At(address, bd, value)) == value
  {
    var f := bd => At(address, bd, value);
    SumSplit(all, f, BdString(address));
    SumZero(all - {BdString(address)}, f);
  }

  lemma {:induction false} SumZero(all: set<Data>, f: Data -> int)
    requires forall bd :: bd in all ==> f(bd) == 0
    ensures SumOver(all, f) == 0
    decreases |all|
  {
    if all == {} {
      SumNothing(all, f);
    } else {
      var bd :| bd in all;
      SumSplit(all, f, bd);
      SumZero(all - {bd}, f);
    }
  }

  lemma {:induction false} SumShares(all: set<Data>, begin: seq<(Address, u64)>)
    requires forall i :: 0 <= i < |begin| ==> BdString(begin[i].0) in all
    ensures SumOver(all, bd => SharesOf(begin, bd)) == Shares(begin)
    decreases begin
  {
    var f := bd => SharesOf(begin, bd);
    if begin == [] {
      SumZero(all, f);
    } else {
      var g, h := bd => At(begin[0].0, bd, begin[0].1), bd => SharesOf(begin[1..], bd);
      SumAdds(all, f, g, h);
      SumAt(all, begin[0].0, begin[0].1);
      SumShares(all, begin[1..]);
    }
  }

  /** A successful token transaction changes the holdings of all addresses together by exactly its supply: moving
      conserves. */
  lemma SupplyIs(tx: Tx, info: TokenInfo, all: set<Data>)
    requires Within(tx, info, all)
    ensures SumOver(all, bd => Given(tx, info, bd)) == Supply(tx, info)
  {
    hide SumOver; hide At; hide SharesOf; hide Shares;
    var f := bd => Given(tx, info, bd);
    if info.Create? {
      var begin, rest := info.beginDistribution, info.value - Shares(info.beginDistribution);
      SumAdds(all, f, bd => SharesOf(begin, bd), bd => At(info.owner, bd, rest));
      SumShares(all, begin);
      SumAt(all, info.owner, rest);
    } else if info.AddTokens? {
      SumSame(all, f, bd => At(info.toAddress, bd, info.value));
      SumAt(all, info.toAddress, info.value);
    } else if info.MoveTokens? {
      SumAdds(all, bd => At(info.toAddress, bd, info.value), f, bd => At(tx.from, bd, info.value));
      SumAt(all, info.toAddress, info.value);
      SumAt(all, tx.from, info.value);
    } else if info.BurnTokens? && tx.from != ZeroAddress() {
      var none: Data -> int := bd => 0;
      SumAdds(all, none, f, bd => At(tx.from, bd, info.value));
      SumZero(all, none);
      SumAt(all, tx.from, info.value);
    } else {
      SumZero(all, f);
    }
  }

  lemma SumSame(all: set<Data>, f: Data -> int, g: Data -> int)
    requires forall bd :: bd in all ==> f(bd) == g(bd)
    ensures SumOver(all, f) == SumOver(all, g)
  {
    assert (map bd | bd in all :: f(bd)) == (map bd | bd in all :: g(bd));
  }

  // ----- the whole run, all addresses -----

  predicate Succeeds(tx: Tx, token: Data) { tx.tokenInfo.Some? && Successful(tx) && BdString(tx.to) == token }

  function TxsSupply(txs: seq<Tx>, token: Data): int
  {
    if txs == [] then 0
    else
      var tx := txs[|txs| - 1];
      TxsSupply(txs[..|txs| - 1], token) + if Succeeds(tx, token) then Supply(tx, tx.tokenInfo.value) else 0
  }

  predicate TxsWithin(txs: seq<Tx>, token: Data, all: set<Data>)
  {
    forall i :: 0 <= i < |txs| && Succeeds(txs[i], token) ==> Within(txs[i], txs[i].tokenInfo.value, all)
  }

  /** What the committed token transactions of a run created and added less what they burnt. */
  function RunSupply(m: Modules, events: seq<Event>, token: Data): int
  {
    if events == [] then 0
    else
      var before := events[..|events| - 1];
      RunSupply(m, before, token) +
      match events[|events| - 1]
      case Reboot => 0
      case Process(b) => if Commits(Run(FIRST_NODE, m, before), m, b) then TxsSupply(R.LedgerTxs(b), token) else 0
  }

  /** The set holds every address that the run's token transactions touch. */
  predicate RunWithin(events: seq<Event>, token: Data, all: set<Data>)
  {
    forall i :: 0 <= i < |events| && events[i].Process? ==> TxsWithin(R.LedgerTxs(events[i].block), token, all)
  }

  lemma {:induction false} TxsSum(txs: seq<Tx>, isForging: bool, token: Data, all: set<Data>)
    requires TxsWithin(txs, token, all)
    ensures SumOver(all, bd => TxsEffect(txs, isForging, bd, Holding(token))) == TxsSupply(txs, token)
  {
    hide SumOver; hide Given; hide Supply; hide Within;
    var f: Data -> int := bd => TxsEffect(txs, isForging, bd, Holding(token));
    if txs == [] {
      SumZero(all, f);
    } else {
      var front, tx := txs[..|txs| - 1], txs[|txs| - 1];
      TxsSum(front, isForging, token, all);
      var g: Data -> int := bd => TxsEffect(front, isForging, bd, Holding(token));
      var h: Data -> int := bd => Effect(tx, isForging, bd, Holding(token));
      SumAdds(all, f, g, h);
      if Succeeds(tx, token) {
        SupplyIs(tx, tx.tokenInfo.value, all);
        SumSame(all, h, bd => Given(tx, tx.tokenInfo.value, bd));
      } else {
        SumZero(all, h);
      }
    }
  }

  lemma {:induction false} RunSum(m: Modules, events: seq<Event>, token: Data, all: set<Data>)
    requires RunWithin(events, token, all)
    ensures SumOver(all, bd => RunEffect(m, events, bd, Holding(token))) == RunSupply(m, events, token)
    decreases events
  {
    hide SumOver; hide TxsEffect; hide TxsSupply; hide TxsWithin; hide Run; hide Commits; hide R.LedgerTxs;
    var f: Data -> int := bd => RunEffect(m, events, bd, Holding(token));
    if events == [] {
      SumZero(all, f);
    } else {
      var n := |events| - 1;
      var before := events[..n];
      RunSum(m, before, token, all);
      var g: Data -> int := bd => RunEffect(m, before, bd, Holding(token));
      if events[n].Process? && Commits(Run(FIRST_NODE, m, before), m, events[n].block) {
        var b := events[n].block;
        SumAdds(all, f, g, bd => TxsEffect(R.LedgerTxs(b), b.kind.Forging?, bd, Holding(token)));
        TxsSum(R.LedgerTxs(b), b.kind.Forging?, token, all);
      } else {
        SumSame(all, f, g);
      }
    }
  }

  lemma {:induction false} SumWraps(all: set<Data>, f: Data -> int, g: Data -> int)
    requires forall bd :: bd in all ==> f(bd) == Wrap(g(bd))
    ensures Wrap(SumOver(all, f)) == Wrap(SumOver(all, g))
    decreases |all|
  {
    hide Wrap; hide SumOver;
    if all == {} {
      SumNothing(all, f);
      SumNothing(all, g);
    } else {
      var bd :| bd in all;
      SumWraps(all - {bd}, f, g);
      SumSplit(all, f, bd);
      SumSplit(all, g, bd);
      M.AddWraps(g(bd), 0, SumOver(all - {bd}, f));
      K.AddWrapBoth(g(bd), SumOver(all - {bd}, f), SumOver(all - {bd}, g));
    }
  }

  /** Over every run, the holdings of a token by all addresses together are what was created and added less what was
      burnt, modulo 2^64: nothing else creates or destroys tokens. */
  lemma RunConservesTokens(m: Modules, events: seq<Event>, token: Data, all: set<Data>)
    requires m.balance && K.RunShape(m, events) && RunWithin(events, token, all)
    ensures Wrap(SumOver(all, bd => Value(C.Stored(Run(FIRST_NODE, m, events).data, bd), Holding(token)))) ==
            Wrap(RunSupply(m, events, token))
  {
    hide SumOver; hide Wrap; hide Value; hide C.Stored; hide RunEffect; hide Run; hide K.RunShape; hide RunWithin;
    hide RunSupply;
    var f: Data -> int := bd => Value(C.Stored(Run(FIRST_NODE, m, events).data, bd), Holding(token));
    var g: Data -> int := bd => RunEffect(m, events, bd, Holding(token));
    forall bd | bd in all ensures f(bd) == Wrap(g(bd)) { RunAccounts(m, events, bd, Holding(token)); }
    SumWraps(all, f, g);
    RunSum(m, events, token, all);
    SumSame(all, f, bd => Value(C.Stored(Run(FIRST_NODE, m, events).data, bd), Holding(token)));
  }
}
