/** The balance record as an object that is updated field by field (src/blockchain_structs/BalanceInfo.cpp), proved
    against the functions on values. */
module BalanceObjects {
  import opened Bytes
  import opened Transaction
  import B = BalanceInfo

  class BalanceElement {
    var received_: u64
    var spent_: u64

    ghost function Value(): B.Element
      reads this
    {
      B.Element(received_, spent_)
    }

    constructor ()
      ensures Value() == B.ZERO
    {
      received_, spent_ := 0, 0;
    }

    method ReceiveValue(value: u64)
      modifies this
      ensures Value() == old(Value()).Receive(value)
    {
      if received_ >= B.MAX - value {
        received_ := Wrap(received_ - spent_);
        spent_ := 0;
      }
      received_ := Wrap(received_ + value);
    }

    method SpentValue(value: u64)
      modifies this
      ensures Value() == old(Value()).Spend(value)
    {
      if spent_ >= B.MAX - value {
        received_ := Wrap(received_ - spent_);
        spent_ := 0;
      }
      spent_ := Wrap(spent_ + value);
    }
  }

  class BalanceInfo {
    var balance: B.Element
    var countReceived: u64
    var countSpent: u64
    var countTxs: u64
    var delegated: Option<B.DelegateBalance>
    var forged: Option<B.ForgedBalance>
    var blockNumber: u64
    var tokenBlockNumber: Option<u64>
    var tokens: map<Data, B.TokenBalance>

    ghost function Value(): B.Balance
      reads this
    {
      B.Balance(balance, countReceived, countSpent, countTxs, delegated, forged, blockNumber, tokenBlockNumber, tokens)
    }

    constructor ()
      ensures Value() == B.EMPTY
    {
      balance, countReceived, countSpent, countTxs := B.ZERO, 0, 0, 0;
      delegated, forged, blockNumber, tokenBlockNumber, tokens := None, None, 0, None, map[];
    }

    /** A failed check leaves the record as it was. */
    method PlusWithDelegate(tx: Tx, address: Address, undelegateValue: Option<u64>, isOkStatus: bool)
      returns (thrown: bool)
      modifies this
      ensures thrown == !B.Applies(B.WithDelegate(tx, address, undelegateValue, isOkStatus))
      ensures thrown ==> Value() == old(Value())
      ensures !thrown ==> Value() == B.PlusWithDelegate(old(Value()), tx, address, undelegateValue, isOkStatus)
    {
      hide Wrap; hide B.Element.Spend; hide B.Element.Receive;
      if tx.delegate.None? { return true; }
      var info := tx.delegate.value;
      var d := B.Or(delegated, B.NO_DELEGATE);
      d := d.(countOp := B.Inc(d.countOp));
      if isOkStatus {
        if tx.from == address {
          if info.isDelegate {
            balance := balance.Spend(info.value);
            d := d.(delegate := d.delegate.Spend(info.value));
          } else {
            if undelegateValue.None? { return true; }
            balance := balance.Receive(undelegateValue.value);
            d := d.(delegate := d.delegate.Receive(undelegateValue.value));
          }
        }
        if tx.to == address {
          if info.isDelegate {
            d := d.(delegated := d.delegated.Receive(info.value));
          } else {
            if undelegateValue.None? { return true; }
            d := d.(delegated := d.delegated.Spend(undelegateValue.value));
          }
        }
      }
      if tx.from == address && info.isDelegate { d := d.(reserved := Wrap(d.reserved - info.value)); }
      delegated := Some(d);
      thrown := false;
    }

    /** The fee of a transaction without a size fails the check; by then the spent counter has moved. */
    method PlusWithoutDelegate(tx: Tx, address: Address, changeBalance: bool, isForging: bool) returns (thrown: bool)
      modifies this
      ensures thrown == !B.Applies(B.Plain(tx, address, changeBalance, isForging))
      ensures thrown ==> Value() == old(Value()).(countSpent := B.Inc(old(Value()).countSpent))
      ensures !thrown ==> Value() == B.PlusWithoutDelegate(old(Value()), tx, address, changeBalance, isForging)
    {
      hide Wrap; hide B.Element.Spend; hide B.Element.Receive; hide Tx.RealFee; hide Value;
      if tx.from == address {
        thrown := Spent(tx, changeBalance);
        if thrown { return; }
      }
      if tx.to == address { Received(tx, changeBalance); }
      Counted();
      if tx.delegate.Some? { Reserve(tx, address); }
      if isForging && tx.to == address { AddForged(tx.value); }
      thrown := false;
    }

    method Spent(tx: Tx, changeBalance: bool) returns (thrown: bool)
      modifies this
      ensures thrown == (changeBalance && tx.sizeRawTx == 0)
      ensures thrown ==> Value() == old(Value()).(countSpent := B.Inc(old(Value()).countSpent))
      ensures !thrown ==>
                var b := old(Value());
                Value() == b.(countSpent := B.Inc(b.countSpent), blockNumber := B.Max(b.blockNumber, tx.blockNumber),
                  balance := if changeBalance then b.balance.Spend(Wrap(tx.value + tx.RealFee())) else b.balance)
    {
      hide Wrap; hide B.Element.Spend; hide Tx.RealFee;
      countSpent := B.Inc(countSpent);
      if changeBalance {
        if tx.sizeRawTx == 0 { return true; }
        balance := balance.Spend(Wrap(tx.value + tx.RealFee()));
      }
      blockNumber := B.Max(blockNumber, tx.blockNumber);
      thrown := false;
    }

    method Received(tx: Tx, changeBalance: bool)
      modifies this
      ensures var b := old(Value());
              Value() == b.(countReceived := B.Inc(b.countReceived),
                blockNumber := B.Max(b.blockNumber, tx.blockNumber),
                balance := if changeBalance then b.balance.Receive(tx.value) else b.balance)
    {
      hide B.Element.Receive;
      countReceived := B.Inc(countReceived);
      if changeBalance { balance := balance.Receive(tx.value); }
      blockNumber := B.Max(blockNumber, tx.blockNumber);
    }

    method Counted()
      modifies this
      ensures Value() == old(Value()).(countTxs := B.Inc(old(Value()).countTxs))
    {
      countTxs := B.Inc(countTxs);
    }

    method Reserve(tx: Tx, address: Address)
      requires tx.delegate.Some?
      modifies this
      ensures var d := B.Or(old(Value()).delegated, B.NO_DELEGATE);
              Value() == old(Value()).(delegated := Some(
                if tx.delegate.value.isDelegate && tx.from == address
                then d.(reserved := Wrap(d.reserved + tx.delegate.value.value)) else d))
    {
      hide Wrap;
      var d := B.Or(delegated, B.NO_DELEGATE);
      if tx.delegate.value.isDelegate && tx.from == address {
        d := d.(reserved := Wrap(d.reserved + tx.delegate.value.value));
      }
      delegated := Some(d);
    }

    method AddForged(value: u64)
      modifies this
      ensures var f := B.Or(old(Value()).forged, B.NO_FORGED);
              Value() == old(Value()).(forged := Some(B.ForgedBalance(Wrap(f.forged + value), B.Inc(f.countOp))))
    {
      hide Wrap;
      var f := B.Or(forged, B.NO_FORGED);
      forged := Some(B.ForgedBalance(Wrap(f.forged + value), B.Inc(f.countOp)));
    }

    /** operator+=: the tokens of the other record are walked in any order. */
    method PlusAssign(second: B.Balance)
      modifies this
      ensures Value() == B.Plus(old(Value()), second)
    {
      hide Wrap; hide B.Element.Spend; hide B.Element.Receive; hide B.MergeToken; hide B.MergeDelegate;
      balance := balance.Receive(second.balance.received);
      countReceived := Wrap(countReceived + second.countReceived);
      balance := balance.Spend(second.balance.spent);
      countSpent := Wrap(countSpent + second.countSpent);
      countTxs := Wrap(countTxs + second.countTxs);
      if second.delegated.Some? {
        delegated := Some(B.MergeDelegate(B.Or(delegated, B.NO_DELEGATE), second.delegated.value));
      }
      if second.forged.Some? {
        var f := B.Or(forged, B.NO_FORGED);
        forged := Some(B.ForgedBalance(Wrap(f.forged + second.forged.value.forged),
          Wrap(f.countOp + second.forged.value.countOp)));
      }
      MergeTokensFrom(second.tokens);
      blockNumber := B.Max(blockNumber, second.blockNumber);
      if second.tokenBlockNumber.Some? && tokenBlockNumber.Some? {
        tokenBlockNumber := Some(B.Max(tokenBlockNumber.value, second.tokenBlockNumber.value));
      } else if second.tokenBlockNumber.Some? {
        tokenBlockNumber := second.tokenBlockNumber;
      }
    }

    method MergeTokensFrom(second: map<Data, B.TokenBalance>)
      modifies this`tokens
      ensures tokens == B.MergeTokens(old(tokens), second)
    {
      hide B.MergeToken;
      ghost var start := tokens;
      var left := second.Keys;
      while left != {}
        invariant left <= second.Keys
        invariant tokens.Keys == start.Keys + (second.Keys - left)
        invariant forall t :: t in tokens ==>
                    tokens[t] == (if t in left || t !in second then start[t]
                      else B.MergeToken(if t in start then start[t] else B.NO_TOKENS, second[t]))
        decreases left
      {
        var token :| token in left;
        var old_ := if token in tokens then tokens[token] else B.NO_TOKENS;
        tokens := tokens[token := B.MergeToken(old_, second[token])];
        left := left - {token};
      }
    }
  }
}
