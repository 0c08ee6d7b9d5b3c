/** The records of src/blockchain_structs/TransactionInfo.cpp: where a transaction stands, and what became of it. */
module TransactionRecords {
  import opened Bytes
  import opened Serialize
  import opened Records

  // ----- the position of a transaction -----

  datatype TransactionPlace = TransactionPlace(filePos: FilePosition, blockNumber: u64, blockIndex: u64)

  function SerPlace(t: TransactionPlace): Data { SerFilePosition(t.filePos) + SerInts([t.blockNumber, t.blockIndex]) }

  function ReadPlace(raw: Data, from: nat): Cursor<TransactionPlace>
  {
    var (filePos, p) :- ReadFilePosition(raw, from);
    var (ns, q) :- ReadInts(raw, p, 2);
    Returned((TransactionPlace(filePos, ns[0], ns[1]), q))
  }

  /** Read back wherever it stands, the cursor ends behind it. */
  lemma ReadPlaceAt(raw: Data, from: nat, t: TransactionPlace)
    requires |t.filePos.fileName| < TWO_64 && At(raw, from, SerPlace(t))
    ensures ReadPlace(raw, from) == Returned((t, from + |SerPlace(t)|))
  {
    hide SerFilePosition; hide ReadFilePosition; hide SerInts; hide ReadInts; hide At;
    var f, ns := SerFilePosition(t.filePos), [t.blockNumber, t.blockIndex];
    AtSplit(raw, from, f, SerInts(ns));
    ReadFilePositionAt(raw, from, t.filePos);
    ReadIntsAt(raw, from + |f|, ns);
  }

  // ----- the status of a transaction: a variant, tagged with its index -----

  datatype Outcome =
    | NotSet
    | Delegated
    | UnDelegated(value: u64, delegateHash: Data)
    | Script(isServerError: bool, isScriptError: bool, contract: Data)

  datatype Status = Status(isSuccess: bool, blockNumber: u64, transaction: Data, outcome: Outcome)

  predicate StatusFits(s: Status)
  {
    |s.transaction| < TWO_64 && (s.outcome.UnDelegated? ==> |s.outcome.delegateHash| < TWO_64) &&
      (s.outcome.Script? ==> |s.outcome.contract| < TWO_64)
  }

  function Flag(b: bool): byte { if b then 1 else 0 }

  function SerOutcome(o: Outcome): Data
  {
    match o
    case NotSet => SerInt(0)
    case Delegated => SerInt(1)
    case UnDelegated(value, hash) => SerInt(2) + (SerInt(value) + SerString(hash))
    case Script(server, script, contract) =>
      SerInt(3) + (SerTag(Flag(server)) + (SerTag(Flag(script)) + SerString(contract)))
  }

  function ReadOutcome(raw: Data, from: nat): Cursor<Outcome>
  {
    var (tag, p) :- ReadInt(raw, from);
    if tag == 0 then Returned((NotSet, p))
    else if tag == 1 then Returned((Delegated, p))
    else if tag == 2 then
      var (value, q) :- ReadInt(raw, p);
      var (hash, r) :- ReadString(raw, q);
      Returned((UnDelegated(value, hash), r))
    else if tag == 3 then
      var (server, q) :- ReadTag(raw, p);
      var (script, r) :- ReadTag(raw, q);
      var (contract, t) :- ReadString(raw, r);
      Returned((Script(server != 0, script != 0, contract), t))
    else Thrown
  }

  lemma ReadOutcomeAt(raw: Data, from: nat, o: Outcome)
    requires (o.UnDelegated? ==> |o.delegateHash| < TWO_64) && (o.Script? ==> |o.contract| < TWO_64)
    requires At(raw, from, SerOutcome(o))
    ensures ReadOutcome(raw, from) == Returned((o, from + |SerOutcome(o)|))
  {
    hide SerInt; hide ReadInt; hide SerTag; hide ReadTag; hide SerString; hide ReadString; hide At;
    match o
    case NotSet => ReadIntAt(raw, from, 0);
    case Delegated => ReadIntAt(raw, from, 1);
    case UnDelegated(value, hash) =>
      AtSplit(raw, from, SerInt(2), SerInt(value) + SerString(hash));
      AtSplit(raw, from + 8, SerInt(value), SerString(hash));
      ReadIntAt(raw, from, 2);
      ReadIntAt(raw, from + 8, value);
      ReadStringAt(raw, from + 16, hash);
    case Script(server, script, contract) =>
      AtSplit(raw, from, SerInt(3), SerTag(Flag(server)) + (SerTag(Flag(script)) + SerString(contract)));
      AtSplit(raw, from + 8, SerTag(Flag(server)), SerTag(Flag(script)) + SerString(contract));
      AtSplit(raw, from + 9, SerTag(Flag(script)), SerString(contract));
      ReadIntAt(raw, from, 3);
      ReadTagAt(raw, from + 8, Flag(server));
      ReadTagAt(raw, from + 9, Flag(script));
      ReadStringAt(raw, from + 10, contract);
  }

  function SerStatus(s: Status): Data
  {
    SerTag(Flag(s.isSuccess)) + (SerInt(s.blockNumber) + (SerString(s.transaction) + SerOutcome(s.outcome)))
  }

  function DeserStatus(raw: Data): Result<Status>
  {
    var (success, p) :- ReadTag(raw, 0);
    var (blockNumber, q) :- ReadInt(raw, p);
    var (transaction, r) :- ReadString(raw, q);
    var (outcome, _) :- ReadOutcome(raw, r);
    if outcome.NotSet? then Thrown else Returned(Status(success != 0, blockNumber, transaction, outcome))
  }

  /** Exactly the records that may be written are read back. */
  lemma StatusRoundTrip(s: Status)
    requires StatusFits(s)
    ensures DeserStatus(SerStatus(s)) == if s.outcome.NotSet? then Thrown else Returned(s)
  {
    hide SerInt; hide ReadInt; hide SerTag; hide ReadTag; hide SerString; hide ReadString; hide At; hide SerOutcome;
    hide ReadOutcome;
    var raw := SerStatus(s);
    var flag, number, hash, outcome := SerTag(Flag(s.isSuccess)), SerInt(s.blockNumber), SerString(s.transaction),
      SerOutcome(s.outcome);
    AtStart(raw);
    AtSplit(raw, 0, flag, number + (hash + outcome));
    AtSplit(raw, 1, number, hash + outcome);
    AtSplit(raw, 9, hash, outcome);
    ReadTagAt(raw, 0, Flag(s.isSuccess));
    ReadIntAt(raw, 1, s.blockNumber);
    ReadStringAt(raw, 9, s.transaction);
    ReadOutcomeAt(raw, 9 + |hash|, s.outcome);
  }
}
