/** The record codecs: each writer, its reader, and the round trip between them. A record whose writer
    checks that a field is set is written only when it is `Writable`. */
module Records {
  import opened Bytes
  import opened Serialize

  // ----- DelegateState -----

  /** A delegated amount and the hash of the delegating transaction; the default has no hash. */
  datatype DelegateState = DelegateState(value: u64, hash: Data)

  const NO_STATE := DelegateState(0, [])

  function SerDelegateState(d: DelegateState): Data
  {
    SerInt(d.value) + SerString(d.hash)
  }

  function DeserDelegateState(raw: Data): Result<DelegateState>
  {
    if raw == [] then Returned(NO_STATE)
    else
      var (value, p) :- ReadInt(raw, 0);
      var (hash, _) :- ReadString(raw, p);
      Returned(DelegateState(value, hash))
  }

  lemma DelegateStateRoundTrip(d: DelegateState)
    requires |d.hash| < TWO_64
    ensures DeserDelegateState(SerDelegateState(d)) == Returned(d)
  {
    hide SerInt; hide SerString; hide ReadInt; hide ReadString; hide At;
    var raw := SerDelegateState(d);
    AtStart(raw);
    AtSplit(raw, 0, SerInt(d.value), SerString(d.hash));
    ReadIntAt(raw, 0, d.value);
    ReadStringAt(raw, 8, d.hash);
  }

  // ----- MainBlockInfo -----

  datatype MainBlockInfo = MainBlockInfo(blockNumber: u64, blockHash: Data, countVal: u64)

  const NO_MAIN_BLOCK := MainBlockInfo(0, [], 0)

  predicate MainBlockWritable(m: MainBlockInfo)
  {
    m.blockHash != [] && m.blockNumber != 0
  }

  function SerMainBlock(m: MainBlockInfo): Data
  {
    SerString(m.blockHash) + SerInts([m.blockNumber, m.countVal])
  }

  function DeserMainBlock(raw: Data): Result<MainBlockInfo>
  {
    if raw == [] then Returned(NO_MAIN_BLOCK)
    else
      var (hash, p) :- ReadString(raw, 0);
      var (ns, _) :- ReadInts(raw, p, 2);
      Returned(MainBlockInfo(ns[0], hash, ns[1]))
  }

  lemma MainBlockRoundTrip(m: MainBlockInfo)
    requires |m.blockHash| < TWO_64
    ensures DeserMainBlock(SerMainBlock(m)) == Returned(m)
  {
    hide SerString; hide ReadString; hide SerInts; hide ReadInts; hide At;
    var raw := SerMainBlock(m);
    var ns := [m.blockNumber, m.countVal];
    AtStart(raw);
    AtSplit(raw, 0, SerString(m.blockHash), SerInts(ns));
    ReadStringAt(raw, 0, m.blockHash);
    ReadIntsAt(raw, 8 + |m.blockHash|, ns);
  }

  // ----- FilePosition -----

  datatype FilePosition = FilePosition(fileName: Data, pos: u64)

  function SerFilePosition(f: FilePosition): (r: Data)
    ensures |r| == 16 + |f.fileName|
  {
    SerString(f.fileName) + SerInt(f.pos)
  }

  function ReadFilePosition(raw: Data, from: nat): Cursor<FilePosition>
  {
    var (name, p) :- ReadString(raw, from);
    var (pos, q) :- ReadInt(raw, p);
    Returned((FilePosition(name, pos), q))
  }

  lemma ReadFilePositionAt(raw: Data, from: nat, f: FilePosition)
    requires |f.fileName| < TWO_64 && At(raw, from, SerFilePosition(f))
    ensures ReadFilePosition(raw, from) == Returned((f, from + |SerFilePosition(f)|))
  {
    hide SerInt; hide SerString; hide ReadInt; hide ReadString; hide At;
    AtSplit(raw, from, SerString(f.fileName), SerInt(f.pos));
    ReadStringAt(raw, from, f.fileName);
    ReadIntAt(raw, from + 8 + |f.fileName|, f.pos);
  }

  // ----- AddressInfo: a trailing field that is there or not -----

  datatype AddressInfo = AddressInfo(filePos: FilePosition, blockNumber: u64, blockIndex: u64,
                                     undelegateValue: Option<u64>)

  predicate AddressWritable(a: AddressInfo)
  {
    a.blockNumber != 0 && a.filePos.fileName != []
  }

  function SerAddressInfo(a: AddressInfo): Data
  {
    SerFilePosition(a.filePos) +
    (SerInts([a.blockNumber, a.blockIndex]) + if a.undelegateValue.None? then [] else SerInt(a.undelegateValue.value))
  }

  function DeserAddressInfo(raw: Data): Result<AddressInfo>
  {
    var (filePos, p) :- ReadFilePosition(raw, 0);
    var (ns, q) :- ReadInts(raw, p, 2);
    if q < |raw| then
      var (u, _) :- ReadInt(raw, q);
      Returned(AddressInfo(filePos, ns[0], ns[1], Some(u)))
    else Returned(AddressInfo(filePos, ns[0], ns[1], None))
  }

  lemma AddressInfoRoundTrip(a: AddressInfo)
    requires |a.filePos.fileName| < TWO_64
    ensures DeserAddressInfo(SerAddressInfo(a)) == Returned(a)
  {
    hide SerInt; hide ReadInt; hide At; hide SerFilePosition; hide ReadFilePosition; hide SerInts; hide ReadInts;
    var raw := SerAddressInfo(a);
    var head, ns := SerFilePosition(a.filePos), [a.blockNumber, a.blockIndex];
    var tail := if a.undelegateValue.None? then [] else SerInt(a.undelegateValue.value);
    AtStart(raw);
    AtSplit(raw, 0, head, SerInts(ns) + tail);
    ReadFilePositionAt(raw, 0, a.filePos);
    AtSplit(raw, |head|, SerInts(ns), tail);
    ReadIntsAt(raw, |head|, ns);
    assert |raw| == |head| + 16 + |tail|;
    if a.undelegateValue.Some? { ReadIntAt(raw, |head| + 16, a.undelegateValue.value); }
  }
}
