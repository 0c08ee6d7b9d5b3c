/** Block headers, sign-block headers, chain metadata and timeline elements with their record codecs. */
module Headers {
  import opened Bytes
  import opened Serialize
  import opened Records

  type Hash = Data

  // ----- runs of strings -----

  function SerStrings(ss: seq<Data>): Data
  {
    if ss == [] then [] else SerString(ss[0]) + SerStrings(ss[1..])
  }

  function ReadStrings(raw: Data, from: nat, count: nat): (r: Cursor<seq<Data>>)
    ensures r.Returned? ==> |r.value.0| == count
    decreases count
  {
    if count == 0 then Returned(([], from))
    else
      var (s, p) :- ReadString(raw, from);
      var (ss, q) :- ReadStrings(raw, p, count - 1);
      Returned(([s] + ss, q))
  }

  predicate Fit(ss: seq<Data>) { forall i :: 0 <= i < |ss| ==> |ss[i]| < TWO_64 }

  lemma {:induction false} ReadStringsAt(raw: Data, from: nat, ss: seq<Data>)
    requires Fit(ss) && At(raw, from, SerStrings(ss))
    ensures ReadStrings(raw, from, |ss|) == Returned((ss, from + |SerStrings(ss)|))
    decreases |ss|
  {
    hide SerString; hide ReadString; hide At;
    if ss != [] {
      AtSplit(raw, from, SerString(ss[0]), SerStrings(ss[1..]));
      ReadStringAt(raw, from, ss[0]);
      ReadStringsAt(raw, from + 8 + |ss[0]|, ss[1..]);
      assert ss == [ss[0]] + ss[1..];
    }
  }

  // ----- block headers -----

  datatype BlockHeader = BlockHeader(
    hash: Hash, prevHash: Hash, txsHash: Hash, signature: Data, blockSize: u64, blockType: u64, timestamp: u64,
      countTxs: u64,
    countSignTx: u64, filePos: FilePosition, sender: (Data, Data, Data), number: Option<nat>)

  const BLOCK_TYPE_STATE: u64 := 0x1100000067452301
  const BLOCK_TYPE_STATE_2: u64 := 0x1101000067452301

  predicate IsStateBlock(b: BlockHeader) { b.blockType == BLOCK_TYPE_STATE || b.blockType == BLOCK_TYPE_STATE_2 }

  predicate HeaderWritable(b: BlockHeader)
  {
    b.hash != [] && b.prevHash != [] && b.txsHash != [] && b.blockSize != 0 && b.blockType != 0 &&
      b.filePos.fileName != []
  }

  function HeaderHashes(b: BlockHeader): seq<Data> { [b.prevHash, b.hash, b.txsHash, b.signature] }

  function HeaderCounts(b: BlockHeader): seq<u64> { [b.blockSize, b.blockType, b.timestamp, b.countTxs, b.countSignTx] }

  function HeaderSender(b: BlockHeader): seq<Data> { [b.sender.0, b.sender.1, b.sender.2] }

  predicate HeaderFits(b: BlockHeader)
  {
    |b.filePos.fileName| < TWO_64 && Fit(HeaderHashes(b)) && Fit(HeaderSender(b))
  }

  /** The block number is not part of the record. */
  function SerHeader(b: BlockHeader): Data
  {
    SerFilePosition(b.filePos) + (SerStrings(HeaderHashes(b)) +
      (SerInts(HeaderCounts(b)) + SerStrings(HeaderSender(b))))
  }

  function DeserHeader(raw: Data): Result<BlockHeader>
  {
    var (filePos, p) :- ReadFilePosition(raw, 0);
    var (hs, q) :- ReadStrings(raw, p, 4);
    var (ns, r) :- ReadInts(raw, q, 5);
    var (ss, _) :- ReadStrings(raw, r, 3);
    Returned(BlockHeader(hs[1], hs[0], hs[2], hs[3], ns[0], ns[1], ns[2], ns[3], ns[4], filePos, (ss[0], ss[1], ss[2]),
      None))
  }

  function Bare(b: BlockHeader): BlockHeader { b.(number := None) }

  lemma HeaderRoundTrip(b: BlockHeader)
    requires HeaderFits(b)
    ensures DeserHeader(SerHeader(b)) == Returned(Bare(b))
  {
    hide SerFilePosition; hide SerStrings; hide SerInts; hide ReadFilePosition; hide ReadStrings; hide ReadInts;
    hide At; hide Fit;
    var raw := SerHeader(b);
    var f, hs, ns, ss := SerFilePosition(b.filePos), SerStrings(HeaderHashes(b)), SerInts(HeaderCounts(b)),
      SerStrings(HeaderSender(b));
    AtStart(raw);
    AtSplit(raw, 0, f, hs + (ns + ss));
    AtSplit(raw, |f|, hs, ns + ss);
    AtSplit(raw, |f| + |hs|, ns, ss);
    ReadFilePositionAt(raw, 0, b.filePos);
    ReadStringsAt(raw, |f|, HeaderHashes(b));
    ReadIntsAt(raw, |f| + |hs|, HeaderCounts(b));
    ReadStringsAt(raw, |f| + |hs| + 40, HeaderSender(b));
  }

  // ----- sign-block headers -----

  datatype SignHeader = SignHeader(filePos: FilePosition, timestamp: u64, blockSize: u64, hash: Hash, prevHash: Hash,
                                   sender: (Data, Data, Data))

  function SignStrings(b: SignHeader): seq<Data> { [b.hash, b.prevHash, b.sender.0, b.sender.1, b.sender.2] }

  function SerSignHeader(b: SignHeader): Data
  {
    SerFilePosition(b.filePos) + (SerInts([b.timestamp, b.blockSize]) + SerStrings(SignStrings(b)))
  }

  function DeserSignHeader(raw: Data): Result<SignHeader>
  {
    var (filePos, p) :- ReadFilePosition(raw, 0);
    var (ns, q) :- ReadInts(raw, p, 2);
    var (ss, _) :- ReadStrings(raw, q, 5);
    Returned(SignHeader(filePos, ns[0], ns[1], ss[0], ss[1], (ss[2], ss[3], ss[4])))
  }

  lemma SignHeaderRoundTrip(b: SignHeader)
    requires |b.filePos.fileName| < TWO_64 && Fit(SignStrings(b))
    ensures DeserSignHeader(SerSignHeader(b)) == Returned(b)
  {
    hide SerFilePosition; hide SerStrings; hide SerInts; hide ReadFilePosition; hide ReadStrings; hide ReadInts;
    hide At; hide Fit;
    var raw := SerSignHeader(b);
    var f, ns, ss := SerFilePosition(b.filePos), SerInts([b.timestamp, b.blockSize]), SerStrings(SignStrings(b));
    AtStart(raw);
    AtSplit(raw, 0, f, ns + ss);
    AtSplit(raw, |f|, ns, ss);
    ReadFilePositionAt(raw, 0, b.filePos);
    ReadIntsAt(raw, |f|, [b.timestamp, b.blockSize]);
    ReadStringsAt(raw, |f| + 16, SignStrings(b));
  }

  // ----- metadata -----

  datatype Metadata = Metadata(blockHash: Hash, prevHash: Hash)

  const NO_METADATA := Metadata([], [])

  function SerMetadata(m: Metadata): Data { SerString(m.blockHash) + SerString(m.prevHash) }

  function DeserMetadata(raw: Data): Result<Metadata>
  {
    if raw == [] then Returned(NO_METADATA)
    else
      var (hash, p) :- ReadString(raw, 0);
      var (prev, _) :- ReadString(raw, p);
      Returned(Metadata(hash, prev))
  }

  lemma MetadataRoundTrip(m: Metadata)
    requires |m.blockHash| < TWO_64 && |m.prevHash| < TWO_64
    ensures DeserMetadata(SerMetadata(m)) == Returned(m)
  {
    hide SerString; hide ReadString; hide At;
    var raw := SerMetadata(m);
    AtStart(raw);
    AtSplit(raw, 0, SerString(m.blockHash), SerString(m.prevHash));
    ReadStringAt(raw, 0, m.blockHash);
    ReadStringAt(raw, 8 + |m.blockHash|, m.prevHash);
  }

  // ----- timeline elements: a variant, tagged with its index -----

  datatype Element =
    | Sign(filePos: FilePosition, hash: Hash, prevHash: Hash)
    | Simple(hash: Hash)

  predicate ElementWritable(e: Element) { e.hash != [] && (e.Sign? ==> e.filePos.fileName != []) }

  predicate ElementFits(e: Element)
  {
    |e.hash| < TWO_64 && (e.Sign? ==> |e.prevHash| < TWO_64 && |e.filePos.fileName| < TWO_64)
  }

  function SerElement(e: Element): Data
  {
    match e
    case Sign(filePos, hash, prevHash) => SerInt(0) + (SerFilePosition(filePos) + SerStrings([hash, prevHash]))
    case Simple(hash) => SerInt(1) + SerStrings([hash])
  }

  function DeserElement(raw: Data): Result<Element>
  {
    var (tag, p) :- ReadInt(raw, 0);
    if tag == 0 then
      var (filePos, q) :- ReadFilePosition(raw, p);
      var (ss, _) :- ReadStrings(raw, q, 2);
      Returned(Sign(filePos, ss[0], ss[1]))
    else if tag == 1 then
      var (ss, _) :- ReadStrings(raw, p, 1);
      Returned(Simple(ss[0]))
    else Thrown
  }

  lemma ElementRoundTrip(e: Element)
    requires ElementFits(e)
    ensures DeserElement(SerElement(e)) == Returned(e)
  {
    hide SerFilePosition; hide SerStrings; hide SerInt; hide ReadFilePosition; hide ReadStrings; hide ReadInt; hide At;
    var raw := SerElement(e);
    AtStart(raw);
    match e
    case Sign(filePos, hash, prevHash) =>
      var f, ss := SerFilePosition(filePos), SerStrings([hash, prevHash]);
      AtSplit(raw, 0, SerInt(0), f + ss);
      AtSplit(raw, 8, f, ss);
      ReadIntAt(raw, 0, 0);
      ReadFilePositionAt(raw, 8, filePos);
      ReadStringsAt(raw, 8 + |f|, [hash, prevHash]);
    case Simple(hash) =>
      AtSplit(raw, 0, SerInt(1), SerStrings([hash]));
      ReadIntAt(raw, 0, 1);
      ReadStringsAt(raw, 8, [hash]);
  }
}
